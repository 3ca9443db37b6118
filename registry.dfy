/**
 * The histogram registry of sidm/definitions/hists.py as data.
 *
 * Each entry of `hist_defs` names a histogram, lists its axes and may carry
 * an event mask.  An axis is one of the extraction shapes of module Axes,
 * applied to one named collection; the mask is either "every event" or
 * `ak.num(coll) > k`.  Floating-point quantities (momenta, isolation,
 * distances, mass and momentum sums, ratios) are read through a Kinematics
 * value and are never computed here.
 *
 * The main facts: every masked axis of the registry is paired with a mask
 * that guarantees the object it indexes (RegistryWellFormed), so that every
 * histogram's extraction succeeds on every batch and yields values of the
 * shape its kind promises (EvaluateWellFormed), and the axes that one
 * histogram plots against each other line up entry by entry (AxesAligned,
 * AbcdAligned).  `objs` holds `matched_ljs` in its corrected form (see
 * Objects.MatchedLjs); with the selection as objects.py writes it,
 * `matched_lj_n` raises whenever some event holds a different number of dark
 * photons and lepton jets (MatchedLjNAsWritten, MatchedLjNDiverges).
 */
module Registry {
  import opened Ragged
  import opened Axes
  import Objects

  type Obj = Objects.Obj

  /** The collections the axes read: the event record's own and the derived ones. */
  datatype Coll =
    | Pvs | Electrons | Photons | Muons | DsaMuons | Ljs | LjSources | Gens
    | GenEs | GenMus | GenAs | GenAsToMu | GenAsToE
    | MuLjs | EgmLjs
    | MatchedGenAs | MatchedLjs | MatchedGenAsMu | MatchedGenAsEgm   // all at MatchRadius

  /** One batch of events: the event record's collections, all with one entry per event. */
  datatype Batch = Batch(
    pv: seq<seq<Obj>>, electron: seq<seq<Obj>>, pfphoton: seq<seq<Obj>>, muon: seq<seq<Obj>>,
    dsamuon: seq<seq<Obj>>, pfjet: seq<seq<Obj>>, ljsource: seq<seq<Obj>>, gen: seq<seq<Obj>>)
  {
    function Size(): nat { |pv| }

    predicate Valid() {
      && |electron| == Size() && |pfphoton| == Size() && |muon| == Size() && |dsamuon| == Size()
      && |pfjet| == Size() && |ljsource| == Size() && |gen| == Size()
    }
  }

  /** The `objs` dictionary the axis lambdas read: every collection of Coll, for one batch. */
  datatype Objs = Objs(
    pvs: seq<seq<Obj>>, electrons: seq<seq<Obj>>, photons: seq<seq<Obj>>, muons: seq<seq<Obj>>,
    dsaMuons: seq<seq<Obj>>, ljs: seq<seq<Obj>>, ljSources: seq<seq<Obj>>, gens: seq<seq<Obj>>,
    genEs: seq<seq<Obj>>, genMus: seq<seq<Obj>>, genAs: seq<seq<Obj>>,
    genAsToMu: seq<seq<Obj>>, genAsToE: seq<seq<Obj>>,
    muLjs: seq<seq<Obj>>, egmLjs: seq<seq<Obj>>,
    matchedGenAs: seq<seq<Obj>>, matchedLjs: seq<seq<Obj>>,
    matchedGenAsMu: seq<seq<Obj>>, matchedGenAsEgm: seq<seq<Obj>>)
  {
    function Size(): nat { |pvs| }

    /** The collection `objs[c]`. */
    function Get(c: Coll): seq<seq<Obj>> {
      match c
      case Pvs => pvs
      case Electrons => electrons
      case Photons => photons
      case Muons => muons
      case DsaMuons => dsaMuons
      case Ljs => ljs
      case LjSources => ljSources
      case Gens => gens
      case GenEs => genEs
      case GenMus => genMus
      case GenAs => genAs
      case GenAsToMu => genAsToMu
      case GenAsToE => genAsToE
      case MuLjs => muLjs
      case EgmLjs => egmLjs
      case MatchedGenAs => matchedGenAs
      case MatchedLjs => matchedLjs
      case MatchedGenAsMu => matchedGenAsMu
      case MatchedGenAsEgm => matchedGenAsEgm
    }

    /** Every collection has one entry per event. */
    predicate Valid() {
      forall c: Coll :: |Get(c)| == Size()
    }
  }

  /** The distance used by the `matched_*` entries of hists.py. */
  const MatchRadius: real := 0.4

  /** Floating-point fields of an object. */
  datatype RealField =
    | Pt | Eta | Phi | Energy
    | Ndof | Z | Rho
    | PfIsolation05 | PfIsolationPtNoPU05 | PfIsolationPt05
    | PfIsolation07 | PfIsolationPtNoPU07 | PfIsolationPt07 | Pfiso
    | Lxy   // (dauvtx - vtx).r

  /** Integer fields of an object. */
  datatype IntField = ElectronN | PhotonN | MuonN | AbsPid | Charge | Kind

  /** Two-object quantities of a passing event's subleading and leading objects. */
  datatype PairOp = AbsDeltaPhi | DeltaR

  /** Quantities of the summed four-momentum of a group of objects. */
  datatype GroupOp = SumMass | SumPt

  /** Per-object quantities against the nearest object of another collection. */
  datatype NearOp = NearestDR | PtRatioToNearest

  /** The floating-point side of the analysis, supplied by the caller and never computed here. */
  datatype Kinematics = Kinematics(
    field: (Obj, RealField) -> real,
    deltaR: (Obj, Obj) -> real,
    sum: (GroupOp, seq<Obj>) -> real,
    nearest: (NearOp, Obj, seq<Obj>) -> real,
    within: Objects.Within)
  {
    /**
     * The matched selections and the `*_dR` axes read one distance: an object
     * is within `r` of a collection iff its `dR` to the nearest of them is below `r`.
     */
    ghost predicate Consistent() {
      forall r: real, o: Obj, os: seq<Obj> :: within(r, o, os) == (nearest(NearestDR, o, os) < r)
    }
  }

  /**
   * The `objs` dictionary of one batch: the event record's collections, the
   * selections of `primary_objs` and those of `derived_objs`, the matched ones
   * at MatchRadius.  Every collection keeps one entry per event.
   */
  function Derive(b: Batch, within: Objects.Within): (o: Objs)
    requires b.Valid()
    ensures o.Valid() && o.Size() == b.Size()
  {
    var genAs := Objects.GenAs(b.gen);
    Objs(b.pv, b.electron, b.pfphoton, b.muon, b.dsamuon, b.pfjet, b.ljsource, b.gen,
      Objects.GenEs(b.gen), Objects.GenMus(b.gen), genAs,
      Objects.GenAsToMu(b.gen), Objects.GenAsToE(b.gen),
      Objects.MuLjs(b.pfjet), Objects.EgmLjs(b.pfjet),
      Objects.MatchedGenAs(genAs, b.pfjet, MatchRadius, within),
      Objects.MatchedLjs(genAs, b.pfjet, MatchRadius, within),
      Objects.MatchedGenAsMu(genAs, b.pfjet, MatchRadius, within),
      Objects.MatchedGenAsEgm(genAs, b.pfjet, MatchRadius, within))
  }

  datatype AxisDef =
    | Count(coll: Coll)                                  // ak.num(coll)
    | ObjectReal(coll: Coll, f: RealField, absolute: bool) // coll.f or abs(coll.f)
    | ObjectInt(coll: Coll, g: IntField)                 // coll.g
    | ObjectIntSum(coll: Coll, g: IntField, h: IntField) // coll.g + coll.h
    | Nearest(coll: Coll, other: Coll, nop: NearOp)      // dR(coll, other), coll.pt / coll.nearest(other).pt
    | Indexed(coll: Coll, k: nat, f: RealField)          // coll[mask, k].f
    | Pair(coll: Coll, pop: PairOp)                      // op(coll[mask, 1], coll[mask, 0])
    | FirstTwo(coll: Coll, gop: GroupOp)                 // coll[mask, :2].p4.sum().gop

  datatype MaskDef = AllEvents | MoreThan(coll: Coll, k: nat)   // evt_mask = ak.num(coll) > k

  datatype HistDef = HistDef(name: string, axes: seq<AxisDef>, mask: MaskDef)

  datatype Value = IntVal(i: int) | RealVal(x: real)

  /** What one axis extraction yields: one value per event (or per passing event), or one per object. */
  datatype AxisValues = PerEvent(values: seq<Value>) | PerObject(objects: seq<seq<Value>>)

  // ---------------------------------------------------------------------
  // Evaluation
  // ---------------------------------------------------------------------

  /** The histogram's event mask: every event, or the events with more than k objects. */
  function EventMask(o: Objs, m: MaskDef): (mask: seq<bool>)
    requires o.Valid()
    ensures |mask| == o.Size()
    ensures m.AllEvents? ==> forall i :: 0 <= i < |mask| ==> mask[i]
    ensures m.MoreThan? ==> forall i :: 0 <= i < |mask| ==> mask[i] == (|o.Get(m.coll)[i]| > m.k)
  {
    match m
    case AllEvents => seq(o.Size(), i => true)
    case MoreThan(c, k) => NumAbove(o.Get(c), k)
  }

  function IntOf(o: Obj, g: IntField): int {
    match g
    case ElectronN => o.electronN
    case PhotonN => o.photonN
    case MuonN => o.muonN
    case AbsPid => Abs(o.pid)
    case Charge => o.charge
    case Kind => o.kind
  }

  function RealOf(kin: Kinematics, o: Obj, f: RealField, absolute: bool): real {
    if absolute then AbsReal(kin.field(o, f)) else kin.field(o, f)
  }

  /** `abs(second.phi - first.phi)` or `second.delta_r(first)`. */
  function PairOf(kin: Kinematics, op: PairOp, second: Obj, first: Obj): real {
    match op
    case AbsDeltaPhi => AbsReal(kin.field(second, Phi) - kin.field(first, Phi))
    case DeltaR => kin.deltaR(second, first)
  }

  /** Per object of `coll`, a value computed against the same event's `others`. */
  function ProjectAgainst<V>(coll: seq<seq<Obj>>, others: seq<seq<Obj>>, f: (Obj, seq<Obj>) -> V): (r: seq<seq<V>>)
    requires |coll| == |others|
    ensures SameShape(r, coll)
    ensures forall i, j :: 0 <= i < |coll| && 0 <= j < |coll[i]| ==> r[i][j] == f(coll[i][j], others[i])
  {
    seq(|coll|, i requires 0 <= i < |coll| =>
      seq(|coll[i]|, j requires 0 <= j < |coll[i]| => f(coll[i][j], others[i])))
  }

  function MapSeq<A, B>(s: seq<A>, f: A -> B): (r: seq<B>)
    ensures |r| == |s|
    ensures forall j :: 0 <= j < |s| ==> r[j] == f(s[j])
  {
    seq(|s|, j requires 0 <= j < |s| => f(s[j]))
  }

  /** The kind of values an axis yields. */
  datatype Shape = OnePerEvent | OnePerPassingEvent | OnePerObject(coll: Coll)

  function ShapeOf(a: AxisDef): Shape {
    match a
    case Count(_) => OnePerEvent
    case ObjectReal(c, _, _) => OnePerObject(c)
    case ObjectInt(c, _) => OnePerObject(c)
    case ObjectIntSum(c, _, _) => OnePerObject(c)
    case Nearest(c, _, _) => OnePerObject(c)
    case Indexed(_, _, _) => OnePerPassingEvent
    case Pair(_, _) => OnePerPassingEvent
    case FirstTwo(_, _) => OnePerPassingEvent
  }

  /** The values `v` have the shape `s` on the collections `o` under `mask`. */
  predicate HasShape(v: AxisValues, s: Shape, o: Objs, mask: seq<bool>) {
    match s
    case OnePerEvent => v.PerEvent? && |v.values| == o.Size()
    case OnePerPassingEvent => v.PerEvent? && |v.values| == CountTrue(mask)
    case OnePerObject(c) => v.PerObject? && SameShape(v.objects, o.Get(c))
  }

  /** How many objects every passing event must hold for the axis to take what it indexes. */
  function Needs(a: AxisDef): nat {
    match a
    case Indexed(_, k, _) => k + 1
    case Pair(_, _) => 2
    case FirstTwo(_, _) => 2
    case _ => 0
  }

  /** A masked axis is paired with a mask on its own collection that guarantees what it indexes. */
  predicate AxisWellFormed(a: AxisDef, m: MaskDef) {
    ShapeOf(a) == OnePerPassingEvent ==> m.MoreThan? && m.coll == a.coll && m.k + 1 >= Needs(a)
  }

  predicate WellFormed(h: HistDef) {
    forall a :: a in h.axes ==> AxisWellFormed(a, h.mask)
  }

  /** The axes of one histogram all yield values of one shape. */
  predicate CoPlotted(h: HistDef) {
    forall a, a' :: a in h.axes && a' in h.axes ==> ShapeOf(a) == ShapeOf(a')
  }

  // Per-kind extraction functions, one for each shape of lambda in the registry.

  /** `ak.num(coll)`: the number of objects of each event. */
  function CountValues(coll: seq<seq<Obj>>): (r: seq<Value>)
    ensures |r| == |coll|
    ensures forall i :: 0 <= i < |coll| ==> r[i] == IntVal(|coll[i]|)
  {
    MapSeq(Num(coll), (n: nat) => IntVal(n))
  }

  /** `coll.f` (or `abs(coll.f)`): one value per object. */
  function RealValues(coll: seq<seq<Obj>>, kin: Kinematics, f: RealField, absolute: bool): (r: seq<seq<Value>>)
    ensures SameShape(r, coll)
    ensures forall i, j :: 0 <= i < |coll| && 0 <= j < |coll[i]| ==>
      r[i][j] == RealVal(RealOf(kin, coll[i][j], f, absolute))
  {
    Project(coll, o => RealVal(RealOf(kin, o, f, absolute)))
  }

  /** `coll.g` for an integer field: one value per object. */
  function IntValues(coll: seq<seq<Obj>>, g: IntField): (r: seq<seq<Value>>)
    ensures SameShape(r, coll)
    ensures forall i, j :: 0 <= i < |coll| && 0 <= j < |coll[i]| ==> r[i][j] == IntVal(IntOf(coll[i][j], g))
  {
    Project(coll, o => IntVal(IntOf(o, g)))
  }

  /** `coll.g + coll.h`: the elementwise sum of two integer fields of the same collection. */
  function IntSumValues(coll: seq<seq<Obj>>, g: IntField, h: IntField): (r: seq<seq<Value>>)
    ensures SameShape(r, coll)
    ensures forall i, j :: 0 <= i < |coll| && 0 <= j < |coll[i]| ==>
      r[i][j] == IntVal(IntOf(coll[i][j], g) + IntOf(coll[i][j], h))
  {
    FieldSumShape(coll, o => IntOf(o, g), o => IntOf(o, h));
    var sum := RaggedAdd(Project(coll, o => IntOf(o, g)), Project(coll, o => IntOf(o, h)));
    Project(sum.value, (n: int) => IntVal(n))
  }

  /** `dR(coll, other)` or `coll.pt / coll.nearest(other).pt`: one value per object of `coll`. */
  function NearestValues(coll: seq<seq<Obj>>, others: seq<seq<Obj>>, kin: Kinematics, op: NearOp): (r: seq<seq<Value>>)
    requires |coll| == |others|
    ensures SameShape(r, coll)
    ensures forall i, j :: 0 <= i < |coll| && 0 <= j < |coll[i]| ==>
      r[i][j] == RealVal(kin.nearest(op, coll[i][j], others[i]))
  {
    ProjectAgainst(coll, others, (o, os) => RealVal(kin.nearest(op, o, os)))
  }

  /** `coll[mask, k].f`: one value per passing event, or the error the array library raises. */
  function IndexedValues(coll: seq<seq<Obj>>, mask: seq<bool>, k: nat, kin: Kinematics, f: RealField): (r: Result<seq<Value>>)
    ensures r.Ok? <==> |mask| == |coll| && forall i :: 0 <= i < |coll| && mask[i] ==> k < |coll[i]|
    ensures r.Ok? ==> |r.value| == CountTrue(mask)
    ensures r.Ok? ==> forall j :: 0 <= j < |r.value| ==>
      r.value[j] == RealVal(kin.field(coll[Passing(mask)[j]][k], f))
  {
    match MaskedAt(coll, mask, k)
    case Ok(objs) => Ok(MapSeq(objs, o => RealVal(kin.field(o, f))))
    case Err(e) => Err(e)
  }

  /** `op(coll[mask, 1], coll[mask, 0])`: one value per passing event. */
  function PairValues(coll: seq<seq<Obj>>, mask: seq<bool>, kin: Kinematics, op: PairOp): (r: Result<seq<Value>>)
    ensures r.Ok? <==> |mask| == |coll| && forall i :: 0 <= i < |coll| && mask[i] ==> 1 < |coll[i]|
    ensures r.Ok? ==> |r.value| == CountTrue(mask)
    ensures r.Ok? ==> forall j :: 0 <= j < |r.value| ==>
      var s := coll[Passing(mask)[j]];
      r.value[j] == RealVal(PairOf(kin, op, s[1], s[0]))
  {
    MaskedPair(coll, mask, (second, first) => RealVal(PairOf(kin, op, second, first)))
  }

  /** `coll[mask, :2].p4.sum().op`: one value per passing event, from its first two objects. */
  function FirstTwoValues(coll: seq<seq<Obj>>, mask: seq<bool>, kin: Kinematics, op: GroupOp): (r: Result<seq<Value>>)
    ensures r.Ok? <==> |mask| == |coll|
    ensures r.Ok? ==> |r.value| == CountTrue(mask)
    ensures r.Ok? ==> forall j :: 0 <= j < |r.value| ==>
      var s := coll[Passing(mask)[j]];
      r.value[j] == RealVal(kin.sum(op, if |s| < 2 then s else s[..2]))
  {
    match MaskedFirstTwo(coll, mask)
    case Ok(groups) => Ok(MapSeq(groups, g => RealVal(kin.sum(op, g))))
    case Err(e) => Err(e)
  }

  /** The axes that read one value per object of their collection. */
  function ObjectValues(o: Objs, kin: Kinematics, a: AxisDef): (v: seq<seq<Value>>)
    requires o.Valid() && ShapeOf(a).OnePerObject?
    ensures SameShape(v, o.Get(a.coll))
  {
    match a
    case ObjectReal(c, f, absolute) => RealValues(o.Get(c), kin, f, absolute)
    case ObjectInt(c, g) => IntValues(o.Get(c), g)
    case ObjectIntSum(c, g, h) => IntSumValues(o.Get(c), g, h)
    case Nearest(c, other, op) => NearestValues(o.Get(c), o.Get(other), kin, op)
  }

  /**
   * The axes that index the objects of each passing event: one value per
   * passing event, and no failure when every passing event holds what the
   * axis needs.
   */
  function PassingValues(o: Objs, kin: Kinematics, a: AxisDef, mask: seq<bool>): (r: Result<seq<Value>>)
    requires o.Valid() && |mask| == o.Size() && ShapeOf(a) == OnePerPassingEvent
    ensures r.Ok? ==> |r.value| == CountTrue(mask)
    ensures (forall i :: 0 <= i < o.Size() && mask[i] ==> Needs(a) <= |o.Get(a.coll)[i]|) ==> r.Ok?
  {
    match a
    case Indexed(c, k, f) => IndexedValues(o.Get(c), mask, k, kin, f)
    case Pair(c, op) => PairValues(o.Get(c), mask, kin, op)
    case FirstTwo(c, op) => FirstTwoValues(o.Get(c), mask, kin, op)
  }

  /** One axis's extraction function applied to the collections and the histogram's mask. */
  function EvalAxis(o: Objs, kin: Kinematics, a: AxisDef, mask: seq<bool>): (r: Result<AxisValues>)
    requires o.Valid() && |mask| == o.Size()
    ensures r.Ok? ==> HasShape(r.value, ShapeOf(a), o, mask)
    ensures ShapeOf(a) != OnePerPassingEvent ==> r.Ok?
  {
    match ShapeOf(a)
    case OnePerEvent => Ok(PerEvent(CountValues(o.Get(a.coll))))
    case OnePerObject(_) => Ok(PerObject(ObjectValues(o, kin, a)))
    case OnePerPassingEvent =>
      match PassingValues(o, kin, a, mask)
      case Ok(vs) => Ok(PerEvent(vs))
      case Err(e) => Err(e)
  }

  /** A well-formed masked axis evaluated under its own histogram's mask never fails. */
  lemma EvalAxisTotal(o: Objs, kin: Kinematics, a: AxisDef, m: MaskDef)
    requires o.Valid() && AxisWellFormed(a, m)
    ensures EvalAxis(o, kin, a, EventMask(o, m)).Ok?
  {
    var mask := EventMask(o, m);
    if ShapeOf(a) == OnePerPassingEvent {
      var coll := o.Get(a.coll);
      assert forall i :: 0 <= i < |coll| && mask[i] ==> Needs(a) <= |coll[i]|;
    }
  }

  /** The axes' extraction functions applied in order to the collections and one shared mask. */
  function EvalAxes(o: Objs, kin: Kinematics, axes: seq<AxisDef>, mask: seq<bool>): (r: Result<seq<AxisValues>>)
    requires o.Valid() && |mask| == o.Size()
    ensures r.Ok? <==> forall j :: 0 <= j < |axes| ==> EvalAxis(o, kin, axes[j], mask).Ok?
    ensures r.Ok? ==> |r.value| == |axes|
    ensures r.Ok? ==> forall j :: 0 <= j < |axes| ==> r.value[j] == EvalAxis(o, kin, axes[j], mask).value
  {
    if axes == [] then Ok([])
    else
      match EvalAxis(o, kin, axes[0], mask)
      case Err(e) => Err(e)
      case Ok(v) =>
        match EvalAxes(o, kin, axes[1..], mask)
        case Err(e) => Err(e)
        case Ok(vs) => Ok([v] + vs)
  }

  /**
   * `fill`'s view of a histogram definition: the collections are derived
   * once, the event mask is computed once, and the same mask is handed to
   * every axis.
   */
  function Evaluate(h: HistDef, b: Batch, kin: Kinematics): (r: Result<seq<AxisValues>>)
    requires b.Valid()
    ensures var o := Derive(b, kin.within);
      r.Ok? <==> forall j :: 0 <= j < |h.axes| ==> EvalAxis(o, kin, h.axes[j], EventMask(o, h.mask)).Ok?
    ensures r.Ok? ==> |r.value| == |h.axes|
    ensures r.Ok? ==> forall j :: 0 <= j < |h.axes| ==>
      var o := Derive(b, kin.within);
      r.value[j] == EvalAxis(o, kin, h.axes[j], EventMask(o, h.mask)).value
    ensures r.Ok? ==> forall j :: 0 <= j < |h.axes| ==>
      var o := Derive(b, kin.within);
      HasShape(r.value[j], ShapeOf(h.axes[j]), o, EventMask(o, h.mask))
  {
    var o := Derive(b, kin.within);
    EvalAxes(o, kin, h.axes, EventMask(o, h.mask))
  }

  /**
   * A well-formed histogram's extraction succeeds on every batch, and every
   * axis yields values of the shape its kind promises.
   */
  lemma EvaluateWellFormed(h: HistDef, b: Batch, kin: Kinematics)
    requires b.Valid() && WellFormed(h)
    ensures Evaluate(h, b, kin).Ok?
    ensures |Evaluate(h, b, kin).value| == |h.axes|
  {
    var o := Derive(b, kin.within);
    forall j | 0 <= j < |h.axes| ensures EvalAxis(o, kin, h.axes[j], EventMask(o, h.mask)).Ok? {
      assert h.axes[j] in h.axes;
      EvalAxisTotal(o, kin, h.axes[j], h.mask);
    }
  }

  /** Two axis results with the same number of entries in every event. */
  predicate SameValueShape(v: AxisValues, w: AxisValues) {
    || (v.PerEvent? && w.PerEvent? && |v.values| == |w.values|)
    || (v.PerObject? && w.PerObject? && SameShape(v.objects, w.objects))
  }

  /**
   * The axes of a well-formed, co-plotted histogram all have the same shape:
   * one value per event, one per passing event, or one per object of the same
   * collection.
   */
  lemma AxesAligned(h: HistDef, b: Batch, kin: Kinematics)
    requires b.Valid() && WellFormed(h) && CoPlotted(h)
    ensures Evaluate(h, b, kin).Ok?
    ensures forall j, k :: 0 <= j < |h.axes| && 0 <= k < |h.axes| ==>
      SameValueShape(Evaluate(h, b, kin).value[j], Evaluate(h, b, kin).value[k])
  {
    EvaluateWellFormed(h, b, kin);
    var vs := Evaluate(h, b, kin).value;
    var o := Derive(b, kin.within);
    var mask := EventMask(o, h.mask);
    forall j, k | 0 <= j < |h.axes| && 0 <= k < |h.axes| ensures SameValueShape(vs[j], vs[k]) {
      assert h.axes[j] in h.axes && h.axes[k] in h.axes;
      var s := ShapeOf(h.axes[j]);
      assert HasShape(vs[j], s, o, mask) && HasShape(vs[k], s, o, mask);
    }
  }

  // ---------------------------------------------------------------------
  // The registry (hist_defs)
  // ---------------------------------------------------------------------

  /** The leading lepton jet isolation against the lepton jet pair's |dphi|, for the ABCD method. */
  const Abcd: HistDef := HistDef("abcd_lj_lj_dphi_vs_lj0_pfIsolationPt05",
    [Pair(Ljs, AbsDeltaPhi), Indexed(Ljs, 0, PfIsolationPt05)], MoreThan(Ljs, 1))

  /** Primary vertices. */
  const PvHists: seq<HistDef> := [
    HistDef("pv_n", [Count(Pvs)], AllEvents),
    HistDef("pv_ndof", [ObjectReal(Pvs, Ndof, false)], AllEvents),
    HistDef("pv_z", [ObjectReal(Pvs, Z, false)], AllEvents),
    HistDef("pv_rho", [ObjectReal(Pvs, Rho, false)], AllEvents)
  ]

  /** PF electrons and photons. */
  const ElectronPhotonHists: seq<HistDef> := [
    HistDef("electron_n", [Count(Electrons)], AllEvents),
    HistDef("electron_pt", [ObjectReal(Electrons, Pt, false)], AllEvents),
    HistDef("electron_eta_phi", [ObjectReal(Electrons, Eta, false), ObjectReal(Electrons, Phi, false)], AllEvents),
    HistDef("photon_n", [Count(Photons)], AllEvents),
    HistDef("photon_pt", [ObjectReal(Photons, Pt, false)], AllEvents),
    HistDef("photon_eta_phi", [ObjectReal(Photons, Eta, false), ObjectReal(Photons, Phi, false)], AllEvents)
  ]

  /** PF muons and displaced standalone muons. */
  const MuonHists: seq<HistDef> := [
    HistDef("muon_n", [Count(Muons)], AllEvents),
    HistDef("muon_pt", [ObjectReal(Muons, Pt, false)], AllEvents),
    HistDef("muon_eta_phi", [ObjectReal(Muons, Eta, false), ObjectReal(Muons, Phi, false)], AllEvents),
    HistDef("dsaMuon_n", [Count(DsaMuons)], AllEvents),
    HistDef("dsaMuon_pt", [ObjectReal(DsaMuons, Pt, false)], AllEvents),
    HistDef("dsaMuon_eta_phi", [ObjectReal(DsaMuons, Eta, false), ObjectReal(DsaMuons, Phi, false)], AllEvents)
  ]

  /** Lepton jet counts and momenta. */
  const LjHists: seq<HistDef> := [
    HistDef("lj_n", [Count(Ljs)], AllEvents),
    HistDef("lj_pt", [ObjectReal(Ljs, Pt, false)], AllEvents)
  ]

  /** Lepton jet isolation variables. */
  const LjIsolationHists: seq<HistDef> := [
    HistDef("lj_pfIsolation05", [ObjectReal(Ljs, PfIsolation05, false)], AllEvents),
    HistDef("lj0_pfIsolation05", [Indexed(Ljs, 0, PfIsolation05)], MoreThan(Ljs, 0)),
    HistDef("lj1_pfIsolation05", [Indexed(Ljs, 1, PfIsolation05)], MoreThan(Ljs, 1)),
    HistDef("lj_pfIsolationPtNoPU05", [ObjectReal(Ljs, PfIsolationPtNoPU05, false)], AllEvents),
    HistDef("lj_pfIsolationPt05", [ObjectReal(Ljs, PfIsolationPt05, false)], AllEvents),
    HistDef("lj_pfIsolation07", [ObjectReal(Ljs, PfIsolation07, false)], AllEvents),
    HistDef("lj_pfIsolationPtNoPU07", [ObjectReal(Ljs, PfIsolationPtNoPU07, false)], AllEvents),
    HistDef("lj_pfIsolationPt07", [ObjectReal(Ljs, PfIsolationPt07, false)], AllEvents),
    HistDef("lj_pfiso", [ObjectReal(Ljs, Pfiso, false)], AllEvents)
  ]

  /** The leading and subleading lepton jets, and the jets of each kind. */
  const LjLeadingHists: seq<HistDef> := [
    HistDef("lj0_pt", [Indexed(Ljs, 0, Pt)], MoreThan(Ljs, 0)),
    HistDef("lj1_pt", [Indexed(Ljs, 1, Pt)], MoreThan(Ljs, 1)),
    HistDef("lj0_e", [Indexed(Ljs, 0, Energy)], MoreThan(Ljs, 0)),
    HistDef("lj1_e", [Indexed(Ljs, 1, Energy)], MoreThan(Ljs, 1)),
    HistDef("lj_eta_phi", [ObjectReal(Ljs, Eta, false), ObjectReal(Ljs, Phi, false)], AllEvents),
    HistDef("egm_lj_pt", [ObjectReal(EgmLjs, Pt, false)], AllEvents),
    HistDef("mu_lj_pt", [ObjectReal(MuLjs, Pt, false)], AllEvents)
  ]

  /** Lepton jet constituent counts. */
  const LjConstituentHists: seq<HistDef> := [
    HistDef("lj_electronN", [ObjectInt(Ljs, ElectronN)], AllEvents),
    HistDef("lj_photonN", [ObjectInt(Ljs, PhotonN)], AllEvents),
    HistDef("lj_electronPhotonN", [ObjectIntSum(Ljs, ElectronN, PhotonN)], AllEvents),
    HistDef("lj_muonN", [ObjectInt(Ljs, MuonN)], AllEvents)
  ]

  /** Lepton jet sources. */
  const LjSourceHists: seq<HistDef> := [
    HistDef("ljsource_n", [Count(LjSources)], AllEvents),
    HistDef("ljsource_pt", [ObjectReal(LjSources, Pt, false)], AllEvents),
    HistDef("ljsource_eta_phi", [ObjectReal(LjSources, Eta, false), ObjectReal(LjSources, Phi, false)], AllEvents),
    HistDef("ljsource_charge", [ObjectInt(LjSources, Charge)], AllEvents),
    HistDef("ljsource_type", [ObjectInt(LjSources, Kind)], AllEvents)
  ]

  /** Distances of reconstructed objects to the nearest lepton jet. */
  const NearestLjHists: seq<HistDef> := [
    HistDef("electron_lj_dR", [Nearest(Electrons, Ljs, NearestDR)], AllEvents),
    HistDef("electron_lj_dR_lowRange", [Nearest(Electrons, Ljs, NearestDR)], AllEvents),
    HistDef("photon_lj_dR", [Nearest(Photons, Ljs, NearestDR)], AllEvents),
    HistDef("photon_lj_dR_lowRange", [Nearest(Photons, Ljs, NearestDR)], AllEvents),
    HistDef("photon_lj_dR_reallyLowRange", [Nearest(Photons, Ljs, NearestDR)], AllEvents),
    HistDef("muon_lj_dR", [Nearest(Muons, Ljs, NearestDR)], AllEvents),
    HistDef("muon_lj_dR_lowRange", [Nearest(Muons, Ljs, NearestDR)], AllEvents),
    HistDef("dsaMuon_lj_dR", [Nearest(DsaMuons, Ljs, NearestDR)], AllEvents),
    HistDef("dsaMuon_lj_dR_lowRange", [Nearest(DsaMuons, Ljs, NearestDR)], AllEvents)
  ]

  /** The two leading lepton jets together. */
  const LjPairHists: seq<HistDef> := [
    HistDef("lj_lj_absdphi", [Pair(Ljs, AbsDeltaPhi)], MoreThan(Ljs, 1)),
    HistDef("lj_lj_invmass", [FirstTwo(Ljs, SumMass)], MoreThan(Ljs, 1)),
    HistDef("lj_lj_invmass_lowRange", [FirstTwo(Ljs, SumMass)], MoreThan(Ljs, 1)),
    Abcd
  ]

  /** Generator-level particles and electrons. */
  const GenEHists: seq<HistDef> := [
    HistDef("gen_abspid", [ObjectInt(Gens, AbsPid)], AllEvents),
    HistDef("genE_pt", [ObjectReal(GenEs, Pt, true)], AllEvents),
    HistDef("genE_pt_highRange", [ObjectReal(GenEs, Pt, true)], AllEvents),
    HistDef("genE0_pt", [Indexed(GenEs, 0, Pt)], MoreThan(GenEs, 0)),
    HistDef("genE1_pt", [Indexed(GenEs, 1, Pt)], MoreThan(GenEs, 1)),
    HistDef("genE0_pt_highRange", [Indexed(GenEs, 0, Pt)], MoreThan(GenEs, 0)),
    HistDef("genE1_pt_highRange", [Indexed(GenEs, 1, Pt)], MoreThan(GenEs, 1)),
    HistDef("genE_genE_dR", [Pair(GenEs, DeltaR)], MoreThan(GenEs, 1)),
    HistDef("genE_genE_pt", [FirstTwo(GenEs, SumPt)], MoreThan(GenEs, 1))
  ]

  /** Generator-level muons. */
  const GenMuHists: seq<HistDef> := [
    HistDef("genMu_pt", [ObjectReal(GenMus, Pt, true)], AllEvents),
    HistDef("genMu_pt_highRange", [ObjectReal(GenMus, Pt, true)], AllEvents),
    HistDef("genMu0_pt", [Indexed(GenMus, 0, Pt)], MoreThan(GenMus, 0)),
    HistDef("genMu1_pt", [Indexed(GenMus, 1, Pt)], MoreThan(GenMus, 1)),
    HistDef("genMu0_pt_highRange", [Indexed(GenMus, 0, Pt)], MoreThan(GenMus, 0)),
    HistDef("genMu1_pt_highRange", [Indexed(GenMus, 1, Pt)], MoreThan(GenMus, 1)),
    HistDef("genMu_genMu_dR", [Pair(GenMus, DeltaR)], MoreThan(GenMus, 1)),
    HistDef("genMu_genMu_pt", [FirstTwo(GenMus, SumPt)], MoreThan(GenMus, 1))
  ]

  /** Dark photons. */
  const GenAHists: seq<HistDef> := [
    HistDef("genA_n", [Count(GenAs)], AllEvents),
    HistDef("genA_toMu_n", [Count(GenAsToMu)], AllEvents),
    HistDef("genA_toE_n", [Count(GenAsToE)], AllEvents),
    HistDef("genA_lxy", [ObjectReal(GenAs, Lxy, false)], AllEvents),
    HistDef("genAs_toMu_lxy", [ObjectReal(GenAsToMu, Lxy, false)], AllEvents),
    HistDef("genA_pt", [ObjectReal(GenAs, Pt, true)], AllEvents),
    HistDef("genA_pt_highRange", [ObjectReal(GenAs, Pt, true)], AllEvents),
    HistDef("genA_eta_phi", [ObjectReal(GenAs, Eta, false), ObjectReal(GenAs, Phi, false)], AllEvents),
    HistDef("genA_genA_dphi", [Pair(GenAs, AbsDeltaPhi)], MoreThan(GenAs, 1))
  ]

  /** Dark photons against the nearest lepton jet, and lepton jets against the nearest dark photon. */
  const NearestGenAHists: seq<HistDef> := [
    HistDef("genA_lj_dR", [Nearest(GenAs, Ljs, NearestDR)], AllEvents),
    HistDef("genA_lj_dR_lowRange", [Nearest(GenAs, Ljs, NearestDR)], AllEvents),
    HistDef("lj_genA_ptRatio", [Nearest(Ljs, GenAs, PtRatioToNearest)], AllEvents),
    HistDef("egm_lj_genA_ptRatio", [Nearest(EgmLjs, GenAs, PtRatioToNearest)], AllEvents),
    HistDef("mu_lj_genA_ptRatio", [Nearest(MuLjs, GenAs, PtRatioToNearest)], AllEvents)
  ]

  /** Dark photons and lepton jets matched to each other within MatchRadius. */
  const MatchedHists: seq<HistDef> := [
    HistDef("matched_genA_n", [Count(MatchedGenAs)], AllEvents),
    HistDef("matched_lj_n", [Count(MatchedLjs)], AllEvents),
    HistDef("matched_genA_mu_n", [Count(MatchedGenAsMu)], AllEvents),
    HistDef("matched_genA_egm_n", [Count(MatchedGenAsEgm)], AllEvents),
    HistDef("matched_genA_lxy", [ObjectReal(MatchedGenAs, Lxy, false)], AllEvents),
    HistDef("matched_genA_mu_lxy", [ObjectReal(MatchedGenAsMu, Lxy, false)], AllEvents),
    HistDef("matched_genA_egm_lxy", [ObjectReal(MatchedGenAsEgm, Lxy, false)], AllEvents)
  ]

  /** `hist_defs`, in the order of its entries. */
  const HistDefs: seq<HistDef> :=
    PvHists + ElectronPhotonHists + MuonHists + LjHists + LjIsolationHists
    + LjLeadingHists + LjConstituentHists + LjSourceHists + NearestLjHists + LjPairHists
    + GenEHists + GenMuHists + GenAHists + NearestGenAHists + MatchedHists

  predicate AllWellFormed(hs: seq<HistDef>) {
    forall h :: h in hs ==> WellFormed(h) && CoPlotted(h)
  }

  lemma PvHistsWellFormed()
    ensures AllWellFormed(PvHists)
  {
    forall i | 0 <= i < |PvHists| ensures WellFormed(PvHists[i]) && CoPlotted(PvHists[i]) {
    }
  }

  lemma ElectronPhotonHistsWellFormed()
    ensures AllWellFormed(ElectronPhotonHists)
  {
    forall i | 0 <= i < |ElectronPhotonHists| ensures WellFormed(ElectronPhotonHists[i]) && CoPlotted(ElectronPhotonHists[i]) {
    }
  }

  lemma MuonHistsWellFormed()
    ensures AllWellFormed(MuonHists)
  {
    forall i | 0 <= i < |MuonHists| ensures WellFormed(MuonHists[i]) && CoPlotted(MuonHists[i]) {
    }
  }

  lemma LjHistsWellFormed()
    ensures AllWellFormed(LjHists)
  {
    forall i | 0 <= i < |LjHists| ensures WellFormed(LjHists[i]) && CoPlotted(LjHists[i]) {
    }
  }

  lemma LjIsolationHistsWellFormed()
    ensures AllWellFormed(LjIsolationHists)
  {
    forall i | 0 <= i < |LjIsolationHists| ensures WellFormed(LjIsolationHists[i]) && CoPlotted(LjIsolationHists[i]) {
    }
  }

  lemma LjLeadingHistsWellFormed()
    ensures AllWellFormed(LjLeadingHists)
  {
    forall i | 0 <= i < |LjLeadingHists| ensures WellFormed(LjLeadingHists[i]) && CoPlotted(LjLeadingHists[i]) {
    }
  }

  lemma LjConstituentHistsWellFormed()
    ensures AllWellFormed(LjConstituentHists)
  {
    forall i | 0 <= i < |LjConstituentHists| ensures WellFormed(LjConstituentHists[i]) && CoPlotted(LjConstituentHists[i]) {
    }
  }

  lemma LjSourceHistsWellFormed()
    ensures AllWellFormed(LjSourceHists)
  {
    forall i | 0 <= i < |LjSourceHists| ensures WellFormed(LjSourceHists[i]) && CoPlotted(LjSourceHists[i]) {
    }
  }

  lemma NearestLjHistsWellFormed()
    ensures AllWellFormed(NearestLjHists)
  {
    forall i | 0 <= i < |NearestLjHists| ensures WellFormed(NearestLjHists[i]) && CoPlotted(NearestLjHists[i]) {
    }
  }

  lemma LjPairHistsWellFormed()
    ensures AllWellFormed(LjPairHists)
  {
    forall i | 0 <= i < |LjPairHists| ensures WellFormed(LjPairHists[i]) && CoPlotted(LjPairHists[i]) {
    }
  }

  lemma GenEHistsWellFormed()
    ensures AllWellFormed(GenEHists)
  {
    forall i | 0 <= i < |GenEHists| ensures WellFormed(GenEHists[i]) && CoPlotted(GenEHists[i]) {
    }
  }

  lemma GenMuHistsWellFormed()
    ensures AllWellFormed(GenMuHists)
  {
    forall i | 0 <= i < |GenMuHists| ensures WellFormed(GenMuHists[i]) && CoPlotted(GenMuHists[i]) {
    }
  }

  lemma GenAHistsWellFormed()
    ensures AllWellFormed(GenAHists)
  {
    forall i | 0 <= i < |GenAHists| ensures WellFormed(GenAHists[i]) && CoPlotted(GenAHists[i]) {
    }
  }

  lemma NearestGenAHistsWellFormed()
    ensures AllWellFormed(NearestGenAHists)
  {
    forall i | 0 <= i < |NearestGenAHists| ensures WellFormed(NearestGenAHists[i]) && CoPlotted(NearestGenAHists[i]) {
    }
  }

  lemma MatchedHistsWellFormed()
    ensures AllWellFormed(MatchedHists)
  {
    forall i | 0 <= i < |MatchedHists| ensures WellFormed(MatchedHists[i]) && CoPlotted(MatchedHists[i]) {
    }
  }

  /**
   * Every histogram of the registry pairs each `coll[mask, k]` axis with the
   * mask `ak.num(coll) > k'` on the same collection, k' >= k (and each pair
   * or first-two axis with `> 1`), and plots only axes of one shape together.
   */
  lemma RegistryWellFormed()
    ensures AllWellFormed(HistDefs)
  {
    PvHistsWellFormed();
    ElectronPhotonHistsWellFormed();
    MuonHistsWellFormed();
    LjHistsWellFormed();
    LjIsolationHistsWellFormed();
    LjLeadingHistsWellFormed();
    LjConstituentHistsWellFormed();
    LjSourceHistsWellFormed();
    NearestLjHistsWellFormed();
    LjPairHistsWellFormed();
    GenEHistsWellFormed();
    GenMuHistsWellFormed();
    GenAHistsWellFormed();
    NearestGenAHistsWellFormed();
    MatchedHistsWellFormed();
  }

  /** Every registered histogram's extraction succeeds on every batch, with aligned axes. */
  lemma RegistryEvaluates(h: HistDef, b: Batch, kin: Kinematics)
    requires h in HistDefs && b.Valid()
    ensures Evaluate(h, b, kin).Ok?
    ensures forall j, k :: 0 <= j < |h.axes| && 0 <= k < |h.axes| ==>
      SameValueShape(Evaluate(h, b, kin).value[j], Evaluate(h, b, kin).value[k])
  {
    RegistryWellFormed();
    AxesAligned(h, b, kin);
  }

  /** The ABCD histogram's first axis: |dphi| of the two leading lepton jets of each passing event. */
  lemma AbcdDeltaPhi(ljs: seq<seq<Obj>>, kin: Kinematics)
    ensures var mask := NumAbove(ljs, 1);
      var r := PairValues(ljs, mask, kin, AbsDeltaPhi);
      && r.Ok? && |r.value| == CountTrue(mask)
      && forall j :: 0 <= j < CountTrue(mask) ==>
        var s := ljs[Passing(mask)[j]];
        |s| >= 2 && r.value[j] == RealVal(PairOf(kin, AbsDeltaPhi, s[1], s[0]))
  {
    PassingNumAbove(ljs, 1);
  }

  /** The ABCD histogram's second axis: the leading lepton jet's isolation in each passing event. */
  lemma AbcdIsolation(ljs: seq<seq<Obj>>, kin: Kinematics)
    ensures var mask := NumAbove(ljs, 1);
      var r := IndexedValues(ljs, mask, 0, kin, PfIsolationPt05);
      && r.Ok? && |r.value| == CountTrue(mask)
      && forall j :: 0 <= j < CountTrue(mask) ==>
        var s := ljs[Passing(mask)[j]];
        |s| >= 2 && r.value[j] == RealVal(kin.field(s[0], PfIsolationPt05))
  {
    PassingNumAbove(ljs, 1);
  }

  /** The ABCD histogram's two axes on any valid collections, under its mask. */
  lemma AbcdAxes(o: Objs, kin: Kinematics)
    requires o.Valid()
    ensures var mask := NumAbove(o.Get(Ljs), 1);
      var r := EvalAxes(o, kin, Abcd.axes, mask);
      && r.Ok?
      && r.value == [PerEvent(PairValues(o.Get(Ljs), mask, kin, AbsDeltaPhi).value),
                     PerEvent(IndexedValues(o.Get(Ljs), mask, 0, kin, PfIsolationPt05).value)]
  {
    var mask := NumAbove(o.Get(Ljs), 1);
    var pv := PairValues(o.Get(Ljs), mask, kin, AbsDeltaPhi);
    var iv := IndexedValues(o.Get(Ljs), mask, 0, kin, PfIsolationPt05);
    AbcdDeltaPhi(o.Get(Ljs), kin);
    AbcdIsolation(o.Get(Ljs), kin);
    assert EvalAxis(o, kin, Abcd.axes[0], mask) == Ok(PerEvent(pv.value));
    assert EvalAxis(o, kin, Abcd.axes[1], mask) == Ok(PerEvent(iv.value));
  }

  /**
   * With one distance for both, `matched_genAs` holds exactly the event's dark
   * photons whose `genA_lj_dR` value is below MatchRadius.
   */
  lemma MatchedGenAsByNearestDR(b: Batch, kin: Kinematics, i: nat, x: Obj)
    requires b.Valid() && kin.Consistent() && i < b.Size()
    ensures x in Derive(b, kin.within).Get(MatchedGenAs)[i] <==>
      x in Objects.GenAs(b.gen)[i] && kin.nearest(NearestDR, x, b.pfjet[i]) < MatchRadius
  {
    var genAs := Objects.GenAs(b.gen);
    var m := Objects.MatchedGenAs(genAs, b.pfjet, MatchRadius, kin.within);
    assert Derive(b, kin.within).Get(MatchedGenAs) == m;
    SelectsExactlyMembers(m[i], genAs[i], Objects.Near(kin.within, MatchRadius, b.pfjet[i]), x);
  }

  /**
   * `matched_lj_n` (hists.py) over `matched_ljs` as objects.py writes it: one
   * count per event when every event has as many dark photons as lepton jets,
   * and the array library's jagged-mask error otherwise.
   */
  function MatchedLjNAsWritten(b: Batch, within: Objects.Within): (r: Result<seq<Value>>)
    requires b.Valid()
    ensures r.Ok? <==> SameShape(Objects.GenAs(b.gen), b.pfjet)
    ensures r.Err? ==> r.error == JaggedMaskMismatch
    ensures r.Ok? ==> |r.value| == b.Size() && forall i :: 0 <= i < b.Size() ==>
      r.value[i] == IntVal(CountTrue(Objects.NearMask(Objects.GenAs(b.gen)[i], b.pfjet[i], MatchRadius, within)))
  {
    match Objects.MatchedLjsAsWritten(Objects.GenAs(b.gen), b.pfjet, MatchRadius, within)
    case Ok(m) => Ok(CountValues(m))
    case Err(e) => Err(e)
  }

  /**
   * The registry's `matched_lj_n` counts the corrected selection and so
   * evaluates on every batch, among them those where some event holds a
   * different number of dark photons and lepton jets and the entry as
   * written raises.
   */
  lemma MatchedLjNDiverges(b: Batch, kin: Kinematics)
    requires b.Valid() && !SameShape(Objects.GenAs(b.gen), b.pfjet)
    ensures MatchedHists[1].name == "matched_lj_n"
    ensures Evaluate(MatchedHists[1], b, kin).Ok?
    ensures MatchedLjNAsWritten(b, kin.within) == Err(JaggedMaskMismatch)
  {
    MatchedHistsWellFormed();
    assert MatchedHists[1] in MatchedHists;
    EvaluateWellFormed(MatchedHists[1], b, kin);
  }

  /** The lepton jets of `objs` are the event record's `pfjet`. */
  lemma DeriveLjs(b: Batch, within: Objects.Within)
    requires b.Valid()
    ensures Derive(b, within).Get(Ljs) == b.pfjet
  {
  }

  /**
   * The two axes of the ABCD histogram take one value per event with at
   * least two lepton jets, and their j-th values come from the same event:
   * the pair's |dphi| and the leading jet's isolation.
   */
  lemma AbcdAligned(b: Batch, kin: Kinematics)
    requires b.Valid()
    ensures Evaluate(Abcd, b, kin).Ok?
    ensures var vs := Evaluate(Abcd, b, kin).value;
      var mask := NumAbove(b.pfjet, 1);
      var p := Passing(mask);
      && |vs| == 2 && vs[0].PerEvent? && vs[1].PerEvent?
      && |vs[0].values| == |vs[1].values| == CountTrue(mask)
      && forall j :: 0 <= j < CountTrue(mask) ==>
        var s := b.pfjet[p[j]];
        |s| >= 2 &&
        vs[0].values[j] == RealVal(PairOf(kin, AbsDeltaPhi, s[1], s[0])) &&
        vs[1].values[j] == RealVal(kin.field(s[0], PfIsolationPt05))
  {
    var o := Derive(b, kin.within);
    DeriveLjs(b, kin.within);
    var mask := NumAbove(b.pfjet, 1);
    assert EventMask(o, Abcd.mask) == mask;
    AbcdAxes(o, kin);
    AbcdDeltaPhi(b.pfjet, kin);
    AbcdIsolation(b.pfjet, kin);
  }
}
