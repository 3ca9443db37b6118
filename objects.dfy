/**
 * The object collections of the analysis (sidm/definitions/objects.py).
 *
 * `primary_objs` selects generator-level particles by their PDG identifier;
 * `derived_objs` splits lepton jets by their muon content and keeps the
 * particles and jets that lie within an angular distance of the other
 * collection.  Every selector works event by event and keeps the input
 * objects in their original order.
 */
module Objects {
  import opened Ragged

  /**
   * One object of an event: the integer fields the selections and axes test,
   * and `payload`, the index of the object's floating-point record (momentum,
   * isolation, vertices), which is read only through the analysis's
   * kinematic functions.
   */
  datatype Obj = Obj(
    pid: int,          // PDG identifier (generator particles)
    daupid: int,       // PDG identifier of the decay products (generator particles)
    muonN: int,        // muon constituents (lepton jets)
    electronN: int,    // electron constituents (lepton jets)
    photonN: int,      // photon constituents (lepton jets)
    charge: int,       // lepton jet sources
    kind: int,         // lepton jet source type code
    payload: nat)

  /** The angular test `dR(o, others) < r`: is `o` within `r` of its nearest neighbour in `others`? */
  type Within = (real, Obj, seq<Obj>) -> bool

  // PDG identifiers the selections use.
  const ElectronId := 11
  const MuonId := 13
  const DarkPhotonId := 32

  predicate IsGenE(o: Obj) { Abs(o.pid) == ElectronId }
  predicate IsGenMu(o: Obj) { Abs(o.pid) == MuonId }
  predicate IsGenA(o: Obj) { Abs(o.pid) == DarkPhotonId }
  predicate DecaysToMu(o: Obj) { Abs(o.daupid) == MuonId }
  predicate DecaysToE(o: Obj) { Abs(o.daupid) == ElectronId }
  predicate IsGenAToMu(o: Obj) { IsGenA(o) && DecaysToMu(o) }
  predicate IsGenAToE(o: Obj) { IsGenA(o) && DecaysToE(o) }
  predicate IsMuLj(o: Obj) { o.muonN >= 2 }
  predicate IsEgmLj(o: Obj) { o.muonN == 0 }

  // ---------------------------------------------------------------------
  // primary_objs: generator-level selections
  // ---------------------------------------------------------------------

  /** `gens[abs(pid) == 11]`: the generator electrons. */
  function GenEs(gens: seq<seq<Obj>>): (r: seq<seq<Obj>>)
    ensures |r| == |gens|
    ensures forall i {:trigger r[i]} :: 0 <= i < |gens| ==> SelectsExactly(r[i], gens[i], IsGenE)
  {
    FilterEachSelectsExactly(gens, IsGenE);
    FilterEach(gens, IsGenE)
  }

  /** `gens[abs(pid) == 13]`: the generator muons. */
  function GenMus(gens: seq<seq<Obj>>): (r: seq<seq<Obj>>)
    ensures |r| == |gens|
    ensures forall i {:trigger r[i]} :: 0 <= i < |gens| ==> SelectsExactly(r[i], gens[i], IsGenMu)
  {
    FilterEachSelectsExactly(gens, IsGenMu);
    FilterEach(gens, IsGenMu)
  }

  /** `gens[abs(pid) == 32]`: the generator dark photons. */
  function GenAs(gens: seq<seq<Obj>>): (r: seq<seq<Obj>>)
    ensures |r| == |gens|
    ensures forall i {:trigger r[i]} :: 0 <= i < |gens| ==> SelectsExactly(r[i], gens[i], IsGenA)
  {
    FilterEachSelectsExactly(gens, IsGenA);
    FilterEach(gens, IsGenA)
  }

  /** `gens[(abs(pid) == 32) & (abs(daupid) == 13)]`: dark photons decaying to muons. */
  function GenAsToMu(gens: seq<seq<Obj>>): (r: seq<seq<Obj>>)
    ensures |r| == |gens|
    ensures forall i {:trigger r[i]} :: 0 <= i < |gens| ==> SelectsExactly(r[i], gens[i], IsGenAToMu)
  {
    FilterEachSelectsExactly(gens, IsGenAToMu);
    FilterEach(gens, IsGenAToMu)
  }

  /** `gens[(abs(pid) == 32) & (abs(daupid) == 11)]`: dark photons decaying to electrons. */
  function GenAsToE(gens: seq<seq<Obj>>): (r: seq<seq<Obj>>)
    ensures |r| == |gens|
    ensures forall i {:trigger r[i]} :: 0 <= i < |gens| ==> SelectsExactly(r[i], gens[i], IsGenAToE)
  {
    FilterEachSelectsExactly(gens, IsGenAToE);
    FilterEach(gens, IsGenAToE)
  }

  predicate IsGenEOrMu(o: Obj) { IsGenE(o) || IsGenMu(o) }
  predicate IsGenEOrMuOrA(o: Obj) { IsGenEOrMu(o) || IsGenA(o) }

  /**
   * Generator electrons, muons and dark photons of one event share no object,
   * so together they are never more than the event's generator particles.
   */
  lemma GenSelectionsDisjoint(gens: seq<seq<Obj>>, i: nat)
    requires i < |gens|
    ensures forall o :: !(o in GenEs(gens)[i] && o in GenMus(gens)[i])
    ensures forall o :: !(o in GenEs(gens)[i] && o in GenAs(gens)[i])
    ensures forall o :: !(o in GenMus(gens)[i] && o in GenAs(gens)[i])
    ensures |GenEs(gens)[i]| + |GenMus(gens)[i]| + |GenAs(gens)[i]| <= |gens[i]|
  {
    var s := gens[i];
    FilterDisjointCount(s, IsGenE, IsGenMu, IsGenEOrMu);
    FilterDisjointCount(s, IsGenEOrMu, IsGenA, IsGenEOrMuOrA);
  }

  /**
   * The dark photons decaying to muons are exactly the dark photons whose
   * decay products are muons, and likewise for electrons: each is an
   * order-preserving sub-collection of `genAs`, and the two share no object.
   */
  lemma DarkPhotonDecays(gens: seq<seq<Obj>>)
    ensures GenAsToMu(gens) == FilterEach(GenAs(gens), DecaysToMu)
    ensures GenAsToE(gens) == FilterEach(GenAs(gens), DecaysToE)
    ensures forall i :: 0 <= i < |gens| ==>
      IsSubsequence(GenAsToMu(gens)[i], GenAs(gens)[i]) && IsSubsequence(GenAsToE(gens)[i], GenAs(gens)[i])
    ensures forall i, o :: 0 <= i < |gens| ==> !(o in GenAsToMu(gens)[i] && o in GenAsToE(gens)[i])
  {
    forall i | 0 <= i < |gens|
      ensures GenAsToMu(gens)[i] == FilterEach(GenAs(gens), DecaysToMu)[i]
      ensures GenAsToE(gens)[i] == FilterEach(GenAs(gens), DecaysToE)[i]
      ensures IsSubsequence(GenAsToMu(gens)[i], GenAs(gens)[i])
      ensures IsSubsequence(GenAsToE(gens)[i], GenAs(gens)[i])
    {
      FilterConjunction(gens[i], IsGenA, DecaysToMu, IsGenAToMu);
      FilterConjunction(gens[i], IsGenA, DecaysToE, IsGenAToE);
      FilterIsSubsequence(GenAs(gens)[i], DecaysToMu);
      FilterIsSubsequence(GenAs(gens)[i], DecaysToE);
    }
  }

  // ---------------------------------------------------------------------
  // derived_objs: lepton jet types
  // ---------------------------------------------------------------------

  /** `ljs[muon_n >= 2]`: muon-type lepton jets. */
  function MuLjs(ljs: seq<seq<Obj>>): (r: seq<seq<Obj>>)
    ensures |r| == |ljs|
    ensures forall i {:trigger r[i]} :: 0 <= i < |ljs| ==> SelectsExactly(r[i], ljs[i], IsMuLj)
  {
    FilterEachSelectsExactly(ljs, IsMuLj);
    FilterEach(ljs, IsMuLj)
  }

  /** `ljs[muon_n == 0]`: electron/photon-type lepton jets. */
  function EgmLjs(ljs: seq<seq<Obj>>): (r: seq<seq<Obj>>)
    ensures |r| == |ljs|
    ensures forall i {:trigger r[i]} :: 0 <= i < |ljs| ==> SelectsExactly(r[i], ljs[i], IsEgmLj)
  {
    FilterEachSelectsExactly(ljs, IsEgmLj);
    FilterEach(ljs, IsEgmLj)
  }

  predicate IsTyped(o: Obj) { IsMuLj(o) || IsEgmLj(o) }
  predicate HasOneMuon(o: Obj) { o.muonN == 1 }
  predicate IsTypedOrOneMuon(o: Obj) { IsTyped(o) || HasOneMuon(o) }

  /**
   * Muon-type and EGM-type lepton jets are disjoint, a jet with exactly one
   * muon is neither, and so the two types together, plus the one-muon jets,
   * never outnumber the event's lepton jets.
   */
  lemma LeptonJetTypes(ljs: seq<seq<Obj>>, i: nat)
    requires i < |ljs|
    ensures forall o :: !(o in MuLjs(ljs)[i] && o in EgmLjs(ljs)[i])
    ensures forall o: Obj :: o.muonN == 1 ==> o !in MuLjs(ljs)[i] && o !in EgmLjs(ljs)[i]
    ensures |MuLjs(ljs)[i]| + |EgmLjs(ljs)[i]| + |Filter(ljs[i], HasOneMuon)| <= |ljs[i]|
  {
    var s := ljs[i];
    FilterDisjointCount(s, IsMuLj, IsEgmLj, IsTyped);
    FilterDisjointCount(s, IsTyped, HasOneMuon, IsTypedOrOneMuon);
  }

  // ---------------------------------------------------------------------
  // derived_objs: angular matching
  // ---------------------------------------------------------------------

  /** The per-object test "within `r` of the nearest object of `others`". */
  function Near(within: Within, r: real, others: seq<Obj>): Obj -> bool {
    o => within(r, o, others)
  }

  /** Per event, the objects of `coll` within `r` of the same event's `others`. */
  function FilterNear(coll: seq<seq<Obj>>, others: seq<seq<Obj>>, r: real, within: Within): (m: seq<seq<Obj>>)
    requires |coll| == |others|
    ensures |m| == |coll|
    ensures forall i {:trigger m[i]} :: 0 <= i < |coll| ==> m[i] == Filter(coll[i], Near(within, r, others[i]))
  {
    seq(|coll|, i requires 0 <= i < |coll| => Filter(coll[i], Near(within, r, others[i])))
  }

  lemma FilterNearSelectsExactly(coll: seq<seq<Obj>>, others: seq<seq<Obj>>, r: real, within: Within)
    requires |coll| == |others|
    ensures forall i :: 0 <= i < |coll| ==>
      SelectsExactly(FilterNear(coll, others, r, within)[i], coll[i], Near(within, r, others[i]))
  {
    forall i | 0 <= i < |coll| {
      FilterSelectsExactly(coll[i], Near(within, r, others[i]));
    }
  }

  /** `genAs[dR(genAs, ljs) < r]`: dark photons with a lepton jet within `r`. */
  function MatchedGenAs(genAs: seq<seq<Obj>>, ljs: seq<seq<Obj>>, r: real, within: Within): (m: seq<seq<Obj>>)
    requires |genAs| == |ljs|
    ensures |m| == |genAs|
    ensures forall i {:trigger m[i]} :: 0 <= i < |genAs| ==> SelectsExactly(m[i], genAs[i], Near(within, r, ljs[i]))
  {
    FilterNearSelectsExactly(genAs, ljs, r, within);
    FilterNear(genAs, ljs, r, within)
  }

  /** `genAs[dR(genAs, ljs[muon_n >= 2]) < r]`: dark photons with a muon-type lepton jet within `r`. */
  function MatchedGenAsMu(genAs: seq<seq<Obj>>, ljs: seq<seq<Obj>>, r: real, within: Within): (m: seq<seq<Obj>>)
    requires |genAs| == |ljs|
    ensures |m| == |genAs|
    ensures forall i {:trigger m[i]} :: 0 <= i < |genAs| ==> SelectsExactly(m[i], genAs[i], Near(within, r, MuLjs(ljs)[i]))
  {
    MatchedGenAs(genAs, MuLjs(ljs), r, within)
  }

  /** `genAs[dR(genAs, ljs[muon_n == 0]) < r]`: dark photons with an EGM-type lepton jet within `r`. */
  function MatchedGenAsEgm(genAs: seq<seq<Obj>>, ljs: seq<seq<Obj>>, r: real, within: Within): (m: seq<seq<Obj>>)
    requires |genAs| == |ljs|
    ensures |m| == |genAs|
    ensures forall i {:trigger m[i]} :: 0 <= i < |genAs| ==> SelectsExactly(m[i], genAs[i], Near(within, r, EgmLjs(ljs)[i]))
  {
    MatchedGenAs(genAs, EgmLjs(ljs), r, within)
  }

  /**
   * Lepton jets with a dark photon within `r`: the mask is computed per
   * lepton jet, `ljs[dR(ljs, genAs) < r]`.  This is the selection that
   * `matched_ljs` evidently intends; see MatchedLjsAsWritten.
   */
  function MatchedLjs(genAs: seq<seq<Obj>>, ljs: seq<seq<Obj>>, r: real, within: Within): (m: seq<seq<Obj>>)
    requires |genAs| == |ljs|
    ensures |m| == |ljs|
    ensures forall i {:trigger m[i]} :: 0 <= i < |ljs| ==> SelectsExactly(m[i], ljs[i], Near(within, r, genAs[i]))
  {
    FilterNearSelectsExactly(ljs, genAs, r, within);
    FilterNear(ljs, genAs, r, within)
  }

  /** The per-object mask `dR(coll, others) < r` of one event: one entry per object of `coll`. */
  function NearMask(coll: seq<Obj>, others: seq<Obj>, r: real, within: Within): (mask: seq<bool>)
    ensures |mask| == |coll|
    ensures forall j :: 0 <= j < |coll| ==> mask[j] == within(r, coll[j], others)
  {
    seq(|coll|, j requires 0 <= j < |coll| => within(r, coll[j], others))
  }

  /**
   * `matched_ljs` as written: `ljs[dR(genAs, ljs) < r]`.  The mask has one
   * entry per dark photon, and it is applied to the lepton jets, which the
   * array library accepts only when every event has as many dark photons as
   * lepton jets; the k-th jet is then kept when the k-th dark photon has some
   * jet nearby.
   */
  function MatchedLjsAsWritten(genAs: seq<seq<Obj>>, ljs: seq<seq<Obj>>, r: real, within: Within)
    : (res: Result<seq<seq<Obj>>>)
    requires |genAs| == |ljs|
    ensures res.Ok? <==> SameShape(genAs, ljs)
    ensures res.Err? ==> res.error == JaggedMaskMismatch
    ensures res.Ok? ==> |res.value| == |ljs| && forall i :: 0 <= i < |ljs| ==>
      |res.value[i]| == CountTrue(NearMask(genAs[i], ljs[i], r, within))
    ensures res.Ok? ==> forall i, k :: 0 <= i < |ljs| && 0 <= k < |res.value[i]| ==>
      var j := Passing(NearMask(genAs[i], ljs[i], r, within))[k];
      j < |ljs[i]| && res.value[i][k] == ljs[i][j] && within(r, genAs[i][j], ljs[i])
  {
    if SameShape(genAs, ljs) then
      Ok(seq(|ljs|, i requires 0 <= i < |ljs| && SameShape(genAs, ljs) =>
        Select(ljs[i], NearMask(genAs[i], ljs[i], r, within))))
    else
      Err(JaggedMaskMismatch)
  }

  /** An event with one dark photon and two lepton jets makes `matched_ljs` as written fail. */
  lemma MatchedLjsAsWrittenFails(a: Obj, l1: Obj, l2: Obj, r: real, within: Within)
    ensures MatchedLjsAsWritten([[a]], [[l1, l2]], r, within) == Err(JaggedMaskMismatch)
    ensures |MatchedLjs([[a]], [[l1, l2]], r, within)| == 1
  {
    assert !SameShape([[a]], [[l1, l2]]) by {
      assert |[[a]][0]| != |[[l1, l2]][0]|;
    }
  }

  /**
   * Even when the counts agree, `matched_ljs` as written keeps a jet because
   * of the dark photon at the same position: here the first jet is kept
   * although neither jet has a dark photon nearby.
   */
  lemma MatchedLjsAsWrittenMisattributes(a1: Obj, a2: Obj, l1: Obj, l2: Obj, r: real, within: Within)
    requires within(r, a1, [l1, l2]) && !within(r, a2, [l1, l2])
    requires !within(r, l1, [a1, a2]) && !within(r, l2, [a1, a2])
    ensures MatchedLjsAsWritten([[a1, a2]], [[l1, l2]], r, within) == Ok([[l1]])
    ensures MatchedLjs([[a1, a2]], [[l1, l2]], r, within) == [[]]
  {
    var mask := NearMask([a1, a2], [l1, l2], r, within);
    assert mask == [true, false];
    assert Select([l1, l2], mask) == [l1] by {
      assert mask[..1] == [true];
      assert Select([l1], [true]) == [l1] by {
        assert Select([l1][..0], [true][..0]) == [];
      }
      assert [l1, l2][..1] == [l1];
    }
    assert SameShape([[a1, a2]], [[l1, l2]]);
    var res := MatchedLjsAsWritten([[a1, a2]], [[l1, l2]], r, within);
    assert res.Ok? && |res.value| == 1 && res.value[0] == [l1];
    assert res.value == [[l1]];
    var m := MatchedLjs([[a1, a2]], [[l1, l2]], r, within);
    assert m[0] == Filter([l1, l2], Near(within, r, [a1, a2]));
    assert !Near(within, r, [a1, a2])(l1) && !Near(within, r, [a1, a2])(l2);
    assert m[0] == [];
  }

  /** Every matched collection is an order-preserving sub-collection of the collection it filters. */
  lemma MatchedAreSubcollections(gens: seq<seq<Obj>>, ljs: seq<seq<Obj>>, r: real, within: Within, i: nat)
    requires |gens| == |ljs| && i < |gens|
    ensures IsSubsequence(MatchedGenAs(GenAs(gens), ljs, r, within)[i], GenAs(gens)[i])
    ensures IsSubsequence(MatchedGenAsMu(GenAs(gens), ljs, r, within)[i], GenAs(gens)[i])
    ensures IsSubsequence(MatchedGenAsEgm(GenAs(gens), ljs, r, within)[i], GenAs(gens)[i])
    ensures IsSubsequence(MatchedLjs(GenAs(gens), ljs, r, within)[i], ljs[i])
    ensures forall o :: o in MatchedGenAs(GenAs(gens), ljs, r, within)[i] ==> IsGenA(o) && o in gens[i]
  {
    var genAs := GenAs(gens);
    var m := MatchedGenAs(genAs, ljs, r, within);
    forall o | o in m[i] ensures IsGenA(o) && o in gens[i] {
      SelectsExactlyMembers(m[i], genAs[i], Near(within, r, ljs[i]), o);
      SelectsExactlyMembers(genAs[i], gens[i], IsGenA, o);
    }
  }
}
