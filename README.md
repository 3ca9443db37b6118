# SIDM object selections and histogram registry

This project models two definition files of an analysis of self-interacting
dark matter (SIDM) events.

- `sidm/definitions/objects.py` derives collections of physics objects from
  the event record. Some are plain selections of generator-level particles:
  electrons, muons, dark photons, and dark photons that decay to muons or to
  electrons. Others depend on analysis choices: muon-type and
  electron/photon-type lepton jets (LJs), and the dark photons and lepton
  jets that lie within a distance `r` of each other.
- `sidm/definitions/hists.py` holds the registry `hist_defs`. Each histogram
  has one or more axes. Each axis is filled by a lambda over the collections
  and an optional event mask.

Every collection is ragged: one list of objects per event. In this model a
collection is a `seq<seq<Obj>>`, and the columnar array operations the code
relies on are functions on it:

- a per-object boolean selection;
- `ak.num`;
- `coll[mask, k]`;
- `coll[mask, :2]`;
- elementwise field arithmetic.

The errors the array library raises for ill-shaped selections are modelled
as a `Result`.

The modules follow the program's structure:

- `Ragged` (ragged.dfy) holds the generic selection operations and their
  algebra.
- `Objects` (objects.dfy) holds the selectors of objects.py.
- `Axes` (axes.dfy) holds the extraction shapes used by the histogram axes.
- `Registry` (registry.dfy) holds the histogram registry of hists.py as
  data: every entry is a `HistDef` of axis descriptions and a mask. It also
  holds an evaluator that applies an entry's extraction functions to one
  batch of events.

The main results:

- Every selector keeps exactly the objects its predicate accepts, in order.
- Every masked axis of the registry is guarded by a mask that guarantees the
  object it indexes. So every registered histogram's extraction succeeds on
  every batch (`Registry.RegistryEvaluates`). This holds with `matched_ljs`
  corrected (see "## Findings"). As written, `matched_lj_n` raises whenever
  some event holds a different number of dark photons and lepton jets
  (`Registry.MatchedLjNDiverges`).
- The axes of one histogram line up entry by entry. For the ABCD histogram
  this is proved down to its values (`Registry.AbcdAligned`).

Floating-point quantities are parameters of a `Kinematics` value and are
never computed here. These are pt, eta, phi, energy, isolation, the
distances `dR`, four-momentum sums, nearest-object distances and ratios.

## Model

| member | source | states |
|---|---|---|
| Ragged.Filter | sidm/definitions/objects.py:16-20 | a per-object selection keeps no more objects than it had, and an object is kept iff it was present and satisfies the predicate |
| Ragged.FilterIsSubsequence | sidm/definitions/objects.py:16-20 | a selection keeps the original order of the objects |
| Ragged.FilterMultiset | sidm/definitions/objects.py:16-20 | a selection keeps every accepted object as many times as it occurs and drops every other |
| Ragged.FilterSelectsExactly | sidm/definitions/objects.py:16-20 | a selection is an order-preserving subsequence holding exactly the accepted objects |
| Ragged.SelectsExactlyMembers | sidm/definitions/objects.py:16-20 | under an exact selection, membership is membership in the source together with the predicate |
| Ragged.SubsequenceOfTail | sidm/definitions/objects.py:16-20 | a subsequence of a collection's tail is a subsequence of the collection |
| Ragged.SubsequenceDropFirst | sidm/definitions/objects.py:16-20 | dropping the first element of a subsequence leaves a subsequence |
| Ragged.FilterConjunction | sidm/definitions/objects.py:19-20 | a selection by the conjunction `p & q` equals selecting by `p` and then by `q` |
| Ragged.FilterDisjointCount | sidm/definitions/objects.py:25-26 | two selections with disjoint predicates together keep as many objects as the selection by their disjunction |
| Ragged.FilterEach | sidm/definitions/objects.py:16-20 | `coll[p(coll)]` keeps the number of events and selects within each event |
| Ragged.FilterEachSelectsExactly | sidm/definitions/objects.py:16-20 | in every event, `coll[p(coll)]` is the exact, order-preserving selection by `p` |
| Ragged.CountTrue | sidm/definitions/hists.py:152-159 | the number of events passing a mask is at most the number of events |
| Ragged.Passing | sidm/definitions/hists.py:152-159 | the indices of the passing events, strictly increasing, each passing, and every passing event present |
| Ragged.Select | sidm/definitions/hists.py:152-159 | `xs[mask]` has one entry per passing event, and its j-th entry is the j-th passing event's |
| Objects.GenEs | sidm/definitions/objects.py:16 | per event, exactly the generator particles with `abs(pid) == 11`, in order |
| Objects.GenMus | sidm/definitions/objects.py:17 | per event, exactly the generator particles with `abs(pid) == 13`, in order |
| Objects.GenAs | sidm/definitions/objects.py:18 | per event, exactly the generator particles with `abs(pid) == 32`, in order |
| Objects.GenAsToMu | sidm/definitions/objects.py:19 | per event, exactly the dark photons whose daughters have `abs(daupid) == 13` |
| Objects.GenAsToE | sidm/definitions/objects.py:20 | per event, exactly the dark photons whose daughters have `abs(daupid) == 11` |
| Objects.GenSelectionsDisjoint | sidm/definitions/objects.py:16-18 | no particle is both a generator electron and muon, or either and a dark photon; the three counts sum to at most the event's particles |
| Objects.DarkPhotonDecays | sidm/definitions/objects.py:18-20 | `genAs_toMu` and `genAs_toE` are the dark photons filtered by decay mode, are subcollections of `genAs`, and never share a particle |
| Objects.MuLjs | sidm/definitions/objects.py:25 | per event, exactly the lepton jets with at least two muons |
| Objects.EgmLjs | sidm/definitions/objects.py:26 | per event, exactly the lepton jets with no muon |
| Objects.LeptonJetTypes | sidm/definitions/objects.py:25-26 | no lepton jet is of both types; one with exactly one muon is of neither; the typed ones and the one-muon ones together are at most all |
| Objects.FilterNear | sidm/definitions/objects.py:27 | `coll[dR(coll, others) < r]` keeps each event's objects within `r` of the other collection in that event |
| Objects.FilterNearSelectsExactly | sidm/definitions/objects.py:27 | that selection is the exact, order-preserving selection of the objects within `r` |
| Objects.MatchedGenAs | sidm/definitions/objects.py:27 | per event, exactly the dark photons within `r` of some lepton jet of the event |
| Objects.MatchedGenAsMu | sidm/definitions/objects.py:29 | per event, exactly the dark photons within `r` of some muon-type lepton jet |
| Objects.MatchedGenAsEgm | sidm/definitions/objects.py:30 | per event, exactly the dark photons within `r` of some electron/photon-type lepton jet |
| Objects.MatchedLjs | sidm/definitions/objects.py:28 | corrected: per event, exactly the lepton jets within `r` of some dark photon, one entry per event |
| Objects.NearMask | sidm/definitions/objects.py:27-30 | the mask `dR(coll, others) < r` has one entry per object of `coll`, true iff that object is within `r` |
| Objects.MatchedLjsAsWritten | sidm/definitions/objects.py:28 | as written: the genA-shaped mask applied to `ljs` succeeds iff the two collections have the same per-event counts, fails with a jagged-mask error otherwise, and when it succeeds keeps the j-th lepton jet of an event exactly when the j-th dark photon is within `r` of a lepton jet, in order |
| Objects.MatchedLjsAsWrittenFails | sidm/definitions/objects.py:28 | one dark photon and two lepton jets in an event: the code as written raises, while the corrected selection yields one event |
| Objects.MatchedLjsAsWrittenMisattributes | sidm/definitions/objects.py:28 | equal counts: the code as written keeps a lepton jet far from every dark photon, while the corrected selection keeps none |
| Objects.MatchedAreSubcollections | sidm/definitions/objects.py:27-30 | every matched collection is an order-preserving subcollection of its source; matched dark photons are dark photons of the event |
| Axes.Num | sidm/definitions/hists.py:24-29 | `ak.num(coll)` has one count per event, equal to that event's number of objects |
| Axes.Above | sidm/definitions/hists.py:156-158 | the mask `counts > k` is true exactly for events whose count exceeds `k` |
| Axes.NumAbove | sidm/definitions/hists.py:158 | `ak.num(coll) > k` is true exactly for events with more than `k` objects |
| Axes.Column | sidm/definitions/hists.py:152-167 | `groups[:, k]` succeeds iff every group has more than `k` objects, and then holds each group's k-th object |
| Axes.MaskedAt | sidm/definitions/hists.py:152-167 | `coll[mask, k]` succeeds iff the mask has one entry per event and every passing event has more than `k` objects; it then holds, in order, the k-th object of each passing event, and otherwise names the error |
| Axes.MaskedFirstTwo | sidm/definitions/hists.py:398-404 | `coll[mask, :2]` succeeds iff the mask has one entry per event, and holds the first (at most) two objects of each passing event |
| Axes.MaskedPair | sidm/definitions/hists.py:390-397 | a quantity of `coll[mask, 1]` and `coll[mask, 0]` succeeds iff every passing event has two objects, and is computed from that event's subleading and leading objects |
| Axes.Project | sidm/definitions/hists.py:55-60 | reading a field keeps the shape, one value per object |
| Axes.RaggedAdd | sidm/definitions/hists.py:276-281 | elementwise addition succeeds iff the shapes agree, and adds entry by entry |
| Axes.PassingNumAbove | sidm/definitions/hists.py:156-158 | an event passes `ak.num(coll) > k` iff it has more than `k` objects |
| Axes.MaskedAtInRange | sidm/definitions/hists.py:152-167 | under the mask `ak.num(coll) > m`, indexing any `k <= m` succeeds, with one value per passing event |
| Axes.FirstTwoUnderMask | sidm/definitions/hists.py:398-404 | under `ak.num(coll) > 1`, `coll[mask, :2]` holds exactly the two leading objects of each passing event |
| Axes.MaskedAxesAligned | sidm/definitions/hists.py:413-424 | under `ak.num(coll) > 1`, a pair axis and a leading-object axis have equal lengths and their j-th values come from the same event |
| Axes.CoPlottedSameShape | sidm/definitions/hists.py:61-68 | two fields of one collection have the same ragged shape, that of the collection |
| Axes.FieldSumShape | sidm/definitions/hists.py:276-281 | adding two integer fields of one collection succeeds and equals projecting their sum |
| Axes.PassingLeadingMask | sidm/definitions/hists.py:152-159 | events with 0, 1, 2 objects: those passing `> 0` are the second and third |
| Axes.PassingSubleadingMask | sidm/definitions/hists.py:160-167 | events with 0, 1, 2 objects: only the third passes `> 1` |
| Axes.LeadingOfZeroOneTwo | sidm/definitions/hists.py:152-159 | events with 0, 1, 2 objects: the leading-object axis under `> 0` holds the first object of the second and third events |
| Axes.SubleadingOfZeroOneTwo | sidm/definitions/hists.py:160-167 | events with 0, 1, 2 objects: the subleading-object axis under `> 1` holds the third event's second object |
| Axes.UnguardedIndexOfZeroOneTwo | sidm/definitions/hists.py:152-167 | events with 0, 1, 2 objects: indexing `k = 1` under the weaker mask `> 0` raises an out-of-range error |
| Registry.Derive | sidm/definitions/objects.py:6-31 | the `objs` dictionary of a batch has every collection, and every one has one entry per event |
| Registry.DeriveLjs | sidm/definitions/objects.py:13 | the lepton jets of `objs` are the event record's `pfjet` |
| Registry.EventMask | sidm/definitions/hists.py:152-159 | a histogram's event mask has one entry per event: always true without `evt_mask`, else true iff `ak.num(coll) > k` |
| Registry.ProjectAgainst | sidm/definitions/hists.py:323-329 | a per-object quantity against another collection keeps the first collection's shape |
| Registry.MapSeq | sidm/definitions/hists.py:398-404 | a per-event quantity keeps one value per passing event |
| Registry.CountValues | sidm/definitions/hists.py:24-29 | a count axis holds each event's number of objects |
| Registry.RealValues | sidm/definitions/hists.py:55-60 | a floating-point field axis holds the field (or its absolute value) of each object, in the collection's shape |
| Registry.IntValues | sidm/definitions/hists.py:264-269 | an integer field axis holds the field of each object, in the collection's shape |
| Registry.IntSumValues | sidm/definitions/hists.py:276-281 | the sum of two integer fields holds, per object, the two fields added |
| Registry.NearestValues | sidm/definitions/hists.py:323-329 | a nearest-object axis holds, per object, its quantity against the other collection of its event |
| Registry.IndexedValues | sidm/definitions/hists.py:152-167 | `coll[mask, k].f` succeeds iff every passing event has more than `k` objects, and holds the k-th object's field per passing event |
| Registry.PairValues | sidm/definitions/hists.py:390-397 | a pair axis succeeds iff every passing event has two objects, and holds the quantity of its subleading and leading objects |
| Registry.FirstTwoValues | sidm/definitions/hists.py:398-404 | a first-two axis holds the quantity of the summed first two objects of each passing event |
| Registry.ObjectValues | sidm/definitions/hists.py:55-60 | a per-object axis has the shape of its own collection |
| Registry.PassingValues | sidm/definitions/hists.py:152-167 | an indexed, pair or first-two axis has one value per passing event, and succeeds whenever every passing event holds what the axis needs |
| Registry.EvalAxis | sidm/definitions/hists.py:22-711 | a successful axis has the shape its kind promises; an axis that does not index objects always succeeds |
| Registry.EvalAxisTotal | sidm/definitions/hists.py:152-167 | an axis whose index is guarded by its histogram's mask always succeeds |
| Registry.EvalAxes | sidm/definitions/hists.py:22-711 | a histogram's axes succeed together iff each succeeds, and yield each axis's values in order |
| Registry.Evaluate | sidm/definitions/hists.py:22-711 | a histogram succeeds iff each of its axes succeeds under the histogram's mask on the batch's derived collections; it then has one value list per axis, equal to that axis's extraction and of the shape its kind promises |
| Registry.EvaluateWellFormed | sidm/definitions/hists.py:22-711 | a histogram whose indexed axes are guarded by its mask evaluates successfully on every batch |
| Registry.AxesAligned | sidm/definitions/hists.py:61-68 | a well-formed histogram's co-plotted axes yield values of the same shape, entry by entry |
| Registry.PvHistsWellFormed | sidm/definitions/hists.py:24-47 | the primary-vertex histograms are well formed and co-plotted |
| Registry.ElectronPhotonHistsWellFormed | sidm/definitions/hists.py:49-90 | the electron and photon histograms are well formed and co-plotted |
| Registry.MuonHistsWellFormed | sidm/definitions/hists.py:91-132 | the muon and displaced-muon histograms are well formed and co-plotted |
| Registry.LjHistsWellFormed | sidm/definitions/hists.py:133-144 | the lepton-jet count and pt histograms are well formed and co-plotted |
| Registry.LjIsolationHistsWellFormed | sidm/definitions/hists.py:145-209 | the lepton-jet isolation histograms are well formed, the leading and subleading ones guarded by their masks |
| Registry.LjLeadingHistsWellFormed | sidm/definitions/hists.py:210-263 | the leading/subleading lepton-jet and typed lepton-jet histograms are well formed |
| Registry.LjConstituentHistsWellFormed | sidm/definitions/hists.py:264-288 | the lepton-jet constituent-count histograms are well formed |
| Registry.LjSourceHistsWellFormed | sidm/definitions/hists.py:289-322 | the lepton-jet source histograms are well formed and co-plotted |
| Registry.NearestLjHistsWellFormed | sidm/definitions/hists.py:323-389 | the object-to-nearest-lepton-jet distance histograms are well formed |
| Registry.LjPairHistsWellFormed | sidm/definitions/hists.py:390-424 | the lepton-jet pair histograms and the ABCD histogram are guarded by `ak.num(ljs) > 1` |
| Registry.GenEHistsWellFormed | sidm/definitions/hists.py:426-488 | the generator-electron histograms are well formed, their indexed axes guarded |
| Registry.GenMuHistsWellFormed | sidm/definitions/hists.py:490-546 | the generator-muon histograms are well formed, their indexed axes guarded |
| Registry.GenAHistsWellFormed | sidm/definitions/hists.py:548-607 | the dark-photon histograms are well formed, the pair axis guarded by `ak.num(genAs) > 1` |
| Registry.NearestGenAHistsWellFormed | sidm/definitions/hists.py:609-646 | the dark-photon-to-lepton-jet distance and pt-ratio histograms are well formed |
| Registry.MatchedHistsWellFormed | sidm/definitions/hists.py:661-710 | the matched-collection histograms are well formed |
| Registry.RegistryWellFormed | sidm/definitions/hists.py:22-711 | every histogram of the registry is well formed and plots only axes of one shape together |
| Registry.RegistryEvaluates | sidm/definitions/hists.py:22-711 | every registered histogram evaluates successfully on every batch, with aligned axes |
| Registry.MatchedLjNAsWritten | sidm/definitions/hists.py:669-675 | as written: `matched_lj_n` succeeds iff every event holds as many dark photons as lepton jets, fails with a jagged-mask error otherwise, and counts per event the dark photons near a lepton jet |
| Registry.MatchedLjNDiverges | sidm/definitions/hists.py:669-675 | on every batch where some event's dark-photon and lepton-jet counts differ, the registry's corrected `matched_lj_n` evaluates while the entry as written raises |
| Registry.MatchedGenAsByNearestDR | sidm/definitions/objects.py:27 | when the matching test and the `dR` axes use one distance, `matched_genAs` holds exactly the dark photons whose nearest-jet `dR` is below 0.4 |
| Registry.AbcdDeltaPhi | sidm/definitions/hists.py:413-424 | the ABCD histogram's first axis is, per event with two lepton jets, the absolute dphi of its subleading and leading jet |
| Registry.AbcdIsolation | sidm/definitions/hists.py:413-424 | the ABCD histogram's second axis is, per event with two lepton jets, the leading jet's `pfIsolationPt05` |
| Registry.AbcdAxes | sidm/definitions/hists.py:413-424 | the ABCD histogram's two axes succeed on any collections and yield those two value lists |
| Registry.AbcdAligned | sidm/definitions/hists.py:413-424 | on every batch the ABCD axes yield one value per event with at least two lepton jets, and their j-th values come from the same event |

## Left out

- sidm/tools/histogram.py is not part of this model. That covers the `Histogram` and `Axis` classes, filling and weights. The model stops at the values each axis would be filled with.
- The binning of every axis (`hist.axis.Regular`, `hist.axis.IntCategory`) and the axis names and labels are left out. They belong to the external `hist` library and carry no selection logic.
- Floating-point arithmetic is left out. Momentum components, eta, phi, energy, isolation sums, `dR`, four-momentum sums, nearest-object distances and pt ratios are function parameters of `Kinematics`, and their numerical values are not modelled.
- The `dR` helper (in sidm/tools/utilities.py) is not part of this model. It is taken to give one value per object of its first argument: the distance to the nearest object of the second argument. The `# dR(e, nearest LJ)` comments of hists.py describe it that way. Whether an object lies within `r` is the parameter `within`.
- Objects.MatchedLjsAsWritten: the per-object value at index j is modelled as the j-th dark photon's distance to the nearest lepton jet. The exact broadcasting the array library would apply is not modelled.
- The cosmic-veto record (objects.py:7) is left out: no histogram reads it.
- The plain projections of objects.py:8-15 are fields of `Registry.Batch` copied into `Registry.Objs`, so they have no separate functions.
- `importlib.reload` (hists.py:19) is a development convenience with no effect on the definitions.
- The commented-out entries at hists.py:647-660 are not part of the registry.
- The matched collections take `r` as a parameter in objects.py. The registry uses them only at `r = 0.4` (`Registry.MatchRadius`), so `Registry.Objs` holds them at that radius only.
- Registry.Derive: `objs` holds `matched_ljs` in its corrected form, `ljs[dR(ljs, genAs) < r]`, not as objects.py:28 writes it. So `Registry.Evaluate`, `Registry.EvaluateWellFormed` and `Registry.RegistryEvaluates` describe the registry with that selection corrected. As written, `matched_lj_n` (hists.py:669-675) raises whenever some event holds a different number of dark photons and lepton jets, which `Registry.MatchedLjNAsWritten` and `Registry.MatchedLjNDiverges` state.
- Registry.RegistryEvaluates: proved for the registry with `matched_ljs` corrected, for the reason on the line above.
- Registry.Kinematics.Consistent: the matching test `within` and the nearest-object `dR` are separate parameters. Only `Registry.MatchedGenAsByNearestDR` assumes they agree.
- The uniqueness of the registry's keys is not proved. `hist_defs` is a Python dictionary: a repeated key would replace an earlier entry. `Registry.HistDefs` is a sequence that holds each entry once, in source order.
- Awkward-array internals are left out: lazy loading, record behaviours and the `p4` vector objects. Only the array shapes and selections are modelled.

## Findings

| source | as written | input that shows it | evidently intended | confidence | as-written member | corrected member |
|---|---|---|---|---|---|---|
| sidm/definitions/objects.py:28 | `matched_ljs` selects `ljs` with the mask `dR(genAs, ljs) < r`. That mask has one entry per dark photon, not one per lepton jet. | An event with one dark photon and two lepton jets: the mask's inner length 1 does not match the 2 lepton jets, so the selection raises. With equal counts, the j-th lepton jet is kept or dropped by the j-th dark photon's distance, so a jet far from every dark photon can be kept. The `matched_lj_n` histogram (hists.py:669-675) inherits the failure. | `ljs[dR(ljs, genAs) < r]`: keep the lepton jets within `r` of some dark photon, mirroring `matched_genAs`. | not executed | Objects.MatchedLjsAsWritten, Objects.MatchedLjsAsWrittenFails, Objects.MatchedLjsAsWrittenMisattributes, Registry.MatchedLjNAsWritten, Registry.MatchedLjNDiverges | Objects.MatchedLjs |
