/**
 * The extraction shapes that the histogram axes of sidm/definitions/hists.py
 * use on a ragged collection `coll` (outer index = event) and the
 * histogram's event mask:
 *
 *   - `ak.num(coll)`: one count per event;
 *   - `coll.field` and elementwise arithmetic on it: one value per object;
 *   - `coll[mask, k]`: the k-th object of every passing event;
 *   - `coll[mask, :2]`: the first two objects of every passing event;
 *   - the event mask `ak.num(coll) > k` that the masked axes are paired with.
 */
module Axes {
  import opened Ragged

  /** `ak.num(coll)`: the number of objects in each event. */
  function Num<T>(coll: seq<seq<T>>): (n: seq<nat>)
    ensures |n| == |coll|
    ensures forall i :: 0 <= i < |coll| ==> n[i] == |coll[i]|
  {
    seq(|coll|, i requires 0 <= i < |coll| => |coll[i]|)
  }

  /** The event mask `counts > k`. */
  function Above(counts: seq<nat>, k: nat): (mask: seq<bool>)
    ensures |mask| == |counts|
    ensures forall i :: 0 <= i < |counts| ==> mask[i] == (counts[i] > k)
  {
    seq(|counts|, i requires 0 <= i < |counts| => counts[i] > k)
  }

  /** `ak.num(coll) > k`: the events with more than k objects. */
  function NumAbove<T>(coll: seq<seq<T>>, k: nat): (mask: seq<bool>)
    ensures |mask| == |coll|
    ensures forall i :: 0 <= i < |coll| ==> mask[i] == (|coll[i]| > k)
  {
    Above(Num(coll), k)
  }

  /** `groups[:, k]`: the k-th object of every group, failing if some group is too short. */
  function Column<T>(groups: seq<seq<T>>, k: nat): (r: Result<seq<T>>)
    ensures r.Ok? <==> forall i :: 0 <= i < |groups| ==> k < |groups[i]|
    ensures r.Err? ==> r.error == IndexOutOfRange
    ensures r.Ok? ==> |r.value| == |groups| && forall i :: 0 <= i < |groups| ==> r.value[i] == groups[i][k]
  {
    if groups == [] then Ok([])
    else
      var n := |groups| - 1;
      match Column(groups[..n], k)
      case Err(e) => Err(e)
      case Ok(front) => if k < |groups[n]| then Ok(front + [groups[n][k]]) else Err(IndexOutOfRange)
  }

  /**
   * `coll[mask, k]`: the k-th object of every event that passes `mask`, in
   * event order.  The array library raises when the mask does not have one
   * entry per event, or when a passing event has at most k objects.
   */
  function MaskedAt<T>(coll: seq<seq<T>>, mask: seq<bool>, k: nat): (r: Result<seq<T>>)
    ensures r.Ok? <==> |mask| == |coll| && forall i :: 0 <= i < |coll| && mask[i] ==> k < |coll[i]|
    ensures r.Err? ==> r.error == if |mask| == |coll| then IndexOutOfRange else MaskLengthMismatch
    ensures r.Ok? ==> |r.value| == CountTrue(mask)
    ensures r.Ok? ==> forall j :: 0 <= j < |r.value| ==> r.value[j] == coll[Passing(mask)[j]][k]
  {
    if |mask| != |coll| then Err(MaskLengthMismatch)
    else
      var sel := Select(coll, mask);
      var p := Passing(mask);
      assert (forall j :: 0 <= j < |sel| ==> k < |sel[j]|) <==>
             (forall i :: 0 <= i < |coll| && mask[i] ==> k < |coll[i]|) by {
        if forall j :: 0 <= j < |sel| ==> k < |sel[j]| {
          forall i | 0 <= i < |coll| && mask[i] ensures k < |coll[i]| {
            var j :| 0 <= j < |p| && p[j] == i;
            assert sel[j] == coll[i];
          }
        }
      }
      Column(sel, k)
  }

  /**
   * `coll[mask, :2]`: the first two objects (fewer when the event has fewer)
   * of every passing event.  Slicing never raises; only a mask of the wrong
   * length does.
   */
  function MaskedFirstTwo<T>(coll: seq<seq<T>>, mask: seq<bool>): (r: Result<seq<seq<T>>>)
    ensures r.Ok? <==> |mask| == |coll|
    ensures r.Err? ==> r.error == MaskLengthMismatch
    ensures r.Ok? ==> |r.value| == CountTrue(mask)
    ensures r.Ok? ==> forall j :: 0 <= j < |r.value| ==>
      var s := coll[Passing(mask)[j]];
      r.value[j] == if |s| < 2 then s else s[..2]
  {
    if |mask| != |coll| then Err(MaskLengthMismatch)
    else
      var sel := Select(coll, mask);
      Ok(seq(|sel|, j requires 0 <= j < |sel| => if |sel[j]| < 2 then sel[j] else sel[j][..2]))
  }

  /**
   * An axis that combines the subleading and the leading object of each
   * passing event, `f(coll[mask, 1], coll[mask, 0])`, as the |dphi| and
   * delta-R axes do.
   */
  function MaskedPair<T, V>(coll: seq<seq<T>>, mask: seq<bool>, f: (T, T) -> V): (r: Result<seq<V>>)
    ensures r.Ok? <==> |mask| == |coll| && forall i :: 0 <= i < |coll| && mask[i] ==> 1 < |coll[i]|
    ensures r.Ok? ==> |r.value| == CountTrue(mask)
    ensures r.Ok? ==> forall j :: 0 <= j < |r.value| ==>
      var s := coll[Passing(mask)[j]];
      r.value[j] == f(s[1], s[0])
  {
    match (MaskedAt(coll, mask, 1), MaskedAt(coll, mask, 0))
    case (Ok(second), Ok(first)) =>
      Ok(seq(|second|, j requires 0 <= j < |second| && |first| == |second| => f(second[j], first[j])))
    case (Err(e), _) => Err(e)
    case (_, Err(e)) => Err(e)
  }

  /** `f(coll)` evaluated field by field: one value per object, same shape as `coll`. */
  function Project<T, V>(coll: seq<seq<T>>, f: T -> V): (r: seq<seq<V>>)
    ensures SameShape(r, coll)
    ensures forall i, j :: 0 <= i < |coll| && 0 <= j < |coll[i]| ==> r[i][j] == f(coll[i][j])
  {
    seq(|coll|, i requires 0 <= i < |coll| =>
      seq(|coll[i]|, j requires 0 <= j < |coll[i]| => f(coll[i][j])))
  }

  /** `a + b` on two ragged integer arrays; the array library refuses arrays of different shapes. */
  function RaggedAdd(a: seq<seq<int>>, b: seq<seq<int>>): (r: Result<seq<seq<int>>>)
    ensures r.Ok? <==> SameShape(a, b)
    ensures r.Err? ==> r.error == ShapeMismatch
    ensures r.Ok? ==> SameShape(r.value, a)
    ensures r.Ok? ==> forall i, j :: 0 <= i < |a| && 0 <= j < |a[i]| ==> r.value[i][j] == a[i][j] + b[i][j]
  {
    if !SameShape(a, b) then Err(ShapeMismatch)
    else Ok(seq(|a|, i requires 0 <= i < |a| && SameShape(a, b) =>
      seq(|a[i]|, j requires 0 <= j < |a[i]| => a[i][j] + b[i][j])))
  }

  // ---------------------------------------------------------------------
  // Facts about the shapes
  // ---------------------------------------------------------------------

  /**
   * The events that pass `ak.num(coll) > k` are exactly those with more than
   * k objects; an event with at most k objects contributes nothing.
   */
  lemma PassingNumAbove<T>(coll: seq<seq<T>>, k: nat)
    ensures forall i :: 0 <= i < |coll| ==> (i in Passing(NumAbove(coll, k)) <==> |coll[i]| > k)
    ensures forall j :: 0 <= j < CountTrue(NumAbove(coll, k)) ==> |coll[Passing(NumAbove(coll, k))[j]]| > k
  {
    var mask := NumAbove(coll, k);
    var p := Passing(mask);
    forall i | 0 <= i < |coll| ensures i in p <==> |coll[i]| > k {
      if i in p {
        var j :| 0 <= j < |p| && p[j] == i;
      }
    }
  }

  /**
   * Pairing index k with the mask `ak.num(coll) > m`, m >= k, makes
   * `coll[mask, k]` total: one value per passing event, the k-th object of
   * that event.
   */
  lemma MaskedAtInRange<T>(coll: seq<seq<T>>, m: nat, k: nat)
    requires k <= m
    ensures MaskedAt(coll, NumAbove(coll, m), k).Ok?
    ensures |MaskedAt(coll, NumAbove(coll, m), k).value| == CountTrue(NumAbove(coll, m))
  {
  }

  /**
   * Under the mask `ak.num(coll) > 1`, `coll[mask, :2]` takes exactly the
   * first two objects of each passing event, in order.
   */
  lemma FirstTwoUnderMask<T>(coll: seq<seq<T>>)
    ensures MaskedFirstTwo(coll, NumAbove(coll, 1)).Ok?
    ensures forall j :: 0 <= j < CountTrue(NumAbove(coll, 1)) ==>
      var s := coll[Passing(NumAbove(coll, 1))[j]];
      |s| >= 2 && MaskedFirstTwo(coll, NumAbove(coll, 1)).value[j] == [s[0], s[1]]
  {
    var mask := NumAbove(coll, 1);
    var r := MaskedFirstTwo(coll, mask);
    forall j | 0 <= j < CountTrue(mask)
      ensures var s := coll[Passing(mask)[j]]; |s| >= 2 && r.value[j] == [s[0], s[1]]
    {
      var s := coll[Passing(mask)[j]];
      assert |s| >= 2;
      assert s[..2] == [s[0], s[1]];
    }
  }

  /**
   * Two axes of one histogram that take indices 0 and 1 under the same mask
   * agree in length, and their j-th values come from the same event.
   */
  lemma MaskedAxesAligned<T, U>(coll: seq<seq<T>>, f: (T, T) -> U)
    ensures MaskedPair(coll, NumAbove(coll, 1), f).Ok?
    ensures MaskedAt(coll, NumAbove(coll, 1), 0).Ok?
    ensures |MaskedPair(coll, NumAbove(coll, 1), f).value| == |MaskedAt(coll, NumAbove(coll, 1), 0).value|
    ensures forall j :: 0 <= j < CountTrue(NumAbove(coll, 1)) ==>
      var s := coll[Passing(NumAbove(coll, 1))[j]];
      MaskedPair(coll, NumAbove(coll, 1), f).value[j] == f(s[1], s[0]) &&
      MaskedAt(coll, NumAbove(coll, 1), 0).value[j] == s[0]
  {
  }

  /** Two per-object axes over the same collection (eta and phi, say) have equal shapes. */
  lemma CoPlottedSameShape<T, U, V>(coll: seq<seq<T>>, f: T -> U, g: T -> V)
    ensures SameShape(Project(coll, f), Project(coll, g))
    ensures Num(Project(coll, f)) == Num(coll)
  {
  }

  /** The sum of two per-object integer fields is defined, of the collection's shape, and elementwise. */
  lemma FieldSumShape<T>(coll: seq<seq<T>>, f: T -> int, g: T -> int)
    ensures RaggedAdd(Project(coll, f), Project(coll, g)).Ok?
    ensures RaggedAdd(Project(coll, f), Project(coll, g)).value == Project(coll, x => f(x) + g(x))
  {
    var r := RaggedAdd(Project(coll, f), Project(coll, g));
    var q := Project(coll, x => f(x) + g(x));
    assert SameShape(r.value, q);
    forall i | 0 <= i < |coll| ensures r.value[i] == q[i] {
      assert |r.value[i]| == |q[i]|;
    }
  }

  lemma PassingLeadingMask()
    ensures Passing([false, true, true]) == [1, 2]
  {
    assert [false, true, true][..2] == [false, true];
    assert [false, true][..1] == [false];
    assert [false][..0] == [];
  }

  lemma PassingSubleadingMask()
    ensures Passing([false, false, true]) == [2]
  {
    assert [false, false, true][..2] == [false, false];
    assert [false, false][..1] == [false];
    assert [false][..0] == [];
  }

  lemma LeadingOfZeroOneTwo<T>(a: T, b: T, c: T)
    ensures MaskedAt([[], [a], [b, c]], NumAbove([[], [a], [b, c]], 0), 0) == Ok([a, b])
  {
    var coll: seq<seq<T>> := [[], [a], [b, c]];
    var m0 := NumAbove(coll, 0);
    assert m0 == [false, true, true] by {
      assert |m0| == 3 && !m0[0] && m0[1] && m0[2];
    }
    PassingLeadingMask();
    var r0 := MaskedAt(coll, m0, 0);
    assert r0.Ok? by {
      assert forall i :: 0 <= i < |coll| && m0[i] ==> 0 < |coll[i]|;
    }
    assert r0.value == [a, b] by {
      assert |r0.value| == 2;
      assert r0.value[0] == coll[1][0];
      assert r0.value[1] == coll[2][0];
    }
  }

  lemma SubleadingOfZeroOneTwo<T>(a: T, b: T, c: T)
    ensures MaskedAt([[], [a], [b, c]], NumAbove([[], [a], [b, c]], 1), 1) == Ok([c])
  {
    var coll: seq<seq<T>> := [[], [a], [b, c]];
    var m1 := NumAbove(coll, 1);
    assert m1 == [false, false, true] by {
      assert |m1| == 3 && !m1[0] && !m1[1] && m1[2];
    }
    PassingSubleadingMask();
    var r1 := MaskedAt(coll, m1, 1);
    assert r1.Ok? by {
      assert forall i :: 0 <= i < |coll| && m1[i] ==> 1 < |coll[i]|;
    }
    assert r1.value == [c] by {
      assert |r1.value| == 1;
      assert r1.value[0] == coll[2][1];
    }
  }

  /**
   * Three events with 0, 1 and 2 objects: index 1 under the weaker mask
   * `num > 0` raises, since the second event passes with only one object.
   */
  lemma UnguardedIndexOfZeroOneTwo<T>(a: T, b: T, c: T)
    ensures MaskedAt([[], [a], [b, c]], NumAbove([[], [a], [b, c]], 0), 1) == Err(IndexOutOfRange)
  {
    var coll: seq<seq<T>> := [[], [a], [b, c]];
    var m0 := NumAbove(coll, 0);
    assert m0[1] && !(1 < |coll[1]|);
  }
}
