/** The two pans of the scale: their weight sums, the signed difference,
    the category gate on a drop, and removal of placed copies by id
    (App.tsx). */
module Pans {
  import opened Types
  import Decimal

  /** Left and right pans, each in placement order (newest last). */
  datatype Scale = Scale(left: seq<Factor>, right: seq<Factor>)

  const Empty := Scale([], [])

  function Pan(sc: Scale, side: Side): seq<Factor> {
    match side
    case Left => sc.left
    case Right => sc.right
  }

  function WithPan(sc: Scale, side: Side, pan: seq<Factor>): (r: Scale)
    ensures Pan(r, side) == pan
    ensures Pan(r, side.Other()) == Pan(sc, side.Other())
  {
    match side
    case Left => sc.(left := pan)
    case Right => sc.(right := pan)
  }

  // ---------------------------------------------------------------------
  // Weights

  /** Sum of weights, folded from the left with seed 0 as `reduce` does. */
  function Sum(s: seq<Factor>): int {
    if |s| == 0 then 0 else Sum(s[..|s| - 1]) + s[|s| - 1].weight
  }

  /** The `reduce` loop itself; it agrees with Sum on every pan. */
  method ReduceWeights(s: seq<Factor>) returns (total: int)
    ensures total == Sum(s)
  {
    total := 0;
    var i := 0;
    while i < |s|
      invariant 0 <= i <= |s|
      invariant total == Sum(s[..i])
    {
      assert s[..i + 1][..i] == s[..i];
      total := total + s[i].weight;
      i := i + 1;
    }
    assert s[..|s|] == s;
  }

  /** The sum of a concatenation is the sum of the parts. */
  lemma {:induction false} SumAppend(a: seq<Factor>, b: seq<Factor>)
    ensures Sum(a + b) == Sum(a) + Sum(b)
  {
    if |b| > 0 {
      var b' := b[..|b| - 1];
      assert (a + b)[..|a + b| - 1] == a + b';
      SumAppend(a, b');
    } else {
      assert a + b == a;
    }
  }

  /** Left weight minus right weight, from the raw (possibly negative) sums. */
  function Diff(sc: Scale): int {
    Sum(sc.left) - Sum(sc.right)
  }

  // ---------------------------------------------------------------------
  // Drop

  /** The category a pan accepts: forces on the left, relations on the right. */
  function Expected(side: Side): Category {
    match side
    case Left => LLSX
    case Right => QHSX
  }

  predicate Accepts(side: Side, item: Factor) {
    item.category == Expected(side)
  }

  /** Instance id of a placed copy: catalogue id, a dash, the clock value. */
  function InstanceId(catalogId: string, stamp: nat): string {
    catalogId + "-" + Decimal.Show(stamp)
  }

  /** Copies stamped at different instants of the same catalogue entry get
      different ids; copies stamped at the same instant collide. */
  lemma InstanceIdInjective(catalogId: string, a: nat, b: nat)
    ensures InstanceId(catalogId, a) == InstanceId(catalogId, b) <==> a == b
  {
    var p := catalogId + "-";
    if InstanceId(catalogId, a) == InstanceId(catalogId, b) {
      assert Decimal.Show(a) == InstanceId(catalogId, a)[|p|..];
      assert Decimal.Show(b) == InstanceId(catalogId, b)[|p|..];
      Decimal.ShowInjective(a, b);
    }
  }

  /** The copy placed on a pan: every field kept except the fresh id. */
  function Placed(item: Factor, stamp: nat): (r: Factor)
    ensures r.id == InstanceId(item.id, stamp)
    ensures r.(id := item.id) == item
  {
    item.(id := InstanceId(item.id, stamp))
  }

  /** A drop onto `side`: silently ignored unless the category matches;
      otherwise one stamped copy is appended to that pan. */
  function Drop(sc: Scale, item: Factor, side: Side, stamp: nat): (r: Scale)
    ensures !Accepts(side, item) ==> r == sc
    ensures Accepts(side, item) ==> Pan(r, side) == Pan(sc, side) + [Placed(item, stamp)]
    ensures Pan(r, side.Other()) == Pan(sc, side.Other())
  {
    if !Accepts(side, item) then sc
    else WithPan(sc, side, Pan(sc, side) + [Placed(item, stamp)])
  }

  /** An accepted drop moves the difference by the item's weight, towards
      the side it landed on; a rejected one does not move it. */
  lemma DropShiftsDiff(sc: Scale, item: Factor, side: Side, stamp: nat)
    ensures Diff(Drop(sc, item, side, stamp)) ==
      if !Accepts(side, item) then Diff(sc)
      else if side == Left then Diff(sc) + item.weight
      else Diff(sc) - item.weight
  {
    if Accepts(side, item) {
      var pan := Pan(sc, side) + [Placed(item, stamp)];
      assert pan[..|pan| - 1] == Pan(sc, side);
    }
  }

  // ---------------------------------------------------------------------
  // Remove

  predicate HasId(s: seq<Factor>, id: string) {
    exists i :: 0 <= i < |s| && s[i].id == id
  }

  /** Keeps, in order, exactly the elements whose id differs from `id`. */
  function RemoveId(s: seq<Factor>, id: string): (r: seq<Factor>)
    ensures forall x :: x in r <==> x in s && x.id != id
    ensures !HasId(r, id)
    ensures |r| <= |s|
    ensures !HasId(s, id) ==> r == s
  {
    if |s| == 0 then []
    else
      var rest := RemoveId(s[1..], id);
      assert forall x :: x in s <==> x == s[0] || x in s[1..];
      if s[0].id == id then rest else [s[0]] + rest
  }

  /** Removal distributes over concatenation, so relative order of the
      survivors is kept. */
  lemma {:induction false} RemoveIdAppend(a: seq<Factor>, b: seq<Factor>, id: string)
    ensures RemoveId(a + b, id) == RemoveId(a, id) + RemoveId(b, id)
  {
    if |a| > 0 {
      assert (a + b)[1..] == a[1..] + b;
      RemoveIdAppend(a[1..], b, id);
    } else {
      assert a + b == b;
    }
  }

  /** Removal from the chosen pan; the other pan is untouched. */
  function Remove(sc: Scale, id: string, side: Side): (r: Scale)
    ensures Pan(r, side) == RemoveId(Pan(sc, side), id)
    ensures Pan(r, side.Other()) == Pan(sc, side.Other())
    ensures !HasId(Pan(sc, side), id) ==> r == sc
  {
    WithPan(sc, side, RemoveId(Pan(sc, side), id))
  }

  /** Two accepted drops of one entry within the same millisecond produce
      two copies with one id; a single remove then takes both away. */
  lemma SameStampCollision(sc: Scale, item: Factor, side: Side, stamp: nat)
    requires Accepts(side, item)
    requires !HasId(Pan(sc, side), InstanceId(item.id, stamp))
    ensures Remove(Drop(Drop(sc, item, side, stamp), item, side, stamp),
                   InstanceId(item.id, stamp), side) == sc
  {
    var id := InstanceId(item.id, stamp);
    var p := Placed(item, stamp);
    var pan := Pan(sc, side);
    RemoveIdAppend(pan, [p, p], id);
    assert pan + [p] + [p] == pan + [p, p];
    assert RemoveId([p, p], id) == [];
  }
}
