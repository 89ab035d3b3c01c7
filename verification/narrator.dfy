/** The conflict narrator: the two conflict flags derived from the raw
    difference, the side-specific phrase pools, and the bounded buffer of
    recent phrases, newest first (App.tsx). */
module Narrator {
  import opened Types

  /** Most phrases the buffer holds: the new one plus three older ones. */
  const Capacity: nat := 4

  /** Forces outweigh relations by more than the threshold (strictly). */
  predicate LeftConflict(diff: int) {
    diff > Threshold
  }

  /** Relations outweigh forces. */
  predicate RightConflict(diff: int) {
    diff < -Threshold
  }

  predicate InConflict(diff: int) {
    LeftConflict(diff) || RightConflict(diff)
  }

  /** Neither flag is set exactly on the closed band [-15, 15]; both are
      never set at once. */
  lemma CalmBand(diff: int)
    ensures !InConflict(diff) <==> -Threshold <= diff <= Threshold
    ensures !(LeftConflict(diff) && RightConflict(diff))
  {
  }

  /** Phrases shown while forces outweigh relations. */
  const ForcesPool: seq<string> :=
    ["Chảy máu chất xám!", "Nhảy việc!", "Hệ thống lạc hậu!", "Bất mãn!"]

  /** Phrases shown otherwise (relations outweigh forces). */
  const RelationsPool: seq<string> :=
    ["Lãng phí!", "Cồng kềnh!", "Ảo tưởng!", "Bệnh hình thức!"]

  /** Both pools hold four phrases, so one index range serves both. */
  const PoolSize: nat := 4

  /** The pool a tick draws from: the forces pool iff the left flag is set. */
  function PoolFor(diff: int): (pool: seq<string>)
    ensures |pool| == PoolSize
    ensures pool == ForcesPool <==> LeftConflict(diff)
    ensures pool == RelationsPool <==> !LeftConflict(diff)
  {
    assert ForcesPool[0] != RelationsPool[0];
    if LeftConflict(diff) then ForcesPool else RelationsPool
  }

  /** Prepends `phrase` and keeps at most three of the older entries. */
  function Push(buffer: seq<string>, phrase: string): (r: seq<string>)
    ensures |r| == if |buffer| < Capacity then |buffer| + 1 else Capacity
    ensures r[0] == phrase
    ensures forall i :: 1 <= i < |r| ==> r[i] == buffer[i - 1]
  {
    [phrase] + (if |buffer| <= 3 then buffer else buffer[..3])
  }

  /** One firing of the narration interval; `index` stands for the random
      draw. The new head comes from the forces pool exactly when the left
      flag is set, and at most three older phrases follow it in order. */
  function Narrate(buffer: seq<string>, diff: int, index: nat): (r: seq<string>)
    requires index < PoolSize
    ensures 1 <= |r| <= Capacity
    ensures r[0] in ForcesPool <==> LeftConflict(diff)
    ensures r[0] in RelationsPool <==> !LeftConflict(diff)
    ensures r[1..] == buffer[..Min(|buffer|, Capacity - 1)]
  {
    PoolsDisjoint();
    Push(buffer, PoolFor(diff)[index])
  }

  /** No phrase belongs to both pools. */
  lemma PoolsDisjoint()
    ensures forall p :: p in ForcesPool ==> p !in RelationsPool
  {
  }

  /** Newest-first view of a phrase list. */
  function Reverse(s: seq<string>): (r: seq<string>)
    ensures |r| == |s|
    ensures forall i :: 0 <= i < |s| ==> r[i] == s[|s| - 1 - i]
  {
    if |s| == 0 then [] else Reverse(s[1..]) + [s[0]]
  }

  /** Pushes the phrases of `ps` one after another, oldest first. */
  function PushAll(buffer: seq<string>, ps: seq<string>): seq<string>
    decreases |ps|
  {
    if |ps| == 0 then buffer else PushAll(Push(buffer, ps[0]), ps[1..])
  }

  function Min(a: int, b: int): int {
    if a <= b then a else b
  }

  /** The buffer is a sliding window: after any run of pushes it holds the
      newest phrases first, followed by the old buffer, cut to four. */
  lemma {:induction false} PushAllWindow(buffer: seq<string>, ps: seq<string>)
    requires |buffer| <= Capacity
    ensures PushAll(buffer, ps) == (Reverse(ps) + buffer)[..Min(|ps| + |buffer|, Capacity)]
    decreases |ps|
  {
    if |ps| > 0 {
      var b' := Push(buffer, ps[0]);
      PushAllWindow(b', ps[1..]);
      var lhs := (Reverse(ps[1..]) + b')[..Min(|ps| - 1 + |b'|, Capacity)];
      var rhs := (Reverse(ps) + buffer)[..Min(|ps| + |buffer|, Capacity)];
      assert |lhs| == |rhs|;
      forall i | 0 <= i < |lhs|
        ensures lhs[i] == rhs[i]
      {
        if i < |ps| - 1 {
          assert lhs[i] == ps[|ps| - 1 - i];
        } else if i == |ps| - 1 {
          assert lhs[i] == ps[0];
        } else {
          assert lhs[i] == b'[i - (|ps| - 1)] == buffer[i - |ps|];
        }
      }
    }
  }
}
