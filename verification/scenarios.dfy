/** Concrete runs of the simulator with catalogue entries, pinning down the
    boundary behaviour at a difference of exactly 15. */
module Scenarios {
  import opened Types
  import Pans
  import Narrator
  import Verdict
  import ScaleVisual
  import Catalog
  import Simulation

  /** l-2 Senior Architect, weight 40. */
  const L2 := Catalog.ForcesFactors[1]
  /** l-5 Nhiệt huyết FPT, weight 15. */
  const L5 := Catalog.ForcesFactors[4]
  /** l-6 IELTS 7.5+, weight 20. */
  const L6 := Catalog.ForcesFactors[5]
  /** l-1 Intern Logic, weight 5. */
  const L1 := Catalog.ForcesFactors[0]
  /** q-2 Lương Senior USD, weight 45. */
  const Q2 := Catalog.RelationsFactors[1]
  /** q-3 Micro-management, weight -15. */
  const Q3 := Catalog.RelationsFactors[2]
  /** q-4 Quy trình Agile, weight 25. */
  const Q4 := Catalog.RelationsFactors[3]

  /** Nothing placed: stagnation, whatever else holds. */
  lemma EmptyScaleStagnates()
    ensures Simulation.ResultOf(Simulation.Init) == Verdict.Stagnation
  {
  }

  /** Only l-2 on the left: difference 40, lagging, obsolete, left conflict. */
  lemma SeniorArchitectAlone(stamp: nat)
    ensures var s := Simulation.Step(Simulation.Init, Simulation.Drop(L2, Left, stamp));
      && Simulation.Diff(s) == 40
      && Narrator.LeftConflict(Simulation.Diff(s))
      && ScaleVisual.StatusOf(ScaleVisual.VisualDiff(s.scale)) == ScaleVisual.Lagging
      && Simulation.ResultOf(s) == Verdict.RelationsObsolete
  {
  }

  /** l-6 left and q-4 right: difference -5, optimal and ideal. */
  lemma IeltsAgainstAgile(t1: nat, t2: nat)
    ensures var s := Simulation.Run(Simulation.Init,
                       [Simulation.Drop(L6, Left, t1), Simulation.Drop(Q4, Right, t2)]);
      && Simulation.Diff(s) == -5
      && ScaleVisual.StatusOf(ScaleVisual.VisualDiff(s.scale)) == ScaleVisual.Optimal
      && Simulation.ResultOf(s) == Verdict.IdealBalance
  {
    var s1 := Simulation.Step(Simulation.Init, Simulation.Drop(L6, Left, t1));
    assert s1.scale == Pans.Scale([Pans.Placed(L6, t1)], []);
    var s2 := Simulation.Step(s1, Simulation.Drop(Q4, Right, t2));
    assert s2.scale == Pans.Scale([Pans.Placed(L6, t1)], [Pans.Placed(Q4, t2)]);
    var evs := [Simulation.Drop(L6, Left, t1), Simulation.Drop(Q4, Right, t2)];
    assert Simulation.Run(Simulation.Init, evs) == Simulation.Run(s1, evs[1..]);
    assert Simulation.Run(s1, evs[1..]) == Simulation.Run(s2, evs[2..]);
    assert evs[2..] == [];
  }

  /** Only l-5 on the left: difference exactly 15. No conflict flag is set
      and the glow is green, yet the label is formalistic and the verdict
      is over-engineered. */
  lemma ExactlyFifteen(stamp: nat)
    ensures var s := Simulation.Step(Simulation.Init, Simulation.Drop(L5, Left, stamp));
      && Simulation.Diff(s) == 15
      && !Narrator.InConflict(Simulation.Diff(s))
      && s.conflict == []
      && ScaleVisual.GlowOf(ScaleVisual.VisualDiff(s.scale)) == ScaleVisual.Green
      && ScaleVisual.StatusOf(ScaleVisual.VisualDiff(s.scale)) == ScaleVisual.Formalistic
      && Simulation.ResultOf(s) == Verdict.RelationsOverEngineered
  {
  }

  /** Only q-3 on the right: the app sees a difference of 15, the floored
      component sees 0, so the label says optimal while the verdict says
      over-engineered. */
  lemma MicromanagementAlone(stamp: nat)
    ensures var s := Simulation.Step(Simulation.Init, Simulation.Drop(Q3, Right, stamp));
      && Simulation.Diff(s) == 15
      && ScaleVisual.VisualDiff(s.scale) == 0
      && ScaleVisual.StatusOf(ScaleVisual.VisualDiff(s.scale)) == ScaleVisual.Optimal
      && Simulation.ResultOf(s) == Verdict.RelationsOverEngineered
  {
  }

  /** A forces factor dropped on the right pan is refused, but the drop
      still restarts the countdown. */
  lemma WrongPanRefused(s: Simulation.State, stamp: nat)
    ensures var r := Simulation.Step(s, Simulation.Drop(L2, Right, stamp));
      r.scale == s.scale && r.timer.remaining == 20 && r.timer.running
  {
  }

  /** l-5 then l-1 on the left: difference 20, buffer still empty. */
  lemma TwoForcesLeft(t1: nat, t2: nat)
    ensures var s := Simulation.Run(Simulation.Init,
                       [Simulation.Drop(L5, Left, t1), Simulation.Drop(L1, Left, t2)]);
      && s.scale == Pans.Scale([Pans.Placed(L5, t1), Pans.Placed(L1, t2)], [])
      && Simulation.Diff(s) == 20
      && s.conflict == []
  {
    var evs := [Simulation.Drop(L5, Left, t1), Simulation.Drop(L1, Left, t2)];
    var s1 := Simulation.Step(Simulation.Init, evs[0]);
    assert s1.scale == Pans.Scale([Pans.Placed(L5, t1)], []);
    var s2 := Simulation.Step(s1, evs[1]);
    var left := [Pans.Placed(L5, t1), Pans.Placed(L1, t2)];
    assert s2.scale.left == [Pans.Placed(L5, t1)] + [Pans.Placed(L1, t2)] == left;
    assert Pans.Sum(left) == 20;
    assert Simulation.Run(Simulation.Init, evs) == Simulation.Run(s1, evs[1..]);
    assert Simulation.Run(s1, evs[1..]) == Simulation.Run(s2, evs[2..]);
    assert evs[2..] == [];
  }

  /** From a left conflict of 20 with an empty buffer: two narration
      firings buffer two forces phrases, then q-2 on the right swings the
      difference to -25 and the buffer survives. */
  lemma SwitchFromTwenty(s: Simulation.State, t3: nat)
    requires s.scale.right == [] && Simulation.Diff(s) == 20 && s.conflict == []
    ensures var n := Simulation.Step(Simulation.Step(s, Simulation.NarrateTick(0)), Simulation.NarrateTick(3));
      var r := Simulation.Step(n, Simulation.Drop(Q2, Right, t3));
      && n.conflict == [Narrator.ForcesPool[3], Narrator.ForcesPool[0]]
      && Simulation.Diff(r) == -25
      && r.conflict == n.conflict
  {
    assert Narrator.PoolFor(20) == Narrator.ForcesPool;
    var s3 := Simulation.Step(s, Simulation.NarrateTick(0));
    assert s3 == s.(conflict := Narrator.Narrate([], 20, 0));
    assert s3.conflict == [Narrator.ForcesPool[0]];
    var n := Simulation.Step(s3, Simulation.NarrateTick(3));
    assert n == s3.(conflict := Narrator.Narrate(s3.conflict, 20, 3));
    assert n.conflict == [Narrator.ForcesPool[3], Narrator.ForcesPool[0]];
    Pans.DropShiftsDiff(n.scale, Q2, Right, t3);
    var r := Simulation.Step(n, Simulation.Drop(Q2, Right, t3));
    assert Simulation.Diff(r) == -25;
  }

  /** l-5 and l-1 on the left (difference 20) with two phrases buffered;
      q-2 on the right swings the difference to -25 and the buffer survives. */
  lemma DirectSwitchKeepsPhrases(t1: nat, t2: nat, t3: nat)
    ensures var s := Simulation.Run(Simulation.Init,
                       [Simulation.Drop(L5, Left, t1), Simulation.Drop(L1, Left, t2)]);
      var n := Simulation.Step(Simulation.Step(s, Simulation.NarrateTick(0)), Simulation.NarrateTick(3));
      var r := Simulation.Step(n, Simulation.Drop(Q2, Right, t3));
      && n.conflict == [Narrator.ForcesPool[3], Narrator.ForcesPool[0]]
      && Simulation.Diff(r) == -25
      && r.conflict == n.conflict
  {
    var s := Simulation.Run(Simulation.Init,
               [Simulation.Drop(L5, Left, t1), Simulation.Drop(L1, Left, t2)]);
    TwoForcesLeft(t1, t2);
    assert s.scale.right == [] && Simulation.Diff(s) == 20 && s.conflict == [];
    SwitchFromTwenty(s, t3);
  }
}
