/** The simulator screen as a reducer (App.tsx): one state record, one
    event per user action or timer firing, and a pure step function. The
    conflict effect, which clears the phrase buffer whenever neither
    conflict flag is set, is applied at the end of every step that can
    move the pans. */
module Simulation {
  import opened Types
  import Pans
  import Narrator
  import Inactivity
  import Verdict
  import ScaleVisual

  datatype State = State(
    scale: Pans.Scale,
    conflict: seq<string>,       // recent conflict phrases, newest first
    timer: Inactivity.Timer,
    showResult: bool,            // the result popup
    showForcesInfo: bool,        // the LLSX information popup
    showRelationsInfo: bool)     // the QHSX information popup

  /** The screen as first mounted: empty pans, the countdown started. */
  const Init := State(Pans.Empty, [], Inactivity.Restarted, false, false, false)

  datatype Event =
    | Drop(item: Factor, side: Side, stamp: nat)  // stamp: the clock reading
    | Remove(id: string, side: Side)
    | Reset
    | Tick                                        // the one-second interval fires
    | NarrateTick(index: nat)                     // the 1.5-second interval fires
    | CloseResult
    | OpenInfo(topic: Category)
    | CloseInfo(topic: Category)

  /** The random draw of a narration tick lies inside the pool. */
  predicate ValidEvent(ev: Event) {
    ev.NarrateTick? ==> ev.index < Narrator.PoolSize
  }

  predicate UserAction(ev: Event) {
    ev.Drop? || ev.Remove? || ev.Reset? || ev.CloseResult? || ev.OpenInfo?
  }

  function Diff(s: State): int {
    Pans.Diff(s.scale)
  }

  /** The conflict effect: with neither flag set the buffer is emptied.
      DropStep, RemoveStep and SideSwitchKeepsBuffer state what it does to a
      step. */
  function Settle(s: State): State {
    if Narrator.InConflict(Diff(s)) then s else s.(conflict := [])
  }

  function Step(s: State, ev: Event): (r: State)
    requires ValidEvent(ev)
    ensures UserAction(ev) ==> r.timer == Inactivity.Restarted
    ensures ev.CloseInfo? ==> r.timer == s.timer
    ensures !(ev.Drop? || ev.Remove? || ev.Reset?) ==> r.scale == s.scale
    ensures ev.Tick? ==> r.conflict == s.conflict
    ensures ev.NarrateTick? && !Narrator.InConflict(Diff(s)) ==> r == s
  {
    match ev
    case Drop(item, side, stamp) =>
      Settle(s.(timer := Inactivity.Restarted, scale := Pans.Drop(s.scale, item, side, stamp)))
    case Remove(id, side) =>
      Settle(s.(timer := Inactivity.Restarted, scale := Pans.Remove(s.scale, id, side)))
    case Reset =>
      s.(scale := Pans.Empty, conflict := [], timer := Inactivity.Restarted)
    case Tick =>
      var (t, expired) := Inactivity.Tick(s.timer);
      s.(timer := t, showResult := s.showResult || expired)
    case NarrateTick(index) =>
      if Narrator.InConflict(Diff(s))
      then s.(conflict := Narrator.Narrate(s.conflict, Diff(s), index))
      else s
    case CloseResult =>
      s.(showResult := false, timer := Inactivity.Restarted)
    case OpenInfo(topic) =>
      if topic == LLSX then s.(timer := Inactivity.Restarted, showForcesInfo := true)
      else s.(timer := Inactivity.Restarted, showRelationsInfo := true)
    case CloseInfo(topic) =>
      if topic == LLSX then s.(showForcesInfo := false) else s.(showRelationsInfo := false)
  }

  predicate AllValid(evs: seq<Event>) {
    forall i :: 0 <= i < |evs| ==> ValidEvent(evs[i])
  }

  function Run(s: State, evs: seq<Event>): State
    requires AllValid(evs)
    decreases |evs|
  {
    if |evs| == 0 then s else Run(Step(s, evs[0]), evs[1..])
  }

  // ---------------------------------------------------------------------
  // Single steps

  /** A drop restarts the timer before the category gate: a refused drop
      changes nothing else, an accepted one appends one stamped copy to
      its pan, and the buffer is emptied iff neither flag is then set. */
  lemma DropStep(s: State, item: Factor, side: Side, stamp: nat)
    ensures var r := Step(s, Drop(item, side, stamp));
      && r.timer == Inactivity.Restarted
      && (!Pans.Accepts(side, item) ==> r.scale == s.scale)
      && (Pans.Accepts(side, item) ==>
            Pans.Pan(r.scale, side) == Pans.Pan(s.scale, side) + [Pans.Placed(item, stamp)])
      && Pans.Pan(r.scale, side.Other()) == Pans.Pan(s.scale, side.Other())
      && r.conflict == (if Narrator.InConflict(Diff(r)) then s.conflict else [])
      && r.showResult == s.showResult
  {
  }

  /** Removing deletes every copy carrying the id from the chosen pan only;
      an absent id changes no pan, though the timer still restarts. */
  lemma RemoveStep(s: State, id: string, side: Side)
    ensures var r := Step(s, Remove(id, side));
      && r.timer == Inactivity.Restarted
      && Pans.Pan(r.scale, side) == Pans.RemoveId(Pans.Pan(s.scale, side), id)
      && Pans.Pan(r.scale, side.Other()) == Pans.Pan(s.scale, side.Other())
      && (!Pans.HasId(Pans.Pan(s.scale, side), id) ==> r.scale == s.scale)
      && r.conflict == (if Narrator.InConflict(Diff(r)) then s.conflict else [])
  {
  }

  /** The reset button empties both pans and the buffer and restarts the
      timer; popups are left as they were. */
  lemma ResetStep(s: State)
    ensures var r := Step(s, Reset);
      && r.scale.left == [] && r.scale.right == [] && r.conflict == []
      && Diff(r) == 0
      && r.timer == Inactivity.Restarted
      && r.showResult == s.showResult
      && r.showForcesInfo == s.showForcesInfo && r.showRelationsInfo == s.showRelationsInfo
  {
  }

  /** Closing the result popup and opening an information popup restart
      the timer; closing an information popup leaves it alone. */
  lemma PopupSteps(s: State, topic: Category)
    ensures var r := Step(s, CloseResult); !r.showResult && r.timer == Inactivity.Restarted
    ensures var r := Step(s, OpenInfo(topic));
      r.timer == Inactivity.Restarted &&
      (if topic == LLSX then r.showForcesInfo else r.showRelationsInfo)
    ensures var r := Step(s, CloseInfo(topic));
      r.timer == s.timer &&
      (if topic == LLSX then !r.showForcesInfo else !r.showRelationsInfo)
  {
  }

  /** A narration tick while a flag is set prepends a phrase from the pool
      of the heavier side and keeps at most three older phrases. */
  lemma NarrateStep(s: State, index: nat)
    requires index < Narrator.PoolSize
    requires Narrator.InConflict(Diff(s))
    ensures var r := Step(s, NarrateTick(index));
      && 1 <= |r.conflict| <= Narrator.Capacity
      && (r.conflict[0] in Narrator.ForcesPool <==> Diff(s) > Threshold)
      && (r.conflict[0] in Narrator.RelationsPool <==> Diff(s) < -Threshold)
      && r.conflict[1..] == s.conflict[..Narrator.Min(|s.conflict|, Narrator.Capacity - 1)]
      && r.(conflict := s.conflict) == s
  {
  }

  /** Going straight from one side's conflict to the other's keeps the
      buffer: it is cleared only when both flags are down. */
  lemma SideSwitchKeepsBuffer(s: State, ev: Event)
    requires ev.Drop? || ev.Remove?
    requires || (Narrator.LeftConflict(Diff(s)) && Narrator.RightConflict(Diff(Step(s, ev))))
             || (Narrator.RightConflict(Diff(s)) && Narrator.LeftConflict(Diff(Step(s, ev))))
    ensures Step(s, ev).conflict == s.conflict
  {
  }

  // ---------------------------------------------------------------------
  // The countdown

  function Ticks(s: State, n: nat): State
    decreases n
  {
    if n == 0 then s else Ticks(Step(s, Tick), n - 1)
  }

  /** Timer firings touch only the timer and the result flag, which they
      can raise but never lower. */
  lemma {:induction false} TicksTouchTimerOnly(s: State, n: nat)
    ensures Ticks(s, n) == s.(timer := Inactivity.TickN(s.timer, n),
                              showResult := s.showResult || Inactivity.Expiries(s.timer, n) > 0)
    decreases n
  {
    if n > 0 {
      TicksTouchTimerOnly(Step(s, Tick), n - 1);
    }
  }

  /** The stretch made of countdown firings alone: after any user action
      and then no other event, the result popup appears on the twentieth
      firing, not before, and the countdown then halts at zero having
      expired exactly once. */
  lemma ResultAfterTwentyIdleSeconds(s: State, ev: Event, n: nat)
    requires ValidEvent(ev) && UserAction(ev)
    requires !s.showResult || ev.CloseResult?
    ensures var a := Step(s, ev);
      && (Ticks(a, n).showResult <==> n >= Inactivity.Start)
      && (n >= Inactivity.Start ==> Ticks(a, n).timer == Inactivity.Timer(0, false))
      && Inactivity.Expiries(a.timer, n) == (if n >= Inactivity.Start then 1 else 0)
  {
    var a := Step(s, ev);
    TicksTouchTimerOnly(a, n);
    Inactivity.ExpiresAfterStart(n);
  }

  /** How many countdown firings a sequence of events holds. */
  function CountTicks(evs: seq<Event>): nat
    decreases |evs|
  {
    if |evs| == 0 then 0 else (if evs[0].Tick? then 1 else 0) + CountTicks(evs[1..])
  }

  /** No user action among the events: only the two intervals firing and
      information popups closing, none of which restarts the countdown. */
  predicate Idle(evs: seq<Event>) {
    forall i :: 0 <= i < |evs| ==> !UserAction(evs[i])
  }

  /** Over an idle stretch, however narration firings and popup closes are
      interleaved, the countdown sees only its own firings: the timer is
      where that many firings take it, the result flag is raised iff one of
      them expires, and the pans do not move. */
  lemma {:induction false} IdleRun(s: State, evs: seq<Event>)
    requires AllValid(evs) && Idle(evs)
    ensures Run(s, evs).timer == Inactivity.TickN(s.timer, CountTicks(evs))
    ensures Run(s, evs).showResult == (s.showResult || Inactivity.Expiries(s.timer, CountTicks(evs)) > 0)
    ensures Run(s, evs).scale == s.scale
    decreases |evs|
  {
    if |evs| > 0 {
      assert !UserAction(evs[0]);
      assert AllValid(evs[1..]) && Idle(evs[1..]) by {
        forall i | 0 <= i < |evs[1..]|
          ensures ValidEvent(evs[1..][i]) && !UserAction(evs[1..][i])
        {
          assert evs[1..][i] == evs[i + 1];
        }
      }
      IdleRun(Step(s, evs[0]), evs[1..]);
    }
  }

  /** After any action taken with the result popup closed, or the action
      that closes it, followed by an idle stretch of any mix of countdown
      firings, narration firings and information popup closes, the result
      popup is up iff the stretch holds at least twenty countdown firings;
      then the clock rests stopped at zero, having expired exactly once,
      and the pans are as the action left them. */
  lemma ResultAfterTwentyIdleFirings(s: State, ev: Event, evs: seq<Event>)
    requires ValidEvent(ev) && UserAction(ev)
    requires !s.showResult || ev.CloseResult?
    requires AllValid(evs) && Idle(evs)
    ensures var a := Step(s, ev);
      var r := Run(a, evs);
      var n := CountTicks(evs);
      && (r.showResult <==> n >= Inactivity.Start)
      && (n >= Inactivity.Start ==> r.timer == Inactivity.Timer(0, false))
      && Inactivity.Expiries(a.timer, n) == (if n >= Inactivity.Start then 1 else 0)
      && r.scale == a.scale
  {
    var a := Step(s, ev);
    IdleRun(a, evs);
    Inactivity.ExpiresAfterStart(CountTicks(evs));
  }

  // ---------------------------------------------------------------------
  // Reachable states

  /** What holds of every state the screen can reach. */
  predicate Inv(s: State) {
    && |s.conflict| <= Narrator.Capacity
    && (!Narrator.InConflict(Diff(s)) ==> s.conflict == [])
    && (forall i :: 0 <= i < |s.conflict| ==>
          s.conflict[i] in Narrator.ForcesPool || s.conflict[i] in Narrator.RelationsPool)
    && 0 <= s.timer.remaining <= Inactivity.Start
    && (s.timer.running <==> s.timer.remaining > 0)
    && (!s.timer.running ==> s.showResult)
  }

  lemma InitInv()
    ensures Inv(Init)
  {
  }

  lemma StepInv(s: State, ev: Event)
    requires Inv(s) && ValidEvent(ev)
    ensures Inv(Step(s, ev))
  {
    if ev.NarrateTick? && Narrator.InConflict(Diff(s)) {
      var r := Step(s, ev);
      forall i | 0 <= i < |r.conflict|
        ensures r.conflict[i] in Narrator.ForcesPool || r.conflict[i] in Narrator.RelationsPool
      {
        if i > 0 {
          assert r.conflict[i] == s.conflict[i - 1];
        }
      }
    }
  }

  /** Every state reached from the mounted screen keeps the invariant: the
      buffer holds at most four pool phrases and is empty when calm, and
      the countdown is between 0 and 20, stopped only at 0 with the result
      popup up. */
  lemma {:induction false} RunInv(s: State, evs: seq<Event>)
    requires Inv(s) && AllValid(evs)
    ensures Inv(Run(s, evs))
    decreases |evs|
  {
    if |evs| > 0 {
      StepInv(s, evs[0]);
      RunInv(Step(s, evs[0]), evs[1..]);
    }
  }

  // ---------------------------------------------------------------------
  // Verdict and status label

  function ResultOf(s: State): Verdict.Verdict {
    Verdict.ResultOf(|s.scale.left|, |s.scale.right|, Diff(s))
  }

  /** With something on the scale and no pan summing below zero, the
      verdict and the status label tell the same story. */
  lemma VerdictMatchesStatus(s: State)
    requires |s.scale.left| + |s.scale.right| > 0
    requires Pans.Sum(s.scale.left) >= 0 && Pans.Sum(s.scale.right) >= 0
    ensures var st := ScaleVisual.StatusOf(ScaleVisual.VisualDiff(s.scale));
      && (ResultOf(s) == Verdict.IdealBalance <==> st == ScaleVisual.Optimal)
      && (ResultOf(s) == Verdict.RelationsObsolete <==> st == ScaleVisual.Lagging)
      && (ResultOf(s) == Verdict.RelationsOverEngineered <==> st == ScaleVisual.Formalistic)
  {
    ScaleVisual.VisualDiffAgrees(s.scale);
  }

  /** A drop that never passes the payload gate reaches no handler, so
      unlike a refused drop it does not restart the timer. */
  function Deliver(s: State, d: ScaleVisual.Delivery, stamp: nat): (r: State)
    ensures !d.Delivered? ==> r == s
    ensures d.Delivered? ==> r.timer == Inactivity.Restarted
  {
    match d
    case Delivered(item, side) => Step(s, Drop(item, side, stamp))
    case _ => s
  }
}
