/** The inactivity countdown (App.tsx, `resetInactivityTimer`). Each
    firing of the one-second interval is an explicit tick; `running` says
    whether the interval is still scheduled, since it is cleared on expiry. */
module Inactivity {

  /** Seconds on the clock after every restart. */
  const Start: nat := 20

  datatype Timer = Timer(remaining: int, running: bool)

  /** What every recognised user action does to the timer. */
  const Restarted := Timer(Start, true)

  /** One firing of the interval. The boolean is true when this firing
      raises the result popup. A cleared interval never fires. */
  function Tick(t: Timer): (r: (Timer, bool))
    ensures !t.running ==> r == (t, false)
    ensures t.running ==> (r.1 <==> t.remaining <= 1)
    ensures r.1 ==> r.0 == Timer(0, false)
    ensures t.running && !r.1 ==> r.0 == Timer(t.remaining - 1, true)
    ensures 0 <= t.remaining ==> 0 <= r.0.remaining <= t.remaining
  {
    if !t.running then (t, false)
    else if t.remaining <= 1 then (Timer(0, false), true)
    else (Timer(t.remaining - 1, true), false)
  }

  /** The timer after `n` firings. */
  function TickN(t: Timer, n: nat): Timer
    decreases n
  {
    if n == 0 then t else TickN(Tick(t).0, n - 1)
  }

  /** How many of `n` firings raise the result popup. */
  function Expiries(t: Timer, n: nat): nat
    decreases n
  {
    if n == 0 then 0 else (if Tick(t).1 then 1 else 0) + Expiries(Tick(t).0, n - 1)
  }

  /** A stopped timer stays stopped and never raises the popup. */
  lemma {:induction false} StoppedStaysStopped(t: Timer, n: nat)
    requires !t.running
    ensures TickN(t, n) == t
    ensures Expiries(t, n) == 0
  {
    if n > 0 {
      StoppedStaysStopped(t, n - 1);
    }
  }

  /** From `k` seconds left, the clock counts down one per firing, expires on
      firing `k` exactly, and then stays at zero without firing again. */
  lemma {:induction false} CountdownFrom(k: nat, n: nat)
    requires k >= 1
    ensures n < k ==> TickN(Timer(k, true), n) == Timer(k - n, true)
    ensures n < k ==> Expiries(Timer(k, true), n) == 0
    ensures n >= k ==> TickN(Timer(k, true), n) == Timer(0, false)
    ensures n >= k ==> Expiries(Timer(k, true), n) == 1
  {
    if n > 0 {
      if k == 1 {
        StoppedStaysStopped(Timer(0, false), n - 1);
      } else {
        CountdownFrom(k - 1, n - 1);
      }
    }
  }

  /** After a restart with no further action, the popup is raised by the
      twentieth firing and by none before it, and only once. */
  lemma ExpiresAfterStart(n: nat)
    ensures n < Start ==> TickN(Restarted, n) == Timer(Start - n, true) && Expiries(Restarted, n) == 0
    ensures n >= Start ==> TickN(Restarted, n) == Timer(0, false) && Expiries(Restarted, n) == 1
  {
    CountdownFrom(Start, n);
  }
}
