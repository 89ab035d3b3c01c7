/** The result summary shown when the countdown expires
    (App.tsx, `getResultContent`). Only which of the four canned verdicts
    is chosen is modelled, not their wording. */
module Verdict {
  import opened Types

  datatype Verdict =
    | Stagnation            // nothing on either pan
    | IdealBalance          // forces and relations in step
    | RelationsObsolete     // forces have outgrown relations
    | RelationsOverEngineered  // the fall-through case

  /** Checked in order: both pans empty, then |diff| < 15, then diff > 15;
      everything else, diff = 15 included, falls to the last verdict. */
  function ResultOf(leftCount: nat, rightCount: nat, diff: int): (v: Verdict)
    ensures v == Stagnation <==> leftCount == 0 && rightCount == 0
    ensures v == IdealBalance <==> (leftCount > 0 || rightCount > 0) && -Threshold < diff < Threshold
    ensures v == RelationsObsolete <==> (leftCount > 0 || rightCount > 0) && diff > Threshold
    ensures v == RelationsOverEngineered <==>
              (leftCount > 0 || rightCount > 0) && (diff <= -Threshold || diff == Threshold)
  {
    if leftCount == 0 && rightCount == 0 then Stagnation
    else if Abs(diff) < Threshold then IdealBalance
    else if diff > Threshold then RelationsObsolete
    else RelationsOverEngineered
  }
}
