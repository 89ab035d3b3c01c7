/** What the scale component derives from the two pans
    (components/ScaleVisual.tsx): pan weights floored at zero, its own
    difference, the beam rotation, the status label, the glow colour, and
    the gate on the drag payload. */
module ScaleVisual {
  import opened Types
  import Pans

  /** A pan's weight as displayed: its raw sum, floored at zero. */
  function Displayed(pan: seq<Factor>): (w: int)
    ensures w >= 0
    ensures w >= Pans.Sum(pan)
    ensures w == Pans.Sum(pan) || w == 0
  {
    if Pans.Sum(pan) < 0 then 0 else Pans.Sum(pan)
  }

  /** The component's difference, from the floored weights. */
  function VisualDiff(sc: Pans.Scale): int {
    Displayed(sc.left) - Displayed(sc.right)
  }

  /** With no pan summing below zero the component and the app agree. */
  lemma VisualDiffAgrees(sc: Pans.Scale)
    requires Pans.Sum(sc.left) >= 0 && Pans.Sum(sc.right) >= 0
    ensures VisualDiff(sc) == Pans.Diff(sc)
  {
  }

  /** Largest tilt of the beam, in degrees. */
  const MaxTilt: real := 25.0

  /** Degrees of tilt per point of difference. */
  const TiltPerPoint: real := 0.4

  function Clamp(x: real): (r: real)
    ensures -MaxTilt <= r <= MaxTilt
    ensures -MaxTilt <= x <= MaxTilt ==> r == x
    ensures x > MaxTilt ==> r == MaxTilt
    ensures x < -MaxTilt ==> r == -MaxTilt
  {
    if x > MaxTilt then MaxTilt else if x < -MaxTilt then -MaxTilt else x
  }

  /** Beam rotation for a difference: proportional, clamped to ±25. */
  function Rotation(diff: int): (r: real)
    ensures -25.0 <= r <= 25.0
    ensures diff > 0 ==> r > 0.0
    ensures diff < 0 ==> r < 0.0
    ensures diff == 0 ==> r == 0.0
    ensures -62 <= diff <= 62 ==> r == diff as real * 0.4
  {
    Clamp(diff as real * TiltPerPoint)
  }

  /** More difference never tilts the beam less. */
  lemma RotationMonotone(d1: int, d2: int)
    requires d1 <= d2
    ensures Rotation(d1) <= Rotation(d2)
  {
  }

  /** The clamp is reached exactly from a difference of 63 on. */
  lemma RotationSaturates(diff: int)
    ensures Rotation(diff) == 25.0 <==> diff >= 63
    ensures Rotation(diff) == -25.0 <==> diff <= -63
  {
  }

  /** Extra vertical shift, in pixels, of a pan for a beam rotation; screen
      y grows downwards. The left pan moves by -2·rotation and the right pan
      by 2·rotation, so for a non-zero rotation exactly one pan moves down. */
  function PanShift(side: Side, rotation: real): (y: real)
    ensures side == Left ==> (y > 0.0 <==> rotation < 0.0)
    ensures side == Right ==> (y > 0.0 <==> rotation > 0.0)
    ensures y == 0.0 <==> rotation == 0.0
  {
    match side
    case Left => -rotation * 2.0
    case Right => rotation * 2.0
  }

  /** The rotation as written turns positive when the left pan is heavier,
      which moves the left pan up and the right pan down: the heavier pan is
      drawn higher. The comment beside the formula promises the opposite
      (a heavier left pan gives a negative rotation and goes down). A
      difference of 40 gives +16 degrees. */
  lemma HeavierPanDrawnHigher(diff: int)
    ensures diff > 0 ==>
      Rotation(diff) > 0.0 && PanShift(Left, Rotation(diff)) < 0.0 && PanShift(Right, Rotation(diff)) > 0.0
    ensures diff < 0 ==>
      Rotation(diff) < 0.0 && PanShift(Right, Rotation(diff)) < 0.0 && PanShift(Left, Rotation(diff)) > 0.0
    ensures Rotation(40) == 16.0
  {
  }

  /** The rotation the comment describes: the same proportional, clamped
      tilt with the sign turned round, negative when the left pan is heavier. */
  function RotationAsCommented(diff: int): (r: real)
    ensures -MaxTilt <= r <= MaxTilt
    ensures diff > 0 ==> r < 0.0
    ensures diff < 0 ==> r > 0.0
    ensures r == -Rotation(diff)
  {
    Clamp(-(diff as real) * TiltPerPoint)
  }

  /** With the commented rotation the heavier pan is the one that moves down. */
  lemma HeavierPanDrawnLowerAsCommented(diff: int)
    ensures diff > 0 ==>
      PanShift(Left, RotationAsCommented(diff)) > 0.0 && PanShift(Right, RotationAsCommented(diff)) < 0.0
    ensures diff < 0 ==>
      PanShift(Right, RotationAsCommented(diff)) > 0.0 && PanShift(Left, RotationAsCommented(diff)) < 0.0
    ensures RotationAsCommented(40) == -16.0
  {
  }

  datatype Status = Optimal | Lagging | Formalistic

  /** The status label: optimal inside (-15, 15), lagging above 15, and
      formalistic for everything else, so both 15 and -15 read formalistic. */
  function StatusOf(diff: int): (s: Status)
    ensures s == Optimal <==> -Threshold < diff < Threshold
    ensures s == Lagging <==> diff > Threshold
    ensures s == Formalistic <==> diff <= -Threshold || diff == Threshold
  {
    if Abs(diff) < Threshold then Optimal
    else if diff > Threshold then Lagging
    else Formalistic
  }

  datatype Glow = Red | Yellow | Green

  /** The background glow, chosen from strict comparisons on both sides. */
  function GlowOf(diff: int): (g: Glow)
    ensures g == Red <==> diff > Threshold
    ensures g == Yellow <==> diff < -Threshold
    ensures g == Green <==> -Threshold <= diff <= Threshold
  {
    if diff > Threshold then Red else if diff < -Threshold then Yellow else Green
  }

  /** The colour each label is drawn in. */
  function LabelColour(s: Status): Glow {
    match s
    case Optimal => Green
    case Lagging => Red
    case Formalistic => Yellow
  }

  /** Glow and label disagree exactly at a difference of ±15. */
  lemma GlowLabelMismatch(diff: int)
    ensures GlowOf(diff) != LabelColour(StatusOf(diff)) <==> diff == Threshold || diff == -Threshold
    ensures diff == Threshold ==> GlowOf(diff) == Green && StatusOf(diff) == Formalistic
    ensures diff == -Threshold ==> GlowOf(diff) == Green && StatusOf(diff) == Formalistic
  {
  }

  /** What a drop on a pan does with the drag payload. */
  datatype Delivery =
    | Ignored                            // no payload: the callback is not reached
    | Delivered(item: Factor, side: Side) // handed to the app's drop handler
    | ParseFailure                        // a non-empty payload that does not decode

  /** The payload gate. `decode` stands for the JSON decoder, which throws
      on malformed input; the throw is the ParseFailure outcome. */
  function HandleDrop(data: string, decode: string -> Option<Factor>, side: Side): (d: Delivery)
    ensures data == "" <==> d == Ignored
    ensures d.Delivered? <==> data != "" && decode(data).Some?
    ensures d.Delivered? ==> Some(d.item) == decode(data) && d.side == side
  {
    if data == "" then Ignored
    else match decode(data)
      case None => ParseFailure
      case Some(item) => Delivered(item, side)
  }
}
