/** Shared vocabulary of the balance-scale simulator: the two factor
    categories, the two pans, and the catalogue records. */
module Types {

  datatype Option<+T> = None | Some(value: T)

  /** The imbalance of 15 points that the conflict flags, the status label,
      the glow and the verdict all compare against. */
  const Threshold: int := 15

  function Abs(x: int): nat {
    if x < 0 then -x else x
  }

  /** LLSX: production forces (skills, tools, people).
      QHSX: production relations (pay, process, culture). */
  datatype Category = LLSX | QHSX

  /** The two pans of the scale. */
  datatype Side = Left | Right {
    function Other(): Side {
      match this
      case Left => Right
      case Right => Left
    }
  }

  /** The optional `type` tag a factor may carry; no catalogue entry sets it. */
  datatype Polarity = Positive | Negative

  /** A weighted factor. Catalogue entries and the copies placed on a pan
      share this shape; a placed copy differs only in its `id`. */
  datatype Factor = Factor(
    id: string,
    name: string,
    description: string,
    weight: int,
    category: Category,
    icon: string,
    tooltip: string,
    kind: Option<Polarity>)

  /** An informational fact shown beside the scale. */
  datatype Fact = Fact(id: int, content: string, source: string)
}
