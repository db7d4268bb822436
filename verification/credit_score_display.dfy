/** The banding of a decrypted credit score into a rating and a colour
    (`getScoreRating` and `getScoreColor` of the credit-score panel).
    The score arrives as a string and is read with `parseInt`; here the
    parsed value is given, `None` standing for NaN. */
module CreditScoreDisplay {
  import opened Common

  /** Lower bound of the "Good" band. */
  const GoodThreshold: int := 650
  /** Lower bound of the "Excellent" band. */
  const ExcellentThreshold: int := 750

  datatype Rating = Excellent | Good | NeedsImprovement
  {
    /** The label shown for the rating. */
    function Text(): string
    {
      match this
      case Excellent => "Excellent"
      case Good => "Good"
      case NeedsImprovement => "Needs Improvement"
    }

    /** The text colour paired with the label. */
    function TextColor(): string
    {
      match this
      case Excellent => "text-emerald-400"
      case Good => "text-yellow-400"
      case NeedsImprovement => "text-red-400"
    }

    /** The gauge gradient that belongs to the rating's band. */
    function Gradient(): string
    {
      match this
      case Excellent => "from-emerald-500 to-green-500"
      case Good => "from-yellow-500 to-orange-500"
      case NeedsImprovement => "from-red-500 to-rose-500"
    }

    /** Position of the rating in the order NeedsImprovement < Good < Excellent. */
    function Rank(): nat
    {
      match this
      case Excellent => 2
      case Good => 1
      case NeedsImprovement => 0
    }
  }

  /** `getScoreRating`: Excellent from 750 up, Good from 650 to 749, and
      Needs Improvement below 650 or when the score is not a number. */
  function GetScoreRating(score: Option<int>): (r: Rating)
    ensures r == Excellent <==> score.Some? && score.value >= ExcellentThreshold
    ensures r == Good <==> score.Some? && GoodThreshold <= score.value < ExcellentThreshold
    ensures r == NeedsImprovement <==> score.None? || score.value < GoodThreshold
  {
    if score.Some? && score.value >= 750 then Excellent
    else if score.Some? && score.value >= 650 then Good
    else NeedsImprovement
  }

  /** `getScoreColor`: a separate threshold chain that always lands on the
      gradient of the rating `GetScoreRating` gives the same score. */
  function GetScoreColor(score: Option<int>): (c: string)
    ensures c == GetScoreRating(score).Gradient()
  {
    if score.Some? && score.value >= 750 then "from-emerald-500 to-green-500"
    else if score.Some? && score.value >= 650 then "from-yellow-500 to-orange-500"
    else "from-red-500 to-rose-500"
  }

  /** A higher score never gets a lower rating. */
  lemma RatingMonotone(a: int, b: int)
    requires a <= b
    ensures GetScoreRating(Some(a)).Rank() <= GetScoreRating(Some(b)).Rank()
  {
  }

  /** Distinct ratings show distinct gradients, so the colour alone tells the band. */
  lemma GradientIdentifiesRating(x: Rating, y: Rating)
    ensures x.Gradient() == y.Gradient() <==> x == y
  {
  }
}
