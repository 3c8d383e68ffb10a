/** The three buttons of a review card and their SM-2 quality grades. */
module ReviewRatings {

  datatype ReviewRating = Hard | Normal | Easy

  /** A grade below this is a failed review in SM-2. */
  const PassQuality: int := 3

  /** SM-2 quality (0...5). Only `Hard` is a failing grade. */
  function Quality(r: ReviewRating): (q: int)
    ensures 0 <= q <= 5
    ensures q < PassQuality <==> r == Hard
  {
    match r
    case Hard => 2
    case Normal => 4
    case Easy => 5
  }

  /** The grades follow the order of the buttons. */
  lemma QualityIsStrictlyIncreasing()
    ensures Quality(Hard) == 2 && Quality(Normal) == 4 && Quality(Easy) == 5
    ensures Quality(Hard) < Quality(Normal) < Quality(Easy)
  {
  }
}
