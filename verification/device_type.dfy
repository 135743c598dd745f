/** The viewport-width classification of the `useDeviceType` hook. */
module ViewportClass {

  datatype ViewportClass = Mobile | Tablet | Desktop

  /** The class reported before the first measurement. */
  const Initial: ViewportClass := Desktop

  /** The rank of a class from narrow to wide. */
  function Rank(c: ViewportClass): nat {
    match c
    case Mobile => 0
    case Tablet => 1
    case Desktop => 2
  }

  /** `handleResize`: below 768 pixels mobile, up to and including 1024 tablet, wider desktop. */
  function Classify(width: int): (c: ViewportClass)
    ensures c == Mobile <==> width < 768
    ensures c == Tablet <==> 768 <= width <= 1024
    ensures c == Desktop <==> width > 1024
  {
    if width < 768 then Mobile
    else if width >= 768 && width <= 1024 then Tablet
    else Desktop
  }

  /** A wider viewport never gets a narrower class. */
  lemma ClassifyMonotone(w1: int, w2: int)
    requires w1 <= w2
    ensures Rank(Classify(w1)) <= Rank(Classify(w2))
  {
  }

  /** Both tablet boundaries are inclusive. */
  lemma TabletBoundaries()
    ensures Classify(767) == Mobile && Classify(768) == Tablet
    ensures Classify(1024) == Tablet && Classify(1025) == Desktop
    ensures Initial == Desktop
  {
  }
}
