/** The risk levels the approval and origin viewers attach to an entry. */
module Risk {
  datatype Level = Low | Medium | High

  /** The level's name as the viewers label it. */
  function Label(level: Level): (r: string)
    ensures level == Low <==> r == "low"
    ensures level == Medium <==> r == "medium"
    ensures level == High <==> r == "high"
  {
    match level
    case Low => "low"
    case Medium => "medium"
    case High => "high"
  }
}
