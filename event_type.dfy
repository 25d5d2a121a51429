/** EventType: the kinds of change a state diff describes, with their labels. */
module EventType {

  datatype EventType = CREATE | UPDATE | DELETE

  /** getLabelByType: created, modified, deleted. */
  function LabelByType(t: EventType): (r: string)
  {
    match t
    case CREATE => "created"
    case DELETE => "deleted"
    case UPDATE => "modified"
  }

  /** The labels tell the event types apart, so a label names exactly one type. */
  lemma LabelsDistinct(s: EventType, t: EventType)
    ensures LabelByType(s) == LabelByType(t) <==> s == t
  {
    if s != t {
      assert LabelByType(s)[0] != LabelByType(t)[0];
    }
  }
}
