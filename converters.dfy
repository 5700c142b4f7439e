/** The Room type converters: how dates and priorities are written to columns. */
module Converters {
  import opened Types
  import opened TaskModel

  /** `fromTimestamp`: a nullable millisecond column value to a nullable date. */
  function FromTimestamp(value: Option<Long>): (r: Option<Date>)
    ensures r.None? <==> value.None?
    ensures r.Some? ==> r.value.time == value.value
  {
    match value
    case None => None
    case Some(ms) => Some(Date(ms))
  }

  /** `dateToTimestamp`: a nullable date to its millisecond column value. */
  function DateToTimestamp(date: Option<Date>): (r: Option<Long>)
    ensures r.None? <==> date.None?
    ensures r.Some? ==> r.value == date.value.time
  {
    match date
    case None => None
    case Some(d) => Some(d.time)
  }

  /** A date survives being written and read back. */
  lemma DateRoundTrip(date: Option<Date>)
    ensures FromTimestamp(DateToTimestamp(date)) == date
  {
  }

  /** A stored timestamp survives being read and written back. */
  lemma TimestampRoundTrip(value: Option<Long>)
    ensures DateToTimestamp(FromTimestamp(value)) == value
  {
  }

  /** `fromPriority`: the enum constant's name. */
  function FromPriority(priority: Priority): (name: string)
    ensures priority == LOW ==> name == "LOW"
    ensures priority == MEDIUM ==> name == "MEDIUM"
    ensures priority == HIGH ==> name == "HIGH"
  {
    match priority
    case LOW => "LOW"
    case MEDIUM => "MEDIUM"
    case HIGH => "HIGH"
  }

  /** Distinct priorities are written as distinct names. */
  lemma FromPriorityInjective(p: Priority, q: Priority)
    ensures FromPriority(p) == FromPriority(q) ==> p == q
  {
  }

  /** `toPriority`: `Priority.valueOf`, which matches a name exactly, with the
      `IllegalArgumentException` of any other string turned into MEDIUM. */
  function ToPriority(value: string): (r: Priority)
    ensures value == "LOW" ==> r == LOW
    ensures value == "MEDIUM" ==> r == MEDIUM
    ensures value == "HIGH" ==> r == HIGH
    ensures value !in {"LOW", "MEDIUM", "HIGH"} ==> r == MEDIUM
  {
    if value == "LOW" then LOW
    else if value == "MEDIUM" then MEDIUM
    else if value == "HIGH" then HIGH
    else MEDIUM
  }

  /** Every priority survives being written and read back. */
  lemma PriorityRoundTrip(p: Priority)
    ensures ToPriority(FromPriority(p)) == p
  {
  }

  /** Reading then writing a priority column restores it exactly when it held
      one of the three names; anything else is normalised to "MEDIUM". */
  lemma PriorityColumnRoundTrip(value: string)
    ensures FromPriority(ToPriority(value)) == value <==> value in {"LOW", "MEDIUM", "HIGH"}
  {
    if value !in {"LOW", "MEDIUM", "HIGH"} {
      assert forall p :: value != FromPriority(p);
    }
  }

  /** Matching is case-sensitive and never fails: near-misses decode to MEDIUM. */
  lemma LenientDecode()
    ensures ToPriority("low") == MEDIUM && ToPriority("High") == MEDIUM
    ensures ToPriority("") == MEDIUM && ToPriority(" HIGH") == MEDIUM
  {
  }
}
