/** The seven daily themes, repeating every seven days over the whole 343-day cycle. */
module DinaThemes {
  import opened Kotlin

  datatype DinaTheme = Initiate | Stabilize | Observe | Strengthen | Expand | Integrate | Reflect {

    function Ordinal(): (i: nat)
      ensures i < |Values| && Values[i] == this
    {
      match this
      case Initiate => 0
      case Stabilize => 1
      case Observe => 2
      case Strengthen => 3
      case Expand => 4
      case Integrate => 5
      case Reflect => 6
    }
  }

  /** `values()`, in declaration order. */
  const Values: seq<DinaTheme> := [Initiate, Stabilize, Observe, Strengthen, Expand, Integrate, Reflect]

  /** `fromDay`: the theme of an absolute day number, which must be in 1..343. */
  function FromDay(day: int): (r: Result<DinaTheme>)
    ensures r.Ok? <==> 1 <= day <= 343
    ensures r.Ok? ==> r.value.Ordinal() == (day - 1) % 7
    ensures r.Err? ==> r.error == IllegalArgument
  {
    if !(1 <= day <= 343) then Err(IllegalArgument)
    // After the `require`, `day - 1` is non-negative, so Kotlin's `%` is Dafny's.
    else Ok(Values[(day - 1) % 7])
  }

  /** The week starts with Initiate and ends with Reflect. */
  lemma FromDayEnds()
    ensures FromDay(1) == Ok(Initiate)
    ensures FromDay(7) == Ok(Reflect)
  {
  }

  /** The table has period 7, whatever Parva the days fall in. */
  lemma FromDayPeriodic(day: int)
    requires 1 <= day && day + 7 <= 343
    ensures FromDay(day + 7) == FromDay(day)
  {
  }
}
