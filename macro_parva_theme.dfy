/** The daily micro-themes of the older 49-day model, repeating every 7 days. */
module MacroParvaThemes {
  import opened Kotlin
  import DinaThemes

  datatype MacroParvaTheme = Initiate | Stabilize | Observe | Strengthen | Expand | Integrate | Reflect {

    function Ordinal(): (i: nat)
      ensures i < |Values| && Values[i] == this
    {
      match this
      case Initiate => 0
      case Stabilize => 1
      case Observe => 2
      case Strengthen => 3
      case Expand => 4
      case Integrate => 5
      case Reflect => 6
    }
  }

  /** `values()`, in declaration order. */
  const Values: seq<MacroParvaTheme> := [Initiate, Stabilize, Observe, Strengthen, Expand, Integrate, Reflect]

  /** `fromDay`: the theme of a day of the 49-day cycle, which must be in 1..49. */
  function FromDay(day: int): (r: Result<MacroParvaTheme>)
    ensures r.Ok? <==> 1 <= day <= 49
    ensures r.Ok? ==> r.value.Ordinal() == (day - 1) % 7
    ensures r.Err? ==> r.error == IllegalArgument
  {
    if !(1 <= day <= 49) then Err(IllegalArgument)
    // After the `require`, `day - 1` is non-negative, so Kotlin's `%` is Dafny's.
    else Ok(Values[(day - 1) % 7])
  }

  /** Period 7 within the 49-day cycle. */
  lemma FromDayPeriodic(day: int)
    requires 1 <= day && day + 7 <= 49
    ensures FromDay(day + 7) == FromDay(day)
  {
  }

  /** On 1..49 the micro-theme has the same position as the Dina theme of the same day. */
  lemma AgreesWithDinaTheme(day: int)
    requires 1 <= day <= 49
    ensures FromDay(day).value.Ordinal() == DinaThemes.FromDay(day).value.Ordinal()
  {
  }
}
