/** The themes of the older 49-day model: one theme per 7-day Mini-Parva. */
module MiniParvaThemes {
  import opened Kotlin

  datatype MiniParvaTheme = Beginning | Practice | Discernment | Ascent | Mastery | Flow | Renewal {

    function Ordinal(): (i: nat)
      ensures i < |Values| && Values[i] == this
    {
      match this
      case Beginning => 0
      case Practice => 1
      case Discernment => 2
      case Ascent => 3
      case Mastery => 4
      case Flow => 5
      case Renewal => 6
    }
  }

  /** `values()`, in declaration order. */
  const Values: seq<MiniParvaTheme> := [Beginning, Practice, Discernment, Ascent, Mastery, Flow, Renewal]

  /** `fromDay`: the theme of a day of the 49-day cycle, which must be in 1..49. */
  function FromDay(day: int): (r: Result<MiniParvaTheme>)
    ensures r.Ok? <==> 1 <= day <= 49
    ensures r.Ok? ==> r.value.Ordinal() == (day - 1) / 7
    ensures r.Err? ==> r.error == IllegalArgument
  {
    if !(1 <= day <= 49) then Err(IllegalArgument)
    // After the `require`, `day - 1` is non-negative, so Kotlin's `/` is Dafny's.
    else Ok(Values[(day - 1) / 7])
  }

  /** Days 1-7 are Beginning and days 43-49 Renewal. */
  lemma FromDayEnds(day: int)
    ensures 1 <= day <= 7 ==> FromDay(day) == Ok(Beginning)
    ensures 43 <= day <= 49 ==> FromDay(day) == Ok(Renewal)
  {
  }

  /** The theme changes between two consecutive days exactly at a 7-day block boundary. */
  lemma FromDayChangesAtBlocks(day: int)
    requires 1 <= day < 49
    ensures FromDay(day + 1) != FromDay(day) <==> day % 7 == 0
  {
    var a, b := FromDay(day).value, FromDay(day + 1).value;
    assert a.Ordinal() == (day - 1) / 7 && b.Ordinal() == day / 7;
  }
}
