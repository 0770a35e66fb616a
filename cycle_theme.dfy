/** The seven themes that repeat at the Parva and Saptaha levels. */
module CycleThemes {
  import opened Kotlin

  datatype CycleTheme = Beginning | Practice | Discernment | Ascent | Mastery | Flow | Renewal {

    /** Position in declaration order. */
    function Ordinal(): (i: nat)
      ensures i < |Values| && Values[i] == this
    {
      match this
      case Beginning => 0
      case Practice => 1
      case Discernment => 2
      case Ascent => 3
      case Mastery => 4
      case Flow => 5
      case Renewal => 6
    }
  }

  /** `values()`, in declaration order. */
  const Values: seq<CycleTheme> := [Beginning, Practice, Discernment, Ascent, Mastery, Flow, Renewal]

  /** `fromIndex`: the theme at a 0-based position; any index outside 0..6 is rejected. */
  function FromIndex(index: int): (r: Result<CycleTheme>)
    ensures r.Ok? <==> 0 <= index <= 6
    ensures r.Ok? ==> r.value.Ordinal() == index
    ensures r.Err? ==> r.error == IllegalArgument
  {
    if 0 <= index <= 6 then Ok(Values[index]) else Err(IllegalArgument)
  }

  /** `fromIndex` and `ordinal` are inverse: a bijection between 0..6 and the themes. */
  lemma FromIndexBijection(t: CycleTheme, i: int)
    ensures FromIndex(t.Ordinal()) == Ok(t)
    ensures FromIndex(i) == Ok(t) <==> i == t.Ordinal()
  {
  }

  /**
   * `fromDayInCycle`: the theme of a 1-based day in a cycle of `cycleLength`
   * days, each theme covering `cycleLength / 7` consecutive days.
   */
  function FromDayInCycle(day: int, cycleLength: int): (r: Result<CycleTheme>)
    ensures !(1 <= day <= cycleLength) ==> r == Err(IllegalArgument)
    ensures 1 <= day <= cycleLength < 7 ==> r == Err(Arithmetic)
  {
    if !(1 <= day <= cycleLength) then Err(IllegalArgument)
    // `day` and `cycleLength` are positive here, so Kotlin's `/` is Dafny's.
    else if cycleLength / 7 == 0 then Err(Arithmetic)
    else FromIndex((day - 1) / (cycleLength / 7))
  }

  /** A cycle of `7 * k` days: every day in range maps to a theme, `k` days per theme. */
  lemma FromDayInCycleMultiple(day: int, k: int)
    requires k >= 1 && 1 <= day <= 7 * k
    ensures FromDayInCycle(day, 7 * k).Ok?
    ensures FromDayInCycle(day, 7 * k).value.Ordinal() == (day - 1) / k
  {
    assert (7 * k) / 7 == k;
    var q := (day - 1) / k;
    assert q * k <= day - 1;
  }

  /** Any other length of at least 7 days has an in-range day (its last) that is rejected. */
  lemma FromDayInCycleNotMultiple(cycleLength: int)
    requires cycleLength >= 7 && cycleLength % 7 != 0
    ensures FromDayInCycle(cycleLength, cycleLength) == Err(IllegalArgument)
  {
    var k := cycleLength / 7;
    assert k >= 1;
    assert cycleLength - 1 >= 7 * k;
    var q := (cycleLength - 1) / k;
    assert (q + 1) * k > cycleLength - 1;
  }

  /** The 49-day cycle: days 1-7 are Beginning, 8-14 Practice, and so on. */
  lemma FromDayInCycle49(day: int)
    requires 1 <= day <= 49
    ensures FromDayInCycle(day, 49) == Ok(Values[(day - 1) / 7])
  {
  }

  /** The 7-day cycle: day `d` is the theme at index `d - 1`. */
  lemma FromDayInCycle7(day: int)
    requires 1 <= day <= 7
    ensures FromDayInCycle(day, 7) == FromIndex(day - 1)
  {
  }
}
