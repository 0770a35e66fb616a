/** A day of the older 49-day model: seven Mini-Parvas of seven days. */
module ParvaDays {
  import opened Kotlin
  import opened MiniParvaThemes
  import opened MacroParvaThemes

  datatype ParvaDay = ParvaDay(
    dayNumber: int,      // 1..49
    date: Date,
    miniParvaTheme: MiniParvaTheme,
    macroParvaTheme: MacroParvaTheme,
    isCompleted: bool,
    notes: string)
  {
    /** The constructor's `init` check. */
    predicate Valid()
    {
      1 <= dayNumber <= 49
    }

    // Under `Valid()` the dividend is non-negative, so Kotlin's `/` and `%` are Dafny's.

    /** The Mini-Parva (1..7) holding this day. */
    function MiniParvaNumber(): (n: int)
      requires Valid()
      ensures 1 <= n <= 7
    {
      (dayNumber - 1) / 7 + 1
    }

    /** The day (1..7) within that Mini-Parva. */
    function DayInMiniParva(): (n: int)
      requires Valid()
      ensures 1 <= n <= 7
    {
      (dayNumber - 1) % 7 + 1
    }
  }

  /** The primary constructor, which rejects a day number outside 1..49. */
  function NewParvaDay(dayNumber: int, date: Date, miniParvaTheme: MiniParvaTheme,
                       macroParvaTheme: MacroParvaTheme, isCompleted: bool, notes: string): (r: Result<ParvaDay>)
    ensures r.Ok? <==> 1 <= dayNumber <= 49
    ensures r.Ok? ==> r.value.Valid()
    ensures r.Err? ==> r.error == IllegalArgument
  {
    if 1 <= dayNumber <= 49 then Ok(ParvaDay(dayNumber, date, miniParvaTheme, macroParvaTheme, isCompleted, notes))
    else Err(IllegalArgument)
  }

  /**
   * `ParvaDay.create`: day `dayNumber` counted from `startDate`, with both
   * themes of the day, not completed and without notes. The theme lookups
   * run before the constructor, so an out-of-range day fails at the first.
   */
  function Create(dayNumber: int, startDate: Date): (r: Result<ParvaDay>)
    ensures r.Ok? <==> 1 <= dayNumber <= 49
    ensures r.Err? ==> r.error == IllegalArgument
    ensures r.Ok? ==> r.value.Valid() && r.value.dayNumber == dayNumber
    ensures r.Ok? ==> r.value.date == startDate + (dayNumber - 1)
    ensures r.Ok? ==> r.value.miniParvaTheme.Ordinal() == (dayNumber - 1) / 7
    ensures r.Ok? ==> r.value.macroParvaTheme.Ordinal() == (dayNumber - 1) % 7
    ensures r.Ok? ==> !r.value.isCompleted && r.value.notes == ""
  {
    var mini :- MiniParvaThemes.FromDay(dayNumber);
    // The second lookup has the same range check, which has just passed.
    var macro := MacroParvaThemes.FromDay(dayNumber).value;
    NewParvaDay(dayNumber, startDate + (dayNumber - 1), mini, macro, false, "")
  }

  /** The position decomposes the day number: `d = 7 (m - 1) + k`, and every position in 1..7 × 1..7 is reached. */
  lemma DecompositionRoundTrip(x: ParvaDay, m: int, k: int)
    requires x.Valid()
    ensures x.dayNumber == 7 * (x.MiniParvaNumber() - 1) + x.DayInMiniParva()
    ensures 1 <= m <= 7 && 1 <= k <= 7 ==>
      (x.MiniParvaNumber() == m && x.DayInMiniParva() == k <==> x.dayNumber == 7 * (m - 1) + k)
  {
  }

  /** A created day's Mini-Parva theme is the theme of its Mini-Parva, and its micro-theme that of its position. */
  lemma CreatedThemesMatchPosition(dayNumber: int, startDate: Date)
    requires 1 <= dayNumber <= 49
    ensures var x := Create(dayNumber, startDate).value;
      && x.miniParvaTheme.Ordinal() == x.MiniParvaNumber() - 1
      && x.macroParvaTheme.Ordinal() == x.DayInMiniParva() - 1
  {
  }
}
