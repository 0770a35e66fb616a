/** A 7-day period (Saptaha) within a Parva. */
module Saptahas {
  import opened Kotlin
  import opened CycleThemes
  import opened Dinas

  datatype Saptaha = Saptaha(
    number: int,          // 1..7 within its Parva
    theme: CycleTheme,
    startDate: Date,
    dinas: seq<Dina>,
    customGoal: string)   // the user's goal for the week
  {
    /** The constructor's `init` check. */
    predicate Valid()
    {
      1 <= number <= 7
    }

    /** `endDate`: six days after the start, whatever the days hold. */
    function EndDate(): Date
    {
      startDate + 6
    }

    /** `progress`: completed days over all days, 0 for none. */
    function Progress(): real
    {
      Dinas.Progress(dinas)
    }

    /** `isActive`: today falls within the week, both ends inclusive. */
    predicate IsActive(today: Date)
    {
      !(today < startDate) && !(today > EndDate())
    }
  }

  /** The primary constructor, which rejects a number outside 1..7. */
  function NewSaptaha(number: int, theme: CycleTheme, startDate: Date,
                      dinas: seq<Dina>, customGoal: string): (r: Result<Saptaha>)
    ensures r.Ok? <==> 1 <= number <= 7
    ensures r.Ok? ==> r.value.Valid()
    ensures r.Err? ==> r.error == IllegalArgument
  {
    if 1 <= number <= 7 then Ok(Saptaha(number, theme, startDate, dinas, customGoal))
    else Err(IllegalArgument)
  }

  /**
   * `Saptaha.create`: seven days numbered from `absoluteDayOffset`, day `k`
   * created from `startDate + k`, so that each built day is dated
   * `startDate + k + (absoluteDayOffset + k - 1)`. A day number outside
   * 1..343 makes its `Dina.create` throw; `CreateIsRangeMap` shows this
   * agrees with the element-by-element `(0..6).map`.
   */
  function Create(number: int, theme: CycleTheme, startDate: Date, absoluteDayOffset: int): (r: Result<Saptaha>)
    ensures r.Ok? <==> 1 <= number <= 7 && 1 <= absoluteDayOffset && absoluteDayOffset + 6 <= 343
    ensures r.Err? ==> r.error == IllegalArgument
    ensures r.Ok? ==> r.value.number == number && r.value.theme == theme
    ensures r.Ok? ==> r.value.startDate == startDate && r.value.customGoal == ""
    ensures r.Ok? ==> |r.value.dinas| == 7
  {
    if !(1 <= absoluteDayOffset && absoluteDayOffset + 6 <= 343) then Err(IllegalArgument)
    else
      var dinas := seq(7, k requires 0 <= k < 7 => Dinas.Create(absoluteDayOffset + k, startDate + k).value);
      NewSaptaha(number, theme, startDate, dinas, "")
  }

  /** The element function of `(0..6).map`: day `k` of the week. */
  function DinaMaker(absoluteDayOffset: int, startDate: Date): int -> Result<Dina>
  {
    k => Dinas.Create(absoluteDayOffset + k, startDate + k)
  }

  /** `Saptaha.create` transcribed step by step: map `0..6`, stopping at the first exception, then construct. */
  function RangeMapCreate(number: int, theme: CycleTheme, startDate: Date, absoluteDayOffset: int): Result<Saptaha>
  {
    var dinas :- MapRange(0, 6, DinaMaker(absoluteDayOffset, startDate));
    NewSaptaha(number, theme, startDate, dinas, "")
  }

  /** `(0..6).map` succeeds exactly when all seven day numbers are in range, and fails only by `require`. */
  lemma BuiltDinasOk(absoluteDayOffset: int, startDate: Date)
    ensures var built := MapRange(0, 6, DinaMaker(absoluteDayOffset, startDate));
      && (built.Ok? <==> 1 <= absoluteDayOffset && absoluteDayOffset + 6 <= 343)
      && (built.Err? ==> built.error == IllegalArgument)
  {
    var f := DinaMaker(absoluteDayOffset, startDate);
    var built := MapRange(0, 6, f);
    if built.Err? {
      var i :| 0 <= i <= 6 && f(i) == Err(built.error);
      assert f(i) == Dinas.Create(absoluteDayOffset + i, startDate + i);
    } else {
      assert f(0) == Dinas.Create(absoluteDayOffset, startDate);
      assert f(6) == Dinas.Create(absoluteDayOffset + 6, startDate + 6);
    }
  }

  /** Element `k` of a successful `(0..6).map` is the day created from `startDate + k`. */
  lemma BuiltDinasAt(absoluteDayOffset: int, startDate: Date, k: int)
    requires MapRange(0, 6, DinaMaker(absoluteDayOffset, startDate)).Ok?
    requires 0 <= k < 7
    ensures var built := MapRange(0, 6, DinaMaker(absoluteDayOffset, startDate)).value;
      |built| == 7 && Dinas.Create(absoluteDayOffset + k, startDate + k) == Ok(built[k])
  {
    var f := DinaMaker(absoluteDayOffset, startDate);
    assert f(0 + k) == Dinas.Create(absoluteDayOffset + k, startDate + k);
  }

  /** `Create` is the step-by-step `(0..6).map` followed by the constructor, outcome for outcome. */
  lemma CreateIsRangeMap(number: int, theme: CycleTheme, startDate: Date, absoluteDayOffset: int)
    ensures Create(number, theme, startDate, absoluteDayOffset)
         == RangeMapCreate(number, theme, startDate, absoluteDayOffset)
  {
    BuiltDinasOk(absoluteDayOffset, startDate);
    var built := MapRange(0, 6, DinaMaker(absoluteDayOffset, startDate));
    if built.Ok? {
      var r := Create(number, theme, startDate, absoluteDayOffset);
      var dinas := seq(7, k requires 0 <= k < 7 => Dinas.Create(absoluteDayOffset + k, startDate + k).value);
      forall k | 0 <= k < 7 ensures built.value[k] == dinas[k] {
        BuiltDinasAt(absoluteDayOffset, startDate, k);
      }
      assert built.value == dinas;
    }
  }

  /** The days of a created week, spelled out. */
  lemma CreatedDinas(number: int, theme: CycleTheme, startDate: Date, absoluteDayOffset: int, k: int)
    requires Create(number, theme, startDate, absoluteDayOffset).Ok?
    requires 0 <= k < 7
    ensures var x := Create(number, theme, startDate, absoluteDayOffset).value.dinas[k];
      && x.dayNumber == absoluteDayOffset + k
      && x.date == startDate + 2 * k + absoluteDayOffset - 1
      && x.dinaTheme == DinaThemes.FromDay(absoluteDayOffset + k).value
      && x.dailyIntention == "" && x.notes == "" && !x.isCompleted
  {
    var x := Dinas.Create(absoluteDayOffset + k, startDate + k);
    assert Create(number, theme, startDate, absoluteDayOffset).value.dinas[k] == x.value;
  }

  /** `isActive` holds exactly from `startDate` through `startDate + 6`. */
  lemma IsActiveIff(s: Saptaha, today: Date)
    ensures s.IsActive(today) <==> s.startDate <= today <= s.startDate + 6
  {
  }
}
