/** A 49-day period (Parva) within a Maha-Parva: seven Saptahas. */
module Parvas {
  import opened Kotlin
  import opened CycleThemes
  import opened Dinas
  import opened Saptahas

  datatype Parva = Parva(
    number: int,          // 1..7 within its Maha-Parva
    theme: CycleTheme,
    startDate: Date,
    saptahas: seq<Saptaha>,
    customGoal: string)   // the user's goal for the 49 days
  {
    /** The constructor's `init` check. */
    predicate Valid()
    {
      1 <= number <= 7
    }

    /** `endDate`: 48 days after the start. */
    function EndDate(): Date
    {
      startDate + 48
    }

    /** `allDinas`: the days of every week, week by week (`flatMap`). */
    function AllDinas(): seq<Dina>
    {
      Flatten(seq(|saptahas|, i requires 0 <= i < |saptahas| => saptahas[i].dinas))
    }

    /** `progress`: completed over all days, 0 when there are none. */
    function Progress(): real
    {
      Dinas.Progress(AllDinas())
    }

    /** `isActive`: today falls within the 49 days, both ends inclusive. */
    predicate IsActive(today: Date)
    {
      !(today < startDate) && !(today > EndDate())
    }

    /** `isPast`: today is after the last day. */
    predicate IsPast(today: Date)
    {
      today > EndDate()
    }

    /** `isEditable`: not past. */
    predicate IsEditable(today: Date)
    {
      !IsPast(today)
    }

    /** `currentSaptaha`: null unless active, otherwise the first active week. */
    function CurrentSaptaha(today: Date): (r: Option<Saptaha>)
      ensures !IsActive(today) ==> r.None?
      ensures r.Some? ==> r.value in saptahas && r.value.IsActive(today)
      ensures IsActive(today) && (exists i :: 0 <= i < |saptahas| && saptahas[i].IsActive(today)) ==> r.Some?
      ensures r.Some? ==> exists i :: 0 <= i < |saptahas| && r.value == saptahas[i]
                           && forall j :: 0 <= j < i ==> !saptahas[j].IsActive(today)
    {
      if IsActive(today) then Find(saptahas, (s: Saptaha) => s.IsActive(today)) else None
    }
  }

  /** The primary constructor, which rejects a number outside 1..7. */
  function NewParva(number: int, theme: CycleTheme, startDate: Date,
                    saptahas: seq<Saptaha>, customGoal: string): (r: Result<Parva>)
    ensures r.Ok? <==> 1 <= number <= 7
    ensures r.Ok? ==> r.value.Valid()
    ensures r.Err? ==> r.error == IllegalArgument
  {
    if 1 <= number <= 7 then Ok(Parva(number, theme, startDate, saptahas, customGoal))
    else Err(IllegalArgument)
  }

  /**
   * The element function of `(1..7).map` in `Parva.create`: week `s` starts
   * `7 (s - 1)` days on, has theme `fromIndex(s - 1)` and day offset
   * `absoluteDayOffset + 7 (s - 1)`.
   */
  function SaptahaMaker(startDate: Date, absoluteDayOffset: int): int -> Result<Saptaha>
  {
    s =>
      var theme :- CycleThemes.FromIndex(s - 1);
      Saptahas.Create(s, theme, startDate + (s - 1) * 7, absoluteDayOffset + (s - 1) * 7)
  }

  /** Week `s` in 1..7 is created with the `s`-th theme. */
  lemma SaptahaMakerAt(startDate: Date, absoluteDayOffset: int, s: int)
    requires 1 <= s <= 7
    ensures SaptahaMaker(startDate, absoluteDayOffset)(s)
         == Saptahas.Create(s, Values[s - 1], startDate + (s - 1) * 7, absoluteDayOffset + (s - 1) * 7)
  {
    var t := CycleThemes.FromIndex(s - 1);
    assert t == Ok(Values[s - 1]);
  }

  /** `(1..7).map` succeeds exactly when all 49 day numbers are in range, and fails only by `require`. */
  lemma BuiltSaptahasOk(startDate: Date, absoluteDayOffset: int)
    ensures var built := MapRange(1, 7, SaptahaMaker(startDate, absoluteDayOffset));
      && (built.Ok? <==> 1 <= absoluteDayOffset && absoluteDayOffset + 48 <= 343)
      && (built.Err? ==> built.error == IllegalArgument)
  {
    var f := SaptahaMaker(startDate, absoluteDayOffset);
    var built := MapRange(1, 7, f);
    if built.Err? {
      var i :| 1 <= i <= 7 && f(i) == Err(built.error);
      SaptahaMakerAt(startDate, absoluteDayOffset, i);
    } else {
      SaptahaMakerAt(startDate, absoluteDayOffset, 1);
      SaptahaMakerAt(startDate, absoluteDayOffset, 7);
    }
  }

  /** Element `k` of a successful `(1..7).map` is week `k + 1`. */
  lemma BuiltSaptahasAt(startDate: Date, absoluteDayOffset: int, k: int)
    requires MapRange(1, 7, SaptahaMaker(startDate, absoluteDayOffset)).Ok?
    requires 0 <= k < 7
    ensures var built := MapRange(1, 7, SaptahaMaker(startDate, absoluteDayOffset)).value;
      |built| == 7 && Saptahas.Create(k + 1, Values[k], startDate + 7 * k, absoluteDayOffset + 7 * k) == Ok(built[k])
  {
    SaptahaMakerAt(startDate, absoluteDayOffset, 1 + k);
  }

  /**
   * `Parva.create`: seven weeks, week `k + 1` being the week created with
   * the `k`-th theme from `startDate + 7 k` and day offset
   * `absoluteDayOffset + 7 k`. A day number outside 1..343 makes the
   * creation of its week throw; `CreateIsRangeMap` shows this agrees with
   * the element-by-element `(1..7).map`.
   */
  function Create(number: int, theme: CycleTheme, startDate: Date, absoluteDayOffset: int): (r: Result<Parva>)
    ensures r.Ok? <==> 1 <= number <= 7 && 1 <= absoluteDayOffset && absoluteDayOffset + 48 <= 343
    ensures r.Err? ==> r.error == IllegalArgument
    ensures r.Ok? ==> r.value.number == number && r.value.theme == theme
    ensures r.Ok? ==> r.value.startDate == startDate && r.value.customGoal == ""
    ensures r.Ok? ==> |r.value.saptahas| == 7
  {
    if !(1 <= absoluteDayOffset && absoluteDayOffset + 48 <= 343) then Err(IllegalArgument)
    else NewParva(number, theme, startDate, Weeks(startDate, absoluteDayOffset), "")
  }

  /** The seven weeks of `Parva.create` once every day number is known to be in range. */
  function Weeks(startDate: Date, absoluteDayOffset: int): seq<Saptaha>
    requires 1 <= absoluteDayOffset && absoluteDayOffset + 48 <= 343
  {
    seq(7, k requires 0 <= k < 7 =>
      Saptahas.Create(k + 1, Values[k], startDate + 7 * k, absoluteDayOffset + 7 * k).value)
  }

  /** `Parva.create` transcribed step by step: map `1..7`, stopping at the first exception, then construct. */
  function RangeMapCreate(number: int, theme: CycleTheme, startDate: Date, absoluteDayOffset: int): Result<Parva>
  {
    var saptahas :- MapRange(1, 7, SaptahaMaker(startDate, absoluteDayOffset));
    NewParva(number, theme, startDate, saptahas, "")
  }

  /** `Create` is the step-by-step `(1..7).map` followed by the constructor, outcome for outcome. */
  lemma CreateIsRangeMap(number: int, theme: CycleTheme, startDate: Date, absoluteDayOffset: int)
    ensures Create(number, theme, startDate, absoluteDayOffset)
         == RangeMapCreate(number, theme, startDate, absoluteDayOffset)
  {
    BuiltSaptahasOk(startDate, absoluteDayOffset);
    var built := MapRange(1, 7, SaptahaMaker(startDate, absoluteDayOffset));
    if built.Ok? {
      var saptahas := Weeks(startDate, absoluteDayOffset);
      forall k | 0 <= k < 7 ensures built.value[k] == saptahas[k] {
        BuiltSaptahasAt(startDate, absoluteDayOffset, k);
      }
      assert built.value == saptahas;
    }
  }

  /** The weeks of a created Parva, spelled out. */
  lemma CreatedSaptaha(number: int, theme: CycleTheme, startDate: Date, absoluteDayOffset: int, k: int)
    requires Create(number, theme, startDate, absoluteDayOffset).Ok?
    requires 0 <= k < 7
    ensures var s := Create(number, theme, startDate, absoluteDayOffset).value.saptahas[k];
      && Saptahas.Create(k + 1, Values[k], startDate + 7 * k, absoluteDayOffset + 7 * k) == Ok(s)
      && s.number == k + 1 && s.theme.Ordinal() == k
      && s.startDate == startDate + 7 * k && s.customGoal == ""
      && |s.dinas| == 7
  {
    var s := Saptahas.Create(k + 1, Values[k], startDate + 7 * k, absoluteDayOffset + 7 * k);
    assert Create(number, theme, startDate, absoluteDayOffset).value.saptahas[k] == s.value;
  }

  /** `isActive`, `isPast` and `isEditable` in terms of the 49-day window; an active Parva is editable. */
  lemma IsEditableIff(p: Parva, today: Date)
    ensures p.IsActive(today) <==> p.startDate <= today <= p.startDate + 48
    ensures p.IsPast(today) <==> today > p.startDate + 48
    ensures p.IsEditable(today) <==> today <= p.EndDate()
    ensures p.IsActive(today) ==> p.IsEditable(today)
  {
  }

  /**
   * The windows of a created Parva's weeks tile its 49 days: the first
   * starts with the Parva, each starts the day after the previous ends,
   * and the last ends with the Parva.
   */
  lemma CreatedWindowsTile(number: int, theme: CycleTheme, startDate: Date, absoluteDayOffset: int)
    requires Create(number, theme, startDate, absoluteDayOffset).Ok?
    ensures var p := Create(number, theme, startDate, absoluteDayOffset).value;
      && p.saptahas[0].startDate == p.startDate
      && (forall k :: 0 <= k < 6 ==> p.saptahas[k + 1].startDate == p.saptahas[k].EndDate() + 1)
      && p.saptahas[6].EndDate() == p.EndDate()
  {
    var p := Create(number, theme, startDate, absoluteDayOffset).value;
    forall k | 0 <= k < 6 ensures p.saptahas[k + 1].startDate == p.saptahas[k].EndDate() + 1 {
      CreatedSaptaha(number, theme, startDate, absoluteDayOffset, k);
      CreatedSaptaha(number, theme, startDate, absoluteDayOffset, k + 1);
    }
    CreatedSaptaha(number, theme, startDate, absoluteDayOffset, 0);
    CreatedSaptaha(number, theme, startDate, absoluteDayOffset, 6);
  }

  /** Seven weeks, week `k` starting `7 k` days after the Parva. */
  predicate Tiled(p: Parva)
  {
    && |p.saptahas| == 7
    && forall k :: 0 <= k < 7 ==> p.saptahas[k].startDate == p.startDate + 7 * k
  }

  /** A created Parva is tiled by its weeks. */
  lemma CreatedTiled(number: int, theme: CycleTheme, startDate: Date, absoluteDayOffset: int)
    requires Create(number, theme, startDate, absoluteDayOffset).Ok?
    ensures Tiled(Create(number, theme, startDate, absoluteDayOffset).value)
  {
    var p := Create(number, theme, startDate, absoluteDayOffset).value;
    forall k | 0 <= k < 7 ensures p.saptahas[k].startDate == p.startDate + 7 * k {
      CreatedSaptaha(number, theme, startDate, absoluteDayOffset, k);
    }
  }

  /**
   * In a tiled Parva that is active, `currentSaptaha` is the week
   * `(today - startDate) / 7`.
   */
  lemma TiledCurrentSaptaha(p: Parva, today: Date)
    requires Tiled(p) && p.IsActive(today)
    ensures p.CurrentSaptaha(today) == Some(p.saptahas[(today - p.startDate) / 7])
  {
    var i := (today - p.startDate) / 7;
    FindAt(p.saptahas, (s: Saptaha) => s.IsActive(today), i);
  }

  /**
   * In a created Parva that is active, `currentSaptaha` is the week
   * `(today - startDate) / 7`, numbered one more.
   */
  lemma CreatedCurrentSaptaha(number: int, theme: CycleTheme, startDate: Date, absoluteDayOffset: int, today: Date)
    requires Create(number, theme, startDate, absoluteDayOffset).Ok?
    requires Create(number, theme, startDate, absoluteDayOffset).value.IsActive(today)
    ensures var p := Create(number, theme, startDate, absoluteDayOffset).value;
      && p.CurrentSaptaha(today) == Some(p.saptahas[(today - startDate) / 7])
      && p.CurrentSaptaha(today).value.number == (today - startDate) / 7 + 1
  {
    var p := Create(number, theme, startDate, absoluteDayOffset).value;
    CreatedTiled(number, theme, startDate, absoluteDayOffset);
    TiledCurrentSaptaha(p, today);
    CreatedSaptaha(number, theme, startDate, absoluteDayOffset, (today - startDate) / 7);
  }

  /** A created Parva holds 49 days numbered consecutively from `absoluteDayOffset`. */
  lemma CreatedAllDinas(number: int, theme: CycleTheme, startDate: Date, absoluteDayOffset: int, i: int)
    requires Create(number, theme, startDate, absoluteDayOffset).Ok?
    requires 0 <= i < 49
    ensures var all := Create(number, theme, startDate, absoluteDayOffset).value.AllDinas();
      |all| == 49 && all[i].dayNumber == absoluteDayOffset + i
  {
    var p := Create(number, theme, startDate, absoluteDayOffset).value;
    var weeks := seq(|p.saptahas|, j requires 0 <= j < |p.saptahas| => p.saptahas[j].dinas);
    forall j | 0 <= j < |weeks| ensures |weeks[j]| == 7 {
      CreatedSaptaha(number, theme, startDate, absoluteDayOffset, j);
    }
    var s, k := i / 7, i % 7;
    FlattenUniformLength(weeks, 7);
    FlattenUniformAt(weeks, 7, s, k);
    Saptahas.CreatedDinas(s + 1, Values[s], startDate + 7 * s, absoluteDayOffset + 7 * s, k);
  }
}
