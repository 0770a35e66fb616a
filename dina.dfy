/** A single day (Dina) of the 343-day Maha-Parva. */
module Dinas {
  import opened Kotlin
  import opened DinaThemes

  datatype Dina = Dina(
    dayNumber: int,        // 1..343, the absolute day in the Maha-Parva
    date: Date,
    dinaTheme: DinaTheme,
    dailyIntention: string,
    notes: string,
    isCompleted: bool)
  {
    /** The constructor's `init` check. */
    predicate Valid()
    {
      1 <= dayNumber <= 343
    }

    // The three positions below read only `dayNumber`; under `Valid()` it
    // is positive, so Kotlin's `/` and `%` are Dafny's.

    /** The Parva (1..7) holding this day. */
    function ParvaNumber(): (n: int)
      requires Valid()
      ensures 1 <= n <= 7
    {
      (dayNumber - 1) / 49 + 1
    }

    /** The Saptaha (1..7) within that Parva. */
    function SaptahaNumber(): (n: int)
      requires Valid()
      ensures 1 <= n <= 7
    {
      ((dayNumber - 1) % 49) / 7 + 1
    }

    /** The day (1..7) within that Saptaha. */
    function DayInSaptaha(): (n: int)
      requires Valid()
      ensures 1 <= n <= 7
    {
      (dayNumber - 1) % 7 + 1
    }

    /** `isPast`: today is after this day's date. */
    predicate IsPast(today: Date)
    {
      today > date
    }

    /** `isEditable`: not past. */
    predicate IsEditable(today: Date)
    {
      !IsPast(today)
    }
  }

  /** The primary constructor, which rejects a day number outside 1..343. */
  function NewDina(dayNumber: int, date: Date, dinaTheme: DinaTheme,
                   dailyIntention: string, notes: string, isCompleted: bool): (r: Result<Dina>)
    ensures r.Ok? <==> 1 <= dayNumber <= 343
    ensures r.Ok? ==> r.value.Valid()
    ensures r.Err? ==> r.error == IllegalArgument
  {
    if 1 <= dayNumber <= 343 then Ok(Dina(dayNumber, date, dinaTheme, dailyIntention, notes, isCompleted))
    else Err(IllegalArgument)
  }

  /**
   * `Dina.create`: day `dayNumber` counted from `startDate`, with the day's
   * theme, no intention or notes, not completed.
   */
  function Create(dayNumber: int, startDate: Date): (r: Result<Dina>)
    ensures r.Ok? <==> 1 <= dayNumber <= 343
    ensures r.Err? ==> r.error == IllegalArgument
    ensures r.Ok? ==> r.value.Valid() && r.value.dayNumber == dayNumber
    ensures r.Ok? ==> r.value.date == startDate + (dayNumber - 1)
    ensures r.Ok? ==> r.value.dinaTheme.Ordinal() == (dayNumber - 1) % 7
    ensures r.Ok? ==> r.value.dailyIntention == "" && r.value.notes == "" && !r.value.isCompleted
  {
    var theme :- DinaThemes.FromDay(dayNumber);
    NewDina(dayNumber, startDate + (dayNumber - 1), theme, "", "", false)
  }

  /** The position decomposes the day number: `d = 49 (p - 1) + 7 (s - 1) + k`. */
  lemma DecompositionRoundTrip(x: Dina)
    requires x.Valid()
    ensures x.dayNumber == 49 * (x.ParvaNumber() - 1) + 7 * (x.SaptahaNumber() - 1) + x.DayInSaptaha()
  {
  }

  /** Every position (p, s, k) in 1..7 is the position of exactly the day `49 (p - 1) + 7 (s - 1) + k`. */
  lemma DecompositionOnto(x: Dina, p: int, s: int, k: int)
    requires 1 <= p <= 7 && 1 <= s <= 7 && 1 <= k <= 7
    requires x.dayNumber == 49 * (p - 1) + 7 * (s - 1) + k
    ensures x.Valid()
    ensures x.ParvaNumber() == p && x.SaptahaNumber() == s && x.DayInSaptaha() == k
  {
  }

  /** The position depends on the day number alone, never on the date or content. */
  lemma PositionIgnoresDate(x: Dina, y: Dina)
    requires x.Valid() && x.dayNumber == y.dayNumber
    ensures y.Valid()
    ensures x.ParvaNumber() == y.ParvaNumber()
    ensures x.SaptahaNumber() == y.SaptahaNumber()
    ensures x.DayInSaptaha() == y.DayInSaptaha()
  {
  }

  /** A day stays editable through its own date and is past from the next day on. */
  lemma EditableIff(x: Dina, today: Date)
    ensures x.IsEditable(today) <==> today <= x.date
    ensures x.IsPast(today) <==> !x.IsEditable(today)
  {
  }

  /** `count { it.isCompleted }`. */
  function CompletedCount(dinas: seq<Dina>): (n: nat)
    ensures n <= |dinas|
    ensures n == |dinas| <==> forall i :: 0 <= i < |dinas| ==> dinas[i].isCompleted
    ensures n == 0 <==> forall i :: 0 <= i < |dinas| ==> !dinas[i].isCompleted
  {
    if |dinas| == 0 then 0
    else (if dinas[0].isCompleted then 1 else 0) + CompletedCount(dinas[1..])
  }

  /** A ratio of counts lies in [0, 1] and reaches its ends only at the ends. */
  lemma RatioBounds(part: nat, total: nat)
    requires 0 < total && part <= total
    ensures 0.0 <= part as real / total as real <= 1.0
    ensures part as real / total as real == 0.0 <==> part == 0
    ensures part as real / total as real == 1.0 <==> part == total
  {
    var p, t := part as real, total as real;
    var q, inv := p / t, 1.0 / t;
    assert inv > 0.0 && t * inv == 1.0;
    assert q == p * inv && q * t == p;
    assert 1.0 - q == (t - p) * inv;
  }

  /**
   * The `progress` of a list of days: completed over total, 0 for an empty
   * list (the `Float` ratio is modelled as a real).
   */
  function Progress(dinas: seq<Dina>): (r: real)
    ensures 0.0 <= r <= 1.0
    ensures r == 0.0 <==> forall i :: 0 <= i < |dinas| ==> !dinas[i].isCompleted
    ensures r == 1.0 <==> |dinas| > 0 && forall i :: 0 <= i < |dinas| ==> dinas[i].isCompleted
  {
    if |dinas| == 0 then 0.0
    else
      RatioBounds(CompletedCount(dinas), |dinas|);
      CompletedCount(dinas) as real / |dinas| as real
  }
}
