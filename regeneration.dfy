/**
 * `MahaParva.regenerateWithHolds`: rebuild the whole tree for a new list of
 * holds. Every node is dated by `calculateAdjustedDate` from its unadjusted
 * position (`startDate + (d - 1)` for day `d`), and the user's own data (day
 * intentions, notes and completion, Parva and week goals) is carried over
 * from the node at the same position of the old tree, where there is one.
 */
module Regeneration {
  import opened Kotlin
  import opened HoldPeriods
  import opened DateUtils
  import opened CycleThemes
  import opened Dinas
  import opened Saptahas
  import opened Parvas
  import opened MahaParvas

  /** The unadjusted date of day `dayNumber`: `dayNumber - 1` days after the start. */
  function BaseDate(startDate: Date, dayNumber: int): Date
  {
    startDate + (dayNumber - 1)
  }

  /** The old Parva at index `p`, if the old tree has one. */
  function OldParva(m: MahaParva, p: int): Option<Parva>
  {
    if 0 <= p < |m.parvas| then Some(m.parvas[p]) else None
  }

  /** The old week at indices `(p, s)`, if the old tree has one. */
  function OldSaptaha(m: MahaParva, p: int, s: int): Option<Saptaha>
  {
    if 0 <= p < |m.parvas| && 0 <= s < |m.parvas[p].saptahas| then Some(m.parvas[p].saptahas[s]) else None
  }

  /** The old day at indices `(p, s, k)`, if the old tree has one. */
  function OldDina(m: MahaParva, p: int, s: int, k: int): Option<Dina>
  {
    if 0 <= p < |m.parvas| && 0 <= s < |m.parvas[p].saptahas| && 0 <= k < |m.parvas[p].saptahas[s].dinas|
    then Some(m.parvas[p].saptahas[s].dinas[k])
    else None
  }

  /** Day `(p, s, k)` regenerated: number, adjusted date and theme of its position, the old day's content. */
  function RegeneratedDina(m: MahaParva, holds: seq<HoldPeriod>, p: int, s: int, k: int): Dina
    requires 0 <= p < 7 && 0 <= s < 7 && 0 <= k < 7
  {
    var dayNumber := 49 * p + 7 * s + k + 1;
    var prev := OldDina(m, p, s, k);
    Dina(dayNumber,
      CalculateAdjustedDate(BaseDate(m.startDate, dayNumber), holds),
      DinaThemes.FromDay(dayNumber).value,
      if prev.Some? then prev.value.dailyIntention else "",
      if prev.Some? then prev.value.notes else "",
      prev.Some? && prev.value.isCompleted)
  }

  /** Week `(p, s)` regenerated, starting at the adjusted date of its first day. */
  function RegeneratedSaptaha(m: MahaParva, holds: seq<HoldPeriod>, p: int, s: int): Saptaha
    requires 0 <= p < 7 && 0 <= s < 7
  {
    var prev := OldSaptaha(m, p, s);
    Saptaha(s + 1, Values[s], CalculateAdjustedDate(BaseDate(m.startDate, 49 * p + 7 * s + 1), holds),
      seq(7, k requires 0 <= k < 7 => RegeneratedDina(m, holds, p, s, k)),
      if prev.Some? then prev.value.customGoal else "")
  }

  /** Parva `p` regenerated, starting at the adjusted date of its first day. */
  function RegeneratedParva(m: MahaParva, holds: seq<HoldPeriod>, p: int): Parva
    requires 0 <= p < 7
  {
    var prev := OldParva(m, p);
    Parva(p + 1, Values[p], CalculateAdjustedDate(BaseDate(m.startDate, 49 * p + 1), holds),
      seq(7, s requires 0 <= s < 7 => RegeneratedSaptaha(m, holds, p, s)),
      if prev.Some? then prev.value.customGoal else "")
  }

  /** `regenerateWithHolds(holds)`: the rebuilt tree, with `holds` recorded as the record's holds. */
  function RegenerateWithHolds(m: MahaParva, holds: seq<HoldPeriod>): MahaParva
  {
    m.(parvas := seq(7, p requires 0 <= p < 7 => RegeneratedParva(m, holds, p)), holdPeriods := holds)
  }

  /** The record's own fields are kept, and the new holds are recorded. */
  lemma RegenerateKeepsRecord(m: MahaParva, holds: seq<HoldPeriod>)
    ensures var r := RegenerateWithHolds(m, holds);
      && r.id == m.id && r.title == m.title && r.description == m.description
      && r.startDate == m.startDate && r.accountabilityPartnerEmail == m.accountabilityPartnerEmail
      && r.createdAt == m.createdAt && r.holdPeriods == holds
  {
  }

  /** Node `(p, s, k)` of the rebuilt tree is the regenerated day of that position. */
  lemma RegeneratedAt(m: MahaParva, holds: seq<HoldPeriod>, p: int, s: int, k: int)
    requires 0 <= p < 7 && 0 <= s < 7 && 0 <= k < 7
    ensures var r := RegenerateWithHolds(m, holds);
      && |r.parvas| == 7 && |r.parvas[p].saptahas| == 7 && |r.parvas[p].saptahas[s].dinas| == 7
      && r.parvas[p] == RegeneratedParva(m, holds, p)
      && r.parvas[p].saptahas[s] == RegeneratedSaptaha(m, holds, p, s)
      && r.parvas[p].saptahas[s].dinas[k] == RegeneratedDina(m, holds, p, s, k)
  {
    var r := RegenerateWithHolds(m, holds);
    assert r.parvas[p] == RegeneratedParva(m, holds, p);
    assert r.parvas[p].saptahas[s] == RegeneratedSaptaha(m, holds, p, s);
  }

  /**
   * Day `(p, s, k)` of the rebuilt tree: numbered and themed by its
   * position, dated by the adjusted date of `startDate + 49 p + 7 s + k`,
   * holding the content of the old day at the same position, or none.
   */
  lemma RegeneratedDinaAt(m: MahaParva, holds: seq<HoldPeriod>, p: int, s: int, k: int)
    requires 0 <= p < 7 && 0 <= s < 7 && 0 <= k < 7
    ensures var r := RegenerateWithHolds(m, holds);
      && |r.parvas| == 7 && |r.parvas[p].saptahas| == 7 && |r.parvas[p].saptahas[s].dinas| == 7
      && var y := r.parvas[p].saptahas[s].dinas[k];
         && y.dayNumber == 49 * p + 7 * s + k + 1
         && y.date == CalculateAdjustedDate(m.startDate + 49 * p + 7 * s + k, holds)
         && y.dinaTheme.Ordinal() == k
         && (OldDina(m, p, s, k).Some? ==>
               var x := OldDina(m, p, s, k).value;
               y.dailyIntention == x.dailyIntention && y.notes == x.notes && y.isCompleted == x.isCompleted)
         && (OldDina(m, p, s, k).None? ==> y.dailyIntention == "" && y.notes == "" && !y.isCompleted)
  {
    RegeneratedAt(m, holds, p, s, k);
    RegeneratedDinaFields(m, holds, p, s, k);
  }

  /** The regenerated day of position `(p, s, k)`: its number, adjusted date and theme. */
  lemma RegeneratedDinaFields(m: MahaParva, holds: seq<HoldPeriod>, p: int, s: int, k: int)
    requires 0 <= p < 7 && 0 <= s < 7 && 0 <= k < 7
    ensures var y := RegeneratedDina(m, holds, p, s, k);
      && y.dayNumber == 49 * p + 7 * s + k + 1
      && y.date == CalculateAdjustedDate(m.startDate + 49 * p + 7 * s + k, holds)
      && y.dinaTheme.Ordinal() == k
  {
    ModUnique(7 * (7 * p + s) + k, 7, 7 * p + s, k);
  }

  /** A regenerated week: numbered and themed by its position, its days numbered from `49 p + 7 s + 1`. */
  lemma RegeneratedSaptahaNumbered(m: MahaParva, holds: seq<HoldPeriod>, p: int, s: int)
    requires 0 <= p < 7 && 0 <= s < 7
    ensures var w := RegeneratedSaptaha(m, holds, p, s);
      && w.number == s + 1 && w.theme.Ordinal() == s && |w.dinas| == 7
      && forall k :: 0 <= k < 7 ==> w.dinas[k].dayNumber == 49 * p + 7 * s + k + 1
  {
  }

  /** A regenerated Parva: numbered and themed by its position, holding the regenerated weeks. */
  lemma RegeneratedParvaNumbered(m: MahaParva, holds: seq<HoldPeriod>, p: int)
    requires 0 <= p < 7
    ensures var v := RegeneratedParva(m, holds, p);
      && v.number == p + 1 && v.theme.Ordinal() == p && |v.saptahas| == 7
      && forall s :: 0 <= s < 7 ==> v.saptahas[s] == RegeneratedSaptaha(m, holds, p, s)
  {
  }

  /** A rebuilt tree has seven Parvas of seven weeks of seven days. */
  lemma RegeneratedShaped(m: MahaParva, holds: seq<HoldPeriod>)
    ensures Shaped(RegenerateWithHolds(m, holds))
  {
    var r := RegenerateWithHolds(m, holds);
    forall p, s | 0 <= p < 7 && 0 <= s < 7
      ensures |r.parvas[p].saptahas| == 7 && |r.parvas[p].saptahas[s].dinas| == 7
    {
      RegeneratedParvaNumbered(m, holds, p);
      RegeneratedSaptahaNumbered(m, holds, p, s);
    }
  }

  /**
   * Whatever the old tree looked like, the rebuilt one is seven Parvas of
   * seven weeks of seven days, numbered by position, each Parva and week
   * themed by its position in the cycle.
   */
  lemma RegeneratedNumbered(m: MahaParva, holds: seq<HoldPeriod>)
    ensures var r := RegenerateWithHolds(m, holds);
      && Numbered(r)
      && (forall p :: 0 <= p < 7 ==> r.parvas[p].theme.Ordinal() == p)
      && (forall p, s :: 0 <= p < 7 && 0 <= s < 7 ==> r.parvas[p].saptahas[s].theme.Ordinal() == s)
  {
    var r := RegenerateWithHolds(m, holds);
    forall p, s | 0 <= p < 7 && 0 <= s < 7
      ensures |r.parvas[p].saptahas| == 7 && |r.parvas[p].saptahas[s].dinas| == 7
      ensures r.parvas[p].number == p + 1 && r.parvas[p].theme.Ordinal() == p
      ensures r.parvas[p].saptahas[s].number == s + 1 && r.parvas[p].saptahas[s].theme.Ordinal() == s
      ensures forall k :: 0 <= k < 7 ==> r.parvas[p].saptahas[s].dinas[k].dayNumber == 49 * p + 7 * s + k + 1
    {
      RegeneratedParvaNumbered(m, holds, p);
      RegeneratedSaptahaNumbered(m, holds, p, s);
    }
  }

  /** The day at index `i` of the rebuilt tree's `allDinas` is the regenerated day of position `i`. */
  lemma RegeneratedAllDinas(m: MahaParva, holds: seq<HoldPeriod>, i: int)
    requires 0 <= i < 343
    ensures |RegenerateWithHolds(m, holds).AllDinas()| == 343
    ensures RegenerateWithHolds(m, holds).AllDinas()[i] == RegeneratedDina(m, holds, i / 49, (i % 49) / 7, i % 7)
  {
    var r := RegenerateWithHolds(m, holds);
    var p, s, k := i / 49, (i % 49) / 7, i % 7;
    SplitDayIndex(i);
    RegeneratedShaped(m, holds);
    RegeneratedAt(m, holds, p, s, k);
    AllDinasAt(r, p, s, k);
  }

  /**
   * Day `i + 1` of the rebuilt tree, as `allDinas` lists it: its date is the
   * adjusted date of `startDate + i`, which moves it forward by the holds
   * started by then, and its theme is that of its place in the week.
   */
  lemma RegeneratedDates(m: MahaParva, holds: seq<HoldPeriod>, i: int)
    requires 0 <= i < 343
    ensures var all := RegenerateWithHolds(m, holds).AllDinas();
      && |all| == 343
      && all[i].dayNumber == i + 1
      && all[i].date == CalculateAdjustedDate(m.startDate + i, holds)
      && all[i].date == m.startDate + i + HoldDaysBy(holds, m.startDate + i)
      && all[i].dinaTheme.Ordinal() == i % 7
  {
    var p, s, k := i / 49, (i % 49) / 7, i % 7;
    SplitDayIndex(i);
    RegeneratedAllDinas(m, holds, i);
    RegeneratedDinaFields(m, holds, p, s, k);
  }

  /** Every Parva and week starts at the adjusted date of its first day. */
  lemma RegeneratedStartDates(m: MahaParva, holds: seq<HoldPeriod>, p: int, s: int)
    requires 0 <= p < 7 && 0 <= s < 7
    ensures var r := RegenerateWithHolds(m, holds);
      && |r.parvas| == 7 && |r.parvas[p].saptahas| == 7
      && r.parvas[p].startDate == CalculateAdjustedDate(m.startDate + 49 * p, holds)
      && r.parvas[p].saptahas[s].startDate == CalculateAdjustedDate(m.startDate + 49 * p + 7 * s, holds)
  {
    RegeneratedAt(m, holds, p, s, 0);
    assert BaseDate(m.startDate, 49 * p + 1) == m.startDate + 49 * p;
    assert BaseDate(m.startDate, 49 * p + 7 * s + 1) == m.startDate + 49 * p + 7 * s;
  }

  /**
   * Regenerating a shaped tree keeps every day's intention, notes and
   * completion, and a numbered tree's day numbers too (only dates may move).
   */
  lemma RegeneratePreservesDinas(m: MahaParva, holds: seq<HoldPeriod>, i: int)
    requires Shaped(m)
    requires 0 <= i < 343
    ensures |m.AllDinas()| == 343 && |RegenerateWithHolds(m, holds).AllDinas()| == 343
    ensures var x, y := m.AllDinas()[i], RegenerateWithHolds(m, holds).AllDinas()[i];
      && y.dailyIntention == x.dailyIntention && y.notes == x.notes && y.isCompleted == x.isCompleted
      && (Numbered(m) ==> y.dayNumber == x.dayNumber)
  {
    var p, s, k := i / 49, (i % 49) / 7, i % 7;
    SplitDayIndex(i);
    AllDinasAt(m, p, s, k);
    RegeneratedAllDinas(m, holds, i);
    RegeneratedDinaAt(m, holds, p, s, k);
    RegeneratedAt(m, holds, p, s, k);
  }

  /** Every Parva goal and week goal of the old tree is kept at its position. */
  lemma RegeneratePreservesGoals(m: MahaParva, holds: seq<HoldPeriod>, p: int, s: int)
    requires 0 <= p < |m.parvas| && p < 7
    requires 0 <= s < |m.parvas[p].saptahas| && s < 7
    ensures var r := RegenerateWithHolds(m, holds);
      && |r.parvas| == 7 && |r.parvas[p].saptahas| == 7
      && r.parvas[p].customGoal == m.parvas[p].customGoal
      && r.parvas[p].saptahas[s].customGoal == m.parvas[p].saptahas[s].customGoal
  {
    RegeneratedAt(m, holds, p, s, 0);
  }

  /** A position the old tree lacks starts out empty. */
  lemma RegeneratedMissingEmpty(m: MahaParva, holds: seq<HoldPeriod>, p: int, s: int)
    requires 0 <= p < 7 && 0 <= s < 7
    requires !(p < |m.parvas| && s < |m.parvas[p].saptahas|)
    ensures var r := RegenerateWithHolds(m, holds);
      && |r.parvas| == 7 && |r.parvas[p].saptahas| == 7
      && r.parvas[p].saptahas[s].customGoal == ""
      && forall k :: 0 <= k < |r.parvas[p].saptahas[s].dinas| ==>
           var y := r.parvas[p].saptahas[s].dinas[k];
           y.dailyIntention == "" && y.notes == "" && !y.isCompleted
  {
    var r := RegenerateWithHolds(m, holds);
    RegeneratedAt(m, holds, p, s, 0);
    forall k | 0 <= k < |r.parvas[p].saptahas[s].dinas|
      ensures r.parvas[p].saptahas[s].dinas[k].notes == ""
      ensures r.parvas[p].saptahas[s].dinas[k].dailyIntention == ""
      ensures !r.parvas[p].saptahas[s].dinas[k].isCompleted
    {
      RegeneratedAt(m, holds, p, s, k);
    }
  }

  /**
   * With no holds every regenerated day falls inside its own week, Parva and
   * Maha-Parva: day `(p, s, k)` is dated `startDate + 49 p + 7 s + k`.
   */
  lemma RegeneratedDateInsideWindow(m: MahaParva, p: int, s: int, k: int)
    requires 0 <= p < 7 && 0 <= s < 7 && 0 <= k < 7
    ensures var r := RegenerateWithHolds(m, []);
      && |r.parvas| == 7 && |r.parvas[p].saptahas| == 7 && |r.parvas[p].saptahas[s].dinas| == 7
      && var w, x := r.parvas[p].saptahas[s], r.parvas[p].saptahas[s].dinas[k];
         && x.date == m.startDate + 49 * p + 7 * s + k
         && w.startDate <= x.date <= w.EndDate()
         && r.parvas[p].startDate <= x.date <= r.parvas[p].EndDate()
         && r.startDate <= x.date <= r.EndDate()
  {
    RegeneratedDinaAt(m, [], p, s, k);
    RegeneratedStartDates(m, [], p, s);
  }

  /** The date of day `i + 1` of the rebuilt tree, alone. */
  lemma RegeneratedDate(m: MahaParva, holds: seq<HoldPeriod>, i: int)
    requires 0 <= i < 343
    ensures |RegenerateWithHolds(m, holds).AllDinas()| == 343
    ensures RegenerateWithHolds(m, holds).AllDinas()[i].date == CalculateAdjustedDate(m.startDate + i, holds)
  {
    RegeneratedDates(m, holds, i);
  }

  /** With non-negative holds no regenerated day falls before its unadjusted date. */
  lemma RegeneratedDatesNotEarlier(m: MahaParva, holds: seq<HoldPeriod>, i: int)
    requires NonNegativeHolds(holds)
    requires 0 <= i < 343
    ensures var all := RegenerateWithHolds(m, holds).AllDinas();
      |all| == 343 && m.startDate + i <= all[i].date
  {
    RegeneratedDate(m, holds, i);
  }

  /** With non-negative holds the regenerated dates strictly increase along `allDinas`. */
  lemma RegeneratedDatesIncrease(m: MahaParva, holds: seq<HoldPeriod>, i: int, j: int)
    requires NonNegativeHolds(holds)
    requires 0 <= i < j < 343
    ensures var all := RegenerateWithHolds(m, holds).AllDinas();
      |all| == 343 && all[i].date < all[j].date
  {
    RegeneratedDate(m, holds, i);
    RegeneratedDate(m, holds, j);
    AdjustedDaysIncrease(RegenerateWithHolds(m, holds).AllDinas(), m.startDate, holds, i, j);
  }

  /** Days dated by the adjusted date of their offset from `start` are in increasing date order. */
  lemma AdjustedDaysIncrease(all: seq<Dina>, start: Date, holds: seq<HoldPeriod>, i: int, j: int)
    requires NonNegativeHolds(holds)
    requires 0 <= i < j < |all|
    requires all[i].date == CalculateAdjustedDate(start + i, holds)
    requires all[j].date == CalculateAdjustedDate(start + j, holds)
    ensures all[i].date < all[j].date
  {
    AdjustedStrictlyIncreasing(holds, start + i, start + j);
  }

  /** A week regenerated from the rebuilt tree is the week regenerated from the original. */
  lemma RegeneratedSaptahaStable(m: MahaParva, holds: seq<HoldPeriod>, p: int, s: int)
    requires 0 <= p < 7 && 0 <= s < 7
    ensures RegeneratedSaptaha(RegenerateWithHolds(m, holds), holds, p, s) == RegeneratedSaptaha(m, holds, p, s)
  {
    var once := RegenerateWithHolds(m, holds);
    var a, b := RegeneratedSaptaha(once, holds, p, s), RegeneratedSaptaha(m, holds, p, s);
    forall k | 0 <= k < 7 ensures a.dinas[k] == b.dinas[k] {
      RegeneratedAt(m, holds, p, s, k);
    }
    assert a.dinas == b.dinas;
    RegeneratedAt(m, holds, p, s, 0);
  }

  /** A Parva regenerated from the rebuilt tree is the Parva regenerated from the original. */
  lemma RegeneratedParvaStable(m: MahaParva, holds: seq<HoldPeriod>, p: int)
    requires 0 <= p < 7
    ensures RegeneratedParva(RegenerateWithHolds(m, holds), holds, p) == RegeneratedParva(m, holds, p)
  {
    var once := RegenerateWithHolds(m, holds);
    var a, b := RegeneratedParva(once, holds, p), RegeneratedParva(m, holds, p);
    forall s | 0 <= s < 7 ensures a.saptahas[s] == b.saptahas[s] {
      RegeneratedSaptahaStable(m, holds, p, s);
    }
    assert a.saptahas == b.saptahas;
    RegeneratedAt(m, holds, p, 0, 0);
  }

  /** Regenerating twice with the same holds gives the same tree as regenerating once. */
  lemma RegenerateIdempotent(m: MahaParva, holds: seq<HoldPeriod>)
    ensures var once := RegenerateWithHolds(m, holds);
      RegenerateWithHolds(once, holds) == once
  {
    var once := RegenerateWithHolds(m, holds);
    var twice := RegenerateWithHolds(once, holds);
    forall p | 0 <= p < 7 ensures twice.parvas[p] == once.parvas[p] {
      RegeneratedParvaStable(m, holds, p);
    }
    assert twice.parvas == once.parvas;
  }
}
