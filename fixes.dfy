/** `MahaParvaFixes`: a repair for trees dated by older builds, and the check meant to spot them. */
module Fixes {
  import opened Kotlin
  import opened HoldPeriods
  import opened DateUtils
  import opened Dinas
  import opened Saptahas
  import opened Parvas
  import opened MahaParvas
  import opened Regeneration

  /** `forceRegenerateDates`: regenerate with the holds the record already has. */
  function ForceRegenerateDates(m: MahaParva): MahaParva
  {
    RegenerateWithHolds(m, m.holdPeriods)
  }

  /** `hasCorruptedDates`: some week does not hold exactly seven days. */
  predicate HasCorruptedDates(m: MahaParva)
  {
    exists p, s :: 0 <= p < |m.parvas| && 0 <= s < |m.parvas[p].saptahas| && |m.parvas[p].saptahas[s].dinas| != 7
  }

  /**
   * For seven Parvas of seven weeks, the check reports corruption exactly
   * when the tree is not fully shaped; it never looks at a date.
   */
  lemma CorruptedIffNotShaped(m: MahaParva)
    requires |m.parvas| == 7 && forall p :: 0 <= p < 7 ==> |m.parvas[p].saptahas| == 7
    ensures HasCorruptedDates(m) <==> !Shaped(m)
  {
  }

  /** A tree without Parvas, or whose Parvas have no weeks, is never reported. */
  lemma NoWeeksNotCorrupted(m: MahaParva)
    requires forall p :: 0 <= p < |m.parvas| ==> |m.parvas[p].saptahas| == 0
    ensures !HasCorruptedDates(m)
  {
  }

  /**
   * A freshly created tree passes the check although its day 5 is dated
   * after the end of its week: the check does not detect the doubled dates.
   */
  lemma CreatedDatesUndetected(id: string, title: string, description: string, startDate: Date,
                               email: string, createdAt: Date)
    ensures var m := MahaParvas.Create(id, title, description, startDate, email, createdAt);
      && !HasCorruptedDates(m)
      && m.parvas[0].saptahas[0].dinas[4].date > m.parvas[0].saptahas[0].EndDate()
  {
    CreatedShaped(id, title, description, startDate, email, createdAt);
    CreatedDayFiveOutsideWeek(id, title, description, startDate, email, createdAt);
  }

  /**
   * The repair leaves a tree the check accepts, dated by the adjusted
   * formula from the record's own holds, with every day's content kept when
   * the old tree was shaped.
   */
  lemma ForceRegenerateRepairs(m: MahaParva, i: int)
    requires 0 <= i < 343
    ensures var r := ForceRegenerateDates(m);
      && !HasCorruptedDates(r)
      && r.holdPeriods == m.holdPeriods
      && |r.AllDinas()| == 343
      && r.AllDinas()[i].dayNumber == i + 1
      && r.AllDinas()[i].date == CalculateAdjustedDate(m.startDate + i, m.holdPeriods)
    ensures Shaped(m) ==>
      && |m.AllDinas()| == 343 && |ForceRegenerateDates(m).AllDinas()| == 343
      && var x, y := m.AllDinas()[i], ForceRegenerateDates(m).AllDinas()[i];
         y.dailyIntention == x.dailyIntention && y.notes == x.notes && y.isCompleted == x.isCompleted
  {
    RegeneratedNumbered(m, m.holdPeriods);
    RegeneratedDates(m, m.holdPeriods, i);
    if Shaped(m) {
      RegeneratePreservesDinas(m, m.holdPeriods, i);
    }
  }

  /** Repairing a created tree (no holds yet) dates day `i + 1` at `startDate + i` and keeps it empty. */
  lemma ForceRegenerateCreated(id: string, title: string, description: string, startDate: Date,
                               email: string, createdAt: Date, i: int)
    requires 0 <= i < 343
    ensures var r := ForceRegenerateDates(MahaParvas.Create(id, title, description, startDate, email, createdAt));
      && |r.AllDinas()| == 343
      && r.AllDinas()[i].dayNumber == i + 1
      && r.AllDinas()[i].date == startDate + i
      && r.AllDinas()[i].notes == "" && !r.AllDinas()[i].isCompleted
  {
    var m := MahaParvas.Create(id, title, description, startDate, email, createdAt);
    var p, s, k := i / 49, (i % 49) / 7, i % 7;
    SplitDayIndex(i);
    CreatedShaped(id, title, description, startDate, email, createdAt);
    CreatedDina(id, title, description, startDate, email, createdAt, p, s, k);
    AllDinasAt(m, p, s, k);
    RegeneratedDates(m, [], i);
    RegeneratePreservesDinas(m, [], i);
  }

  /** Repairing twice is the same as repairing once. */
  lemma ForceRegenerateIdempotent(m: MahaParva)
    ensures ForceRegenerateDates(ForceRegenerateDates(m)) == ForceRegenerateDates(m)
  {
    RegenerateIdempotent(m, m.holdPeriods);
  }
}
