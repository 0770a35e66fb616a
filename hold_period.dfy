/** A period during which a Maha-Parva was paused (sick days, travel, breaks). */
module HoldPeriods {
  import opened Kotlin

  /** No constructor validation: `days` may be zero or negative. */
  datatype HoldPeriod = HoldPeriod(startDate: Date, days: int, reason: string) {

    /** The last paused day. */
    function EndDate(): Date
    {
      startDate + (days - 1)
    }

    /** Whether `date` falls within the hold, both ends inclusive. */
    predicate Contains(date: Date)
    {
      !(date < startDate) && !(date > EndDate())
    }
  }

  /** `n` consecutive dates from `lo`. */
  function DateRange(lo: Date, n: nat): (r: set<Date>)
    ensures forall x :: x in r <==> lo <= x < lo + n
  {
    if n == 0 then {} else DateRange(lo, n - 1) + {lo + n - 1}
  }

  lemma {:induction false} DateRangeSize(lo: Date, n: nat)
    ensures |DateRange(lo, n)| == n
  {
    if n > 0 {
      var earlier, last := DateRange(lo, n - 1), lo + n - 1;
      DateRangeSize(lo, n - 1);
      assert last !in earlier;
      assert DateRange(lo, n) == earlier + {last};
    }
  }

  /** `contains` holds exactly from `startDate` through `endDate`, and `endDate` lies `days - 1` days on. */
  lemma ContainsIff(h: HoldPeriod, date: Date)
    ensures h.EndDate() - h.startDate == h.days - 1
    ensures h.Contains(date) <==> h.startDate <= date <= h.startDate + h.days - 1
  {
  }

  /** A hold of at least one day contains both of its end points and exactly `days` dates. */
  lemma HoldCoversDays(h: HoldPeriod)
    requires h.days >= 1
    ensures h.Contains(h.startDate) && h.Contains(h.EndDate())
    ensures forall x :: h.Contains(x) <==> x in DateRange(h.startDate, h.days)
    ensures |DateRange(h.startDate, h.days)| == h.days
  {
    DateRangeSize(h.startDate, h.days);
  }

  /** Without validation a hold of zero or fewer days ends before it starts and contains nothing. */
  lemma EmptyHold(h: HoldPeriod)
    requires h.days <= 0
    ensures h.EndDate() < h.startDate
    ensures forall x :: !h.Contains(x)
  {
  }
}
