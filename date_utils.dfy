/**
 * The adjusted calendar date of a journey day: every hold that has started
 * on or before the base date pushes it forward by the hold's full length.
 */
module DateUtils {
  import opened Kotlin
  import opened HoldPeriods

  /** The holds whose start is on or before `baseDate` (`filter { !startDate.isAfter(baseDate) }`). */
  function HoldsStartedBy(holds: seq<HoldPeriod>, baseDate: Date): seq<HoldPeriod>
  {
    if |holds| == 0 then []
    else
      (if holds[0].startDate <= baseDate then [holds[0]] else [])
      + HoldsStartedBy(holds[1..], baseDate)
  }

  /** The filter keeps exactly the holds that have started by `baseDate`. */
  lemma {:induction false} HoldsStartedByMembers(holds: seq<HoldPeriod>, baseDate: Date)
    ensures forall h :: h in HoldsStartedBy(holds, baseDate) <==> h in holds && h.startDate <= baseDate
  {
    if |holds| > 0 {
      HoldsStartedByMembers(holds[1..], baseDate);
      assert holds == [holds[0]] + holds[1..];
    }
  }

  /** `sumOf { it.days }`. */
  function SumDays(holds: seq<HoldPeriod>): int
  {
    if |holds| == 0 then 0 else holds[0].days + SumDays(holds[1..])
  }

  /** Every hold lasts at least zero days (the hold dialog only admits positive lengths). */
  predicate NonNegativeHolds(holds: seq<HoldPeriod>)
  {
    forall i :: 0 <= i < |holds| ==> holds[i].days >= 0
  }

  /** The total length of the holds that have started by `baseDate`. */
  function HoldDaysBy(holds: seq<HoldPeriod>, baseDate: Date): int
  {
    SumDays(HoldsStartedBy(holds, baseDate))
  }

  /**
   * `calculateAdjustedDate`. The early return for an empty list agrees
   * with the general formula, and non-negative holds never move a date back.
   */
  function CalculateAdjustedDate(baseDate: Date, holds: seq<HoldPeriod>): (r: Date)
    ensures r == baseDate + HoldDaysBy(holds, baseDate)
    ensures NonNegativeHolds(holds) ==> r >= baseDate
  {
    if |holds| == 0 then baseDate
    else
      HoldDaysNonNegative(holds, baseDate);
      baseDate + HoldDaysBy(holds, baseDate)
  }

  lemma {:induction false} HoldDaysNonNegative(holds: seq<HoldPeriod>, baseDate: Date)
    ensures NonNegativeHolds(holds) ==> HoldDaysBy(holds, baseDate) >= 0
  {
    if |holds| > 0 {
      HoldDaysCons(holds, baseDate);
      HoldDaysNonNegative(holds[1..], baseDate);
      assert NonNegativeHolds(holds) ==> NonNegativeHolds(holds[1..]) by {
        if NonNegativeHolds(holds) {
          forall i | 0 <= i < |holds[1..]| ensures holds[1..][i].days >= 0 {
            assert holds[1..][i] == holds[i + 1];
          }
        }
      }
    }
  }

  /** The first hold's contribution followed by the rest's. */
  lemma HoldDaysCons(holds: seq<HoldPeriod>, baseDate: Date)
    requires |holds| > 0
    ensures HoldDaysBy(holds, baseDate)
         == (if holds[0].startDate <= baseDate then holds[0].days else 0) + HoldDaysBy(holds[1..], baseDate)
  {
    var first := if holds[0].startDate <= baseDate then [holds[0]] else [];
    assert HoldsStartedBy(holds, baseDate) == first + HoldsStartedBy(holds[1..], baseDate);
    SumDaysAppend(first, HoldsStartedBy(holds[1..], baseDate));
    if first != [] {
      assert first[1..] == [];
    }
  }

  lemma {:induction false} SumDaysAppend(a: seq<HoldPeriod>, b: seq<HoldPeriod>)
    ensures SumDays(a + b) == SumDays(a) + SumDays(b)
  {
    if |a| == 0 {
      assert a + b == b;
    } else {
      assert (a + b)[1..] == a[1..] + b;
      SumDaysAppend(a[1..], b);
    }
  }

  lemma {:induction false} HoldsStartedByAppend(a: seq<HoldPeriod>, b: seq<HoldPeriod>, baseDate: Date)
    ensures HoldsStartedBy(a + b, baseDate) == HoldsStartedBy(a, baseDate) + HoldsStartedBy(b, baseDate)
  {
    if |a| == 0 {
      assert a + b == b;
    } else {
      var first := if a[0].startDate <= baseDate then [a[0]] else [];
      assert (a + b)[0] == a[0];
      assert (a + b)[1..] == a[1..] + b;
      HoldsStartedByAppend(a[1..], b, baseDate);
      calc {
        HoldsStartedBy(a + b, baseDate);
        first + HoldsStartedBy(a[1..] + b, baseDate);
        first + (HoldsStartedBy(a[1..], baseDate) + HoldsStartedBy(b, baseDate));
        (first + HoldsStartedBy(a[1..], baseDate)) + HoldsStartedBy(b, baseDate);
        HoldsStartedBy(a, baseDate) + HoldsStartedBy(b, baseDate);
      }
    }
  }

  /** An empty hold list leaves the date unchanged. */
  lemma NoHoldsIdentity(baseDate: Date)
    ensures CalculateAdjustedDate(baseDate, []) == baseDate
  {
  }

  /**
   * Splitting the hold list splits the shift: overlapping holds add up
   * rather than merge.
   */
  lemma AdjustedAppend(baseDate: Date, a: seq<HoldPeriod>, b: seq<HoldPeriod>)
    ensures CalculateAdjustedDate(baseDate, a + b)
         == CalculateAdjustedDate(baseDate, a) + HoldDaysBy(b, baseDate)
  {
    HoldsStartedByAppend(a, b, baseDate);
    SumDaysAppend(HoldsStartedBy(a, baseDate), HoldsStartedBy(b, baseDate));
    assert HoldDaysBy(a + b, baseDate) == HoldDaysBy(a, baseDate) + HoldDaysBy(b, baseDate);
  }

  /** The shift contributed by a single hold: all of it if it has started, none otherwise. */
  lemma SingleHold(baseDate: Date, h: HoldPeriod)
    ensures HoldDaysBy([h], baseDate) == if h.startDate <= baseDate then h.days else 0
  {
    HoldDaysCons([h], baseDate);
    assert [h][1..] == [];
  }

  /** Inserting a hold anywhere adds its full length when it has started by the base date. */
  lemma InsertedHold(baseDate: Date, a: seq<HoldPeriod>, h: HoldPeriod, b: seq<HoldPeriod>)
    ensures CalculateAdjustedDate(baseDate, a + [h] + b)
         == CalculateAdjustedDate(baseDate, a + b) + (if h.startDate <= baseDate then h.days else 0)
  {
    AdjustedAppend(baseDate, a + [h], b);
    AdjustedAppend(baseDate, a, [h]);
    AdjustedAppend(baseDate, a, b);
    SingleHold(baseDate, h);
  }

  /** A hold that starts after the base date has no effect, whether added or removed. */
  lemma LateHoldIgnored(baseDate: Date, a: seq<HoldPeriod>, h: HoldPeriod, b: seq<HoldPeriod>)
    requires h.startDate > baseDate
    ensures CalculateAdjustedDate(baseDate, a + [h] + b) == CalculateAdjustedDate(baseDate, a + b)
  {
    InsertedHold(baseDate, a, h, b);
  }

  /**
   * The example of DateUtils.kt: base day Dec 25 with a 6-day hold from
   * Dec 25 lands on Dec 31 (the start is inclusive).
   */
  lemma HoldStartingOnBaseDate(baseDate: Date, reason: string)
    ensures CalculateAdjustedDate(baseDate, [HoldPeriod(baseDate, 6, reason)]) == baseDate + 6
  {
    SingleHold(baseDate, HoldPeriod(baseDate, 6, reason));
  }

  /** Taking one copy of `a[0]` out of both sides keeps two lists permutations of each other. */
  lemma RemoveMatched(a: seq<HoldPeriod>, b: seq<HoldPeriod>, i: int)
    requires multiset(a) == multiset(b)
    requires |a| > 0 && 0 <= i < |b| && b[i] == a[0]
    ensures multiset(a[1..]) == multiset(b[..i] + b[i + 1..])
  {
    var b1, b2 := b[..i], b[i + 1..];
    assert a == [a[0]] + a[1..];
    assert b == b1 + [b[i]] + b2;
    calc {
      multiset(a[1..]);
      multiset(a) - multiset{a[0]};
      multiset(b) - multiset{b[i]};
      multiset(b1) + multiset(b2);
      multiset(b1 + b2);
    }
  }

  /** A hold inserted anywhere counts once, whether started or not. */
  lemma HoldDaysInserted(baseDate: Date, a: seq<HoldPeriod>, h: HoldPeriod, b: seq<HoldPeriod>)
    ensures HoldDaysBy(a + [h] + b, baseDate)
         == HoldDaysBy(a + b, baseDate) + (if h.startDate <= baseDate then h.days else 0)
  {
    HoldsStartedByAppend(a + [h], b, baseDate);
    HoldsStartedByAppend(a, [h], baseDate);
    HoldsStartedByAppend(a, b, baseDate);
    var sa, sh, sb := HoldsStartedBy(a, baseDate), HoldsStartedBy([h], baseDate), HoldsStartedBy(b, baseDate);
    SumDaysAppend(sa + sh, sb);
    SumDaysAppend(sa, sh);
    SumDaysAppend(sa, sb);
    SingleHold(baseDate, h);
  }

  /** Removing the hold at position `i` takes away its contribution. */
  lemma HoldDaysRemoved(baseDate: Date, b: seq<HoldPeriod>, i: int)
    requires 0 <= i < |b|
    ensures HoldDaysBy(b, baseDate)
         == HoldDaysBy(b[..i] + b[i + 1..], baseDate) + (if b[i].startDate <= baseDate then b[i].days else 0)
  {
    assert b == b[..i] + [b[i]] + b[i + 1..];
    HoldDaysInserted(baseDate, b[..i], b[i], b[i + 1..]);
  }

  /** The started hold days depend only on which holds there are, not on their order. */
  lemma {:induction false} HoldDaysPermutation(baseDate: Date, a: seq<HoldPeriod>, b: seq<HoldPeriod>)
    requires multiset(a) == multiset(b)
    ensures HoldDaysBy(a, baseDate) == HoldDaysBy(b, baseDate)
    decreases |a|
  {
    if |a| == 0 {
      assert |b| == |multiset(b)| == 0;
      assert b == [];
    } else {
      var h := a[0];
      assert h in multiset(b);
      var i :| 0 <= i < |b| && b[i] == h;
      var rest, b1, b2 := a[1..], b[..i], b[i + 1..];
      RemoveMatched(a, b, i);
      HoldDaysPermutation(baseDate, rest, b1 + b2);
      HoldDaysCons(a, baseDate);
      HoldDaysRemoved(baseDate, b, i);
    }
  }

  /** The result depends only on which holds there are, not on their order. */
  lemma OrderIndependent(baseDate: Date, a: seq<HoldPeriod>, b: seq<HoldPeriod>)
    requires multiset(a) == multiset(b)
    ensures CalculateAdjustedDate(baseDate, a) == CalculateAdjustedDate(baseDate, b)
  {
    HoldDaysPermutation(baseDate, a, b);
  }

  /** With non-negative holds a later start never counts fewer hold days. */
  lemma {:induction false} HoldDaysMonotone(holds: seq<HoldPeriod>, d1: Date, d2: Date)
    requires NonNegativeHolds(holds)
    requires d1 <= d2
    ensures HoldDaysBy(holds, d1) <= HoldDaysBy(holds, d2)
  {
    if |holds| > 0 {
      assert NonNegativeHolds(holds[1..]) by {
        forall i | 0 <= i < |holds[1..]| ensures holds[1..][i].days >= 0 {
          assert holds[1..][i] == holds[i + 1];
        }
      }
      HoldDaysMonotone(holds[1..], d1, d2);
      HoldDaysCons(holds, d1);
      HoldDaysCons(holds, d2);
      assert holds[0].days >= 0;
    }
  }

  /** With non-negative holds the adjusted date is strictly increasing in the base date. */
  lemma AdjustedStrictlyIncreasing(holds: seq<HoldPeriod>, d1: Date, d2: Date)
    requires NonNegativeHolds(holds)
    requires d1 < d2
    ensures CalculateAdjustedDate(d1, holds) < CalculateAdjustedDate(d2, holds)
  {
    HoldDaysMonotone(holds, d1, d2);
  }
}
