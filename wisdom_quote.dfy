/** The daily quote: day `N` shows the quote at `(N - 1) % quotes.size`. */
module Wisdom {
  import opened Kotlin

  datatype WisdomType = ZenKoan | Stoic | Buddhist | Tao

  datatype WisdomQuote = WisdomQuote(text: string, author: string, kind: WisdomType)

  /**
   * `getQuoteForDay` over the collection `quotes`: an empty collection
   * divides by zero, and a negative truncated remainder indexes out of bounds.
   */
  function GetQuoteForDay(quotes: seq<WisdomQuote>, dayNumber: Int32): (r: Result<WisdomQuote>)
    ensures |quotes| == 0 ==> r == Err(Arithmetic)
    ensures |quotes| > 0 ==>
      (r.Ok? <==> dayNumber >= 1 || dayNumber == IntMin || (dayNumber - 1) % |quotes| == 0)
    ensures |quotes| > 0 && r.Err? ==> r.error == IndexOutOfBounds
    ensures |quotes| > 0 && dayNumber >= 1 ==> r == Ok(quotes[(dayNumber - 1) % |quotes|])
    ensures |quotes| > 0 && dayNumber == IntMin ==> r == Ok(quotes[IntMax % |quotes|])
    ensures r.Ok? ==> r.value in quotes
  {
    if |quotes| == 0 then Err(Arithmetic)
    else
      RemZeroIff(dayNumber - 1, |quotes|);
      var index := Rem(Dec(dayNumber), |quotes|);
      if 0 <= index < |quotes| then Ok(quotes[index]) else Err(IndexOutOfBounds)
  }

  /** Day 1 shows the first quote. */
  lemma FirstDayFirstQuote(quotes: seq<WisdomQuote>)
    requires |quotes| > 0
    ensures GetQuoteForDay(quotes, 1) == Ok(quotes[0])
  {
  }

  /** The same quote returns after `quotes.size` days. */
  lemma QuotePeriodic(quotes: seq<WisdomQuote>, dayNumber: Int32)
    requires |quotes| > 0 && 1 <= dayNumber <= IntMax - |quotes|
    ensures GetQuoteForDay(quotes, dayNumber + |quotes|) == GetQuoteForDay(quotes, dayNumber)
  {
    ModAddDivisor(dayNumber - 1, |quotes|);
  }

  /** Day 0 of a collection of more than one quote gives index -1 and fails. */
  lemma DayZeroFails(quotes: seq<WisdomQuote>)
    requires |quotes| > 1
    ensures GetQuoteForDay(quotes, 0) == Err(IndexOutOfBounds)
  {
  }
}
