/** A complete 343-day Maha-Parva: seven Parvas of seven Saptahas of seven Dinas. */
module MahaParvas {
  import opened Kotlin
  import opened HoldPeriods
  import opened CycleThemes
  import opened Dinas
  import opened Saptahas
  import opened Parvas

  datatype MahaParva = MahaParva(
    id: string,
    title: string,
    description: string,
    startDate: Date,
    parvas: seq<Parva>,
    accountabilityPartnerEmail: string,
    createdAt: Date,
    holdPeriods: seq<HoldPeriod>)   // the pauses taken so far, kept with the stored record
  {
    /** `endDate`: 342 days after the start. */
    function EndDate(): Date
    {
      startDate + 342
    }

    /** `isActive`: today falls within the 343 days, both ends inclusive. */
    predicate IsActive(today: Date)
    {
      !(today < startDate) && !(today > EndDate())
    }

    /** `isCompleted`: today is after the last day. */
    predicate IsCompleted(today: Date)
    {
      today > EndDate()
    }

    /**
     * `currentDayNumber`: null unless active, otherwise the 1-based day
     * `today - startDate + 1` clamped to 1..343 (the clamp never bites).
     */
    function CurrentDayNumber(today: Date): (r: Option<int>)
      ensures r.Some? <==> IsActive(today)
      ensures r.Some? ==> r.value == today - startDate + 1 && 1 <= r.value <= 343
    {
      if !IsActive(today) then None
      else Some(CoerceIn(today - startDate + 1, 1, 343))
    }

    /** `currentParva`: null unless active, otherwise the first active Parva. */
    function CurrentParva(today: Date): (r: Option<Parva>)
      ensures !IsActive(today) ==> r.None?
      ensures r.Some? ==> r.value in parvas && r.value.IsActive(today)
      ensures IsActive(today) && (exists i :: 0 <= i < |parvas| && parvas[i].IsActive(today)) ==> r.Some?
      ensures r.Some? ==> exists i :: 0 <= i < |parvas| && r.value == parvas[i]
                           && forall j :: 0 <= j < i ==> !parvas[j].IsActive(today)
    {
      if IsActive(today) then Find(parvas, (p: Parva) => p.IsActive(today)) else None
    }

    /** `currentSaptaha`: the current Parva's current week, if any. */
    function CurrentSaptaha(today: Date): (r: Option<Saptaha>)
      ensures !IsActive(today) ==> r.None?
      ensures r.Some? ==> CurrentParva(today).Some? && r.value in CurrentParva(today).value.saptahas
      ensures r.Some? ==> r.value.IsActive(today)
      ensures CurrentParva(today).Some? ==>
        var cp := CurrentParva(today).value;
        && ((exists i :: 0 <= i < |cp.saptahas| && cp.saptahas[i].IsActive(today)) ==> r.Some?)
        && (r.Some? ==> exists i :: 0 <= i < |cp.saptahas| && r.value == cp.saptahas[i]
                         && forall j :: 0 <= j < i ==> !cp.saptahas[j].IsActive(today))
    {
      match CurrentParva(today)
      case None => None
      case Some(p) => p.CurrentSaptaha(today)
    }

    /** `allDinas`: every Parva's days, Parva by Parva (`flatMap`). */
    function AllDinas(): seq<Dina>
    {
      Flatten(seq(|parvas|, i requires 0 <= i < |parvas| => parvas[i].AllDinas()))
    }

    /** `currentDina`: the day whose number is the current day number, looked up by number. */
    function CurrentDina(today: Date): (r: Option<Dina>)
      ensures !IsActive(today) ==> r.None?
      ensures r.Some? ==> r.value in AllDinas() && r.value.dayNumber == CurrentDayNumber(today).value
      ensures IsActive(today) && (exists i :: 0 <= i < |AllDinas()| && AllDinas()[i].dayNumber == today - startDate + 1)
              ==> r.Some?
      ensures r.Some? ==> exists i :: 0 <= i < |AllDinas()| && r.value == AllDinas()[i]
                           && forall j :: 0 <= j < i ==> AllDinas()[j].dayNumber != today - startDate + 1
    {
      match CurrentDayNumber(today)
      case None => None
      case Some(d) => Find(AllDinas(), (x: Dina) => x.dayNumber == d)
    }

    /** `progress`: completed over all days, 0 when there are none. */
    function Progress(): (r: real)
      ensures 0.0 <= r <= 1.0
      ensures r == 0.0 <==> forall i :: 0 <= i < |AllDinas()| ==> !AllDinas()[i].isCompleted
      ensures r == 1.0 <==> |AllDinas()| > 0 && forall i :: 0 <= i < |AllDinas()| ==> AllDinas()[i].isCompleted
    {
      Dinas.Progress(AllDinas())
    }
  }

  /** `filter { it.notes.isNotEmpty() }`: each day with notes as often as it occurs, none other. */
  function NotedDinas(dinas: seq<Dina>): (r: seq<Dina>)
    ensures |r| <= |dinas|
    ensures forall i :: 0 <= i < |r| ==> r[i].notes != ""
    ensures |r| == 0 <==> forall i :: 0 <= i < |dinas| ==> dinas[i].notes == ""
  {
    if |dinas| == 0 then []
    else
      (if dinas[0].notes != "" then [dinas[0]] else []) + NotedDinas(dinas[1..])
  }

  /** The filter keeps every day with notes, as often as it occurs, and no other day. */
  lemma {:induction false} NotedDinasMembers(dinas: seq<Dina>)
    ensures forall x :: x in NotedDinas(dinas) <==> x in dinas && x.notes != ""
    ensures forall x :: multiset(NotedDinas(dinas))[x] == if x.notes != "" then multiset(dinas)[x] else 0
  {
    if |dinas| > 0 {
      var head := if dinas[0].notes != "" then [dinas[0]] else [];
      NotedDinasMembers(dinas[1..]);
      assert dinas == [dinas[0]] + dinas[1..];
      assert NotedDinas(dinas) == head + NotedDinas(dinas[1..]);
      assert multiset(NotedDinas(dinas)) == multiset(head) + multiset(NotedDinas(dinas[1..]));
    }
  }

  /** The filter keeps the order: filtering a concatenation concatenates the filtered parts. */
  lemma {:induction false} NotedDinasAppend(a: seq<Dina>, b: seq<Dina>)
    ensures NotedDinas(a + b) == NotedDinas(a) + NotedDinas(b)
    decreases |a|
  {
    if |a| == 0 {
      assert a + b == b;
    } else {
      var head := if a[0].notes != "" then [a[0]] else [];
      assert (a + b)[0] == a[0] && (a + b)[1..] == a[1..] + b;
      assert NotedDinas(a + b) == head + NotedDinas(a[1..] + b);
      assert NotedDinas(a) == head + NotedDinas(a[1..]);
      NotedDinasAppend(a[1..], b);
    }
  }

  /** One journal entry, `Day <n> - <date> - <notes>`; `dateText` renders a date (`LocalDate.toString`). */
  function JournalEntry(x: Dina, dateText: Date -> string): string
  {
    "Day " + IntToString(x.dayNumber) + " - " + dateText(x.date) + " - " + x.notes
  }

  function JournalEntries(noted: seq<Dina>, dateText: Date -> string): seq<string>
  {
    seq(|noted|, i requires 0 <= i < |noted| => JournalEntry(noted[i], dateText))
  }

  /**
   * The journal of a list of days: one entry per day with notes, in list
   * order, separated by a blank line; empty exactly when no day has notes.
   */
  function JournalOf(dinas: seq<Dina>, dateText: Date -> string): (r: string)
    ensures r == "" <==> forall i :: 0 <= i < |dinas| ==> dinas[i].notes == ""
    ensures |NotedDinas(dinas)| == 1 ==> r == JournalEntry(NotedDinas(dinas)[0], dateText)
    ensures |NotedDinas(dinas)| > 1 ==> JournalEntry(NotedDinas(dinas)[0], dateText) + "\n\n" <= r
  {
    var noted := NotedDinas(dinas);
    var entries := JournalEntries(noted, dateText);
    if |entries| > 0 then
      assert "Day "[0] == JournalEntry(noted[0], dateText)[0];
      Join(entries, "\n\n")
    else
      Join(entries, "\n\n")
  }

  /** A single day contributes its entry exactly when it has notes. */
  lemma JournalOfSingle(x: Dina, dateText: Date -> string)
    ensures JournalOf([x], dateText) == if x.notes != "" then JournalEntry(x, dateText) else ""
  {
    if x.notes != "" {
      assert NotedDinas([x]) == [x] + NotedDinas([x][1..]);
      assert NotedDinas([x][1..]) == [];
    }
  }

  /**
   * The journal of two runs of days is the first run's journal, a blank
   * line and the second's, dropping the separator when either run has
   * no notes. With `JournalOfSingle` this fixes the text of every journal.
   */
  lemma JournalOfAppend(a: seq<Dina>, b: seq<Dina>, dateText: Date -> string)
    ensures var ja, jb := JournalOf(a, dateText), JournalOf(b, dateText);
      JournalOf(a + b, dateText) == if ja == "" then jb else if jb == "" then ja else ja + "\n\n" + jb
  {
    var na, nb := NotedDinas(a), NotedDinas(b);
    var ea, eb := JournalEntries(na, dateText), JournalEntries(nb, dateText);
    NotedDinasAppend(a, b);
    JournalEntriesAppend(na, nb, dateText);
    assert JournalOf(a + b, dateText) == Join(ea + eb, "\n\n");
    assert JournalOf(a, dateText) == Join(ea, "\n\n");
    assert JournalOf(b, dateText) == Join(eb, "\n\n");
    if |na| == 0 {
      assert ea + eb == eb;
    } else if |nb| == 0 {
      assert ea + eb == ea;
    } else {
      JoinAppend(ea, eb, "\n\n");
    }
  }

  lemma JournalEntriesAppend(na: seq<Dina>, nb: seq<Dina>, dateText: Date -> string)
    ensures JournalEntries(na + nb, dateText) == JournalEntries(na, dateText) + JournalEntries(nb, dateText)
  {
  }

  /** `getJournal`: the journal of `allDinas`. */
  function GetJournal(m: MahaParva, dateText: Date -> string): (r: string)
    ensures r == "" <==> forall i :: 0 <= i < |m.AllDinas()| ==> m.AllDinas()[i].notes == ""
    ensures var noted := NotedDinas(m.AllDinas());
      && (|noted| == 1 ==> r == JournalEntry(noted[0], dateText))
      && (|noted| > 1 ==> JournalEntry(noted[0], dateText) + "\n\n" <= r)
  {
    JournalOf(m.AllDinas(), dateText)
  }

  /** `isActive` and `isCompleted` in terms of the span; they never hold together. */
  lemma ActiveCompletedExclusive(m: MahaParva, today: Date)
    ensures m.IsActive(today) <==> m.startDate <= today <= m.startDate + 342
    ensures m.IsCompleted(today) <==> today > m.startDate + 342
    ensures !(m.IsActive(today) && m.IsCompleted(today))
  {
  }

  /**
   * The element function of `(1..7).map` in `MahaParva.create`: Parva `p`
   * starts `49 (p - 1)` days on, has theme `fromIndex(p - 1)` and first day
   * `49 (p - 1) + 1`.
   */
  function ParvaMaker(startDate: Date): int -> Result<Parva>
  {
    p =>
      var theme :- CycleThemes.FromIndex(p - 1);
      Parvas.Create(p, theme, startDate + (p - 1) * 49, (p - 1) * 49 + 1)
  }

  /** Parva `p` in 1..7 is created with the `p`-th theme, and that never fails. */
  lemma ParvaMakerAt(startDate: Date, p: int)
    requires 1 <= p <= 7
    ensures ParvaMaker(startDate)(p) == Parvas.Create(p, Values[p - 1], startDate + (p - 1) * 49, (p - 1) * 49 + 1)
    ensures ParvaMaker(startDate)(p).Ok?
  {
    var t := CycleThemes.FromIndex(p - 1);
    assert t == Ok(Values[p - 1]);
  }

  /** The seven Parvas of `MahaParva.create` are always built. */
  lemma BuiltParvas(startDate: Date)
    ensures MapRange(1, 7, ParvaMaker(startDate)).Ok?
    ensures |MapRange(1, 7, ParvaMaker(startDate)).value| == 7
  {
    forall p | 1 <= p <= 7 ensures ParvaMaker(startDate)(p).Ok? {
      ParvaMakerAt(startDate, p);
    }
  }

  /** Element `k` of the built Parvas is Parva `k + 1`. */
  lemma BuiltParvasAt(startDate: Date, k: int)
    requires 0 <= k < 7
    ensures MapRange(1, 7, ParvaMaker(startDate)).Ok?
    ensures var built := MapRange(1, 7, ParvaMaker(startDate)).value;
      |built| == 7 && Parvas.Create(k + 1, Values[k], startDate + 49 * k, 49 * k + 1) == Ok(built[k])
  {
    BuiltParvas(startDate);
    ParvaMakerAt(startDate, 1 + k);
  }

  /**
   * `MahaParva.create`: the seven Parvas, no holds; it never throws. The
   * random id and the creation date are parameters. `CreateIsRangeMap`
   * shows this agrees with the element-by-element `(1..7).map`.
   */
  function Create(id: string, title: string, description: string, startDate: Date,
                  accountabilityPartnerEmail: string, createdAt: Date): (m: MahaParva)
    ensures m.id == id && m.title == title && m.description == description
    ensures m.startDate == startDate && m.accountabilityPartnerEmail == accountabilityPartnerEmail
    ensures m.createdAt == createdAt && m.holdPeriods == []
    ensures |m.parvas| == 7
  {
    var parvas := seq(7, k requires 0 <= k < 7 =>
      Parvas.Create(k + 1, Values[k], startDate + 49 * k, 49 * k + 1).value);
    MahaParva(id, title, description, startDate, parvas, accountabilityPartnerEmail, createdAt, [])
  }

  /** `MahaParva.create` transcribed step by step: map `1..7`, then construct. */
  function RangeMapCreate(id: string, title: string, description: string, startDate: Date,
                          accountabilityPartnerEmail: string, createdAt: Date): Result<MahaParva>
  {
    var parvas :- MapRange(1, 7, ParvaMaker(startDate));
    Ok(MahaParva(id, title, description, startDate, parvas, accountabilityPartnerEmail, createdAt, []))
  }

  /** `Create` is the step-by-step `(1..7).map` followed by the constructor, which never throws. */
  lemma CreateIsRangeMap(id: string, title: string, description: string, startDate: Date,
                         accountabilityPartnerEmail: string, createdAt: Date)
    ensures RangeMapCreate(id, title, description, startDate, accountabilityPartnerEmail, createdAt)
         == Ok(Create(id, title, description, startDate, accountabilityPartnerEmail, createdAt))
  {
    BuiltParvas(startDate);
    var built := MapRange(1, 7, ParvaMaker(startDate));
    var parvas := Create(id, title, description, startDate, accountabilityPartnerEmail, createdAt).parvas;
    forall k | 0 <= k < 7 ensures built.value[k] == parvas[k] {
      BuiltParvasAt(startDate, k);
    }
    assert built.value == parvas;
  }

  /** Seven Parvas of seven weeks of seven days. */
  predicate Shaped(m: MahaParva)
  {
    && |m.parvas| == 7
    && (forall p :: 0 <= p < 7 ==> |m.parvas[p].saptahas| == 7)
    && (forall p, s :: 0 <= p < 7 && 0 <= s < 7 ==> |m.parvas[p].saptahas[s].dinas| == 7)
  }

  /** Shaped, with every node numbered by its position: day `(p, s, k)` is `49 p + 7 s + k + 1`. */
  predicate Numbered(m: MahaParva)
  {
    && Shaped(m)
    && (forall p :: 0 <= p < 7 ==> m.parvas[p].number == p + 1)
    && (forall p, s :: 0 <= p < 7 && 0 <= s < 7 ==> m.parvas[p].saptahas[s].number == s + 1)
    && (forall p, s, k :: 0 <= p < 7 && 0 <= s < 7 && 0 <= k < 7 ==>
          m.parvas[p].saptahas[s].dinas[k].dayNumber == 49 * p + 7 * s + k + 1)
  }

  /** Parva `p` of a created tree is the Parva created as number `p + 1`. */
  lemma CreatedParva(id: string, title: string, description: string, startDate: Date,
                     email: string, createdAt: Date, p: int)
    requires 0 <= p < 7
    ensures var pv := Create(id, title, description, startDate, email, createdAt).parvas[p];
      && Parvas.Create(p + 1, Values[p], startDate + 49 * p, 49 * p + 1) == Ok(pv)
      && pv.number == p + 1 && pv.startDate == startDate + 49 * p && |pv.saptahas| == 7
  {
    var pv := Parvas.Create(p + 1, Values[p], startDate + 49 * p, 49 * p + 1);
    assert Create(id, title, description, startDate, email, createdAt).parvas[p] == pv.value;
  }

  /** Week `s` of Parva `p` of a created tree is the week created as number `s + 1`. */
  lemma CreatedSaptaha(id: string, title: string, description: string, startDate: Date,
                       email: string, createdAt: Date, p: int, s: int)
    requires 0 <= p < 7 && 0 <= s < 7
    ensures var pv := Create(id, title, description, startDate, email, createdAt).parvas[p];
      && |pv.saptahas| == 7
      && Saptahas.Create(s + 1, Values[s], startDate + 49 * p + 7 * s, 49 * p + 7 * s + 1) == Ok(pv.saptahas[s])
      && pv.saptahas[s].number == s + 1 && pv.saptahas[s].startDate == startDate + 49 * p + 7 * s
      && |pv.saptahas[s].dinas| == 7
  {
    CreatedParva(id, title, description, startDate, email, createdAt, p);
    CreatedParvaWeek(Create(id, title, description, startDate, email, createdAt).parvas[p], startDate, p, s);
  }

  /** Week `s` of Parva `p` as `MahaParva.create` builds that Parva. */
  lemma CreatedParvaWeek(pv: Parva, startDate: Date, p: int, s: int)
    requires 0 <= p < 7 && 0 <= s < 7
    requires Parvas.Create(p + 1, Values[p], startDate + 49 * p, 49 * p + 1) == Ok(pv)
    ensures |pv.saptahas| == 7
    ensures Saptahas.Create(s + 1, Values[s], startDate + 49 * p + 7 * s, 49 * p + 7 * s + 1) == Ok(pv.saptahas[s])
    ensures pv.saptahas[s].number == s + 1 && pv.saptahas[s].startDate == startDate + 49 * p + 7 * s
    ensures |pv.saptahas[s].dinas| == 7
  {
    var ps, po := startDate + 49 * p, 49 * p + 1;
    Parvas.CreatedSaptaha(p + 1, Values[p], ps, po, s);
    assert ps + 7 * s == startDate + 49 * p + 7 * s && po + 7 * s == 49 * p + 7 * s + 1;
  }

  /** Day `(p, s, k)` of a created tree, spelled out: its number, its date, its theme and no content. */
  lemma CreatedDina(id: string, title: string, description: string, startDate: Date,
                    email: string, createdAt: Date, p: int, s: int, k: int)
    requires 0 <= p < 7 && 0 <= s < 7 && 0 <= k < 7
    ensures var m := Create(id, title, description, startDate, email, createdAt);
      && |m.parvas[p].saptahas| == 7 && |m.parvas[p].saptahas[s].dinas| == 7
      && var x := m.parvas[p].saptahas[s].dinas[k];
         && x.dayNumber == 49 * p + 7 * s + k + 1
         && x.date == startDate + 2 * (49 * p + 7 * s + k)
         && x.dinaTheme.Ordinal() == k
         && x.dailyIntention == "" && x.notes == "" && !x.isCompleted
  {
    CreatedSaptaha(id, title, description, startDate, email, createdAt, p, s);
    CreatedWeekDina(Create(id, title, description, startDate, email, createdAt).parvas[p].saptahas[s],
                    startDate, p, s, k);
  }

  /** Day `k` of week `(p, s)` as `MahaParva.create` builds that week. */
  lemma CreatedWeekDina(w: Saptaha, startDate: Date, p: int, s: int, k: int)
    requires 0 <= p < 7 && 0 <= s < 7 && 0 <= k < 7
    requires Saptahas.Create(s + 1, Values[s], startDate + 49 * p + 7 * s, 49 * p + 7 * s + 1) == Ok(w)
    ensures |w.dinas| == 7
    ensures var x := w.dinas[k];
      && x.dayNumber == 49 * p + 7 * s + k + 1
      && x.date == startDate + 2 * (49 * p + 7 * s + k)
      && x.dinaTheme.Ordinal() == k
      && x.dailyIntention == "" && x.notes == "" && !x.isCompleted
  {
    var d := 49 * p + 7 * s;
    Saptahas.CreatedDinas(s + 1, Values[s], startDate + d, d + 1, k);
    ModUnique(d + k, 7, 7 * p + s, k);
  }

  /** A created tree has seven Parvas of seven weeks of seven days. */
  lemma CreatedShaped(id: string, title: string, description: string, startDate: Date,
                      email: string, createdAt: Date)
    ensures Shaped(Create(id, title, description, startDate, email, createdAt))
  {
    var m := Create(id, title, description, startDate, email, createdAt);
    forall p | 0 <= p < 7 ensures |m.parvas[p].saptahas| == 7 {
      CreatedParva(id, title, description, startDate, email, createdAt, p);
    }
    forall p, s | 0 <= p < 7 && 0 <= s < 7 ensures |m.parvas[p].saptahas[s].dinas| == 7 {
      CreatedSaptaha(id, title, description, startDate, email, createdAt, p, s);
    }
  }

  /** A created tree is shaped and numbered by position. */
  lemma CreatedNumbered(id: string, title: string, description: string, startDate: Date,
                        email: string, createdAt: Date)
    ensures Numbered(Create(id, title, description, startDate, email, createdAt))
  {
    var m := Create(id, title, description, startDate, email, createdAt);
    forall p | 0 <= p < 7
      ensures |m.parvas[p].saptahas| == 7 && m.parvas[p].number == p + 1
    {
      CreatedParva(id, title, description, startDate, email, createdAt, p);
    }
    forall p, s | 0 <= p < 7 && 0 <= s < 7
      ensures |m.parvas[p].saptahas[s].dinas| == 7 && m.parvas[p].saptahas[s].number == s + 1
    {
      CreatedSaptaha(id, title, description, startDate, email, createdAt, p, s);
    }
    forall p, s, k | 0 <= p < 7 && 0 <= s < 7 && 0 <= k < 7
      ensures m.parvas[p].saptahas[s].dinas[k].dayNumber == 49 * p + 7 * s + k + 1
    {
      CreatedDina(id, title, description, startDate, email, createdAt, p, s, k);
    }
  }

  /** A Parva of seven weeks of seven days lists day `(s, k)` at `7 s + k`. */
  lemma ParvaAllDinasAt(pv: Parva, s: int, k: int)
    requires |pv.saptahas| == 7 && forall j :: 0 <= j < 7 ==> |pv.saptahas[j].dinas| == 7
    requires 0 <= s < 7 && 0 <= k < 7
    ensures |pv.AllDinas()| == 49
    ensures pv.AllDinas()[7 * s + k] == pv.saptahas[s].dinas[k]
  {
    var weeks := seq(|pv.saptahas|, j requires 0 <= j < |pv.saptahas| => pv.saptahas[j].dinas);
    FlattenUniformLength(weeks, 7);
    FlattenUniformAt(weeks, 7, s, k);
  }

  /** In a shaped tree `allDinas` lists day `(p, s, k)` at `49 p + 7 s + k`. */
  lemma AllDinasAt(m: MahaParva, p: int, s: int, k: int)
    requires Shaped(m)
    requires 0 <= p < 7 && 0 <= s < 7 && 0 <= k < 7
    ensures |m.AllDinas()| == 343
    ensures m.AllDinas()[49 * p + 7 * s + k] == m.parvas[p].saptahas[s].dinas[k]
  {
    var months := seq(|m.parvas|, j requires 0 <= j < |m.parvas| => m.parvas[j].AllDinas());
    forall j | 0 <= j < 7 ensures |months[j]| == 49 {
      ParvaAllDinasAt(m.parvas[j], 0, 0);
    }
    ParvaAllDinasAt(m.parvas[p], s, k);
    FlattenUniformLength(months, 49);
    FlattenUniformAt(months, 49, p, 7 * s + k);
    assert 49 * p + (7 * s + k) == 49 * p + 7 * s + k;
  }

  /**
   * In a numbered tree `allDinas` lists day numbers 1..343 in order, and the
   * day numbered `d` sits where its own `parvaNumber`, `saptahaNumber` and
   * `dayInSaptaha` say.
   */
  lemma NumberedAllDinas(m: MahaParva, i: int)
    requires Numbered(m)
    requires 0 <= i < 343
    ensures |m.AllDinas()| == 343
    ensures m.AllDinas()[i].dayNumber == i + 1
    ensures var x := m.AllDinas()[i];
      && x.Valid()
      && x == m.parvas[x.ParvaNumber() - 1].saptahas[x.SaptahaNumber() - 1].dinas[x.DayInSaptaha() - 1]
  {
    var p, s, k := i / 49, (i % 49) / 7, i % 7;
    SplitDayIndex(i);
    AllDinasAt(m, p, s, k);
  }

  /**
   * The built date of day `d` of a created tree is `startDate + 2 (d - 1)`:
   * each week passes `startDate + k` as the start of its `k`-th day, which
   * then adds `d - 1` once more.
   */
  lemma CreatedAllDinas(id: string, title: string, description: string, startDate: Date,
                        email: string, createdAt: Date, i: int)
    requires 0 <= i < 343
    ensures var all := Create(id, title, description, startDate, email, createdAt).AllDinas();
      && |all| == 343
      && all[i].dayNumber == i + 1
      && all[i].date == startDate + 2 * i
  {
    var m := Create(id, title, description, startDate, email, createdAt);
    var p, s, k := i / 49, (i % 49) / 7, i % 7;
    SplitDayIndex(i);
    CreatedShaped(id, title, description, startDate, email, createdAt);
    CreatedDina(id, title, description, startDate, email, createdAt, p, s, k);
    AllDinasAt(m, p, s, k);
  }

  /**
   * As written, a created day lies within its own week's window only for
   * days 1..4, and on or before the Maha-Parva's end date only for days
   * 1..172.
   */
  lemma CreatedDateOutsideWindow(id: string, title: string, description: string, startDate: Date,
                                 email: string, createdAt: Date, i: int)
    requires 0 <= i < 343
    ensures var m := Create(id, title, description, startDate, email, createdAt);
      |m.AllDinas()| == 343 && m.AllDinas()[i].Valid()
    ensures var m := Create(id, title, description, startDate, email, createdAt);
      var x := m.AllDinas()[i];
      var week := m.parvas[x.ParvaNumber() - 1].saptahas[x.SaptahaNumber() - 1];
      week.startDate <= x.date <= week.EndDate() <==> x.dayNumber <= 4
    ensures var m := Create(id, title, description, startDate, email, createdAt);
      m.AllDinas()[i].date <= m.EndDate() <==> m.AllDinas()[i].dayNumber <= 172
  {
    var m := Create(id, title, description, startDate, email, createdAt);
    var p, s, k := i / 49, (i % 49) / 7, i % 7;
    SplitDayIndex(i);
    CreatedShaped(id, title, description, startDate, email, createdAt);
    CreatedSaptaha(id, title, description, startDate, email, createdAt, p, s);
    CreatedDina(id, title, description, startDate, email, createdAt, p, s, k);
    AllDinasAt(m, p, s, k);
    var x := m.AllDinas()[i];
    Dinas.DecompositionOnto(x, p + 1, s + 1, k + 1);
  }

  /** Day 5 of a created tree is dated eight days on, past the end of its week. */
  lemma CreatedDayFiveOutsideWeek(id: string, title: string, description: string, startDate: Date,
                                  email: string, createdAt: Date)
    ensures var m := Create(id, title, description, startDate, email, createdAt);
      && |m.AllDinas()| == 343
      && m.AllDinas()[4].dayNumber == 5
      && m.AllDinas()[4].date == startDate + 8
      && m.parvas[0].saptahas[0].EndDate() == startDate + 6
  {
    CreatedAllDinas(id, title, description, startDate, email, createdAt, 4);
    CreatedDina(id, title, description, startDate, email, createdAt, 0, 0, 4);
  }

  /**
   * The windows of a created tree's Parvas tile its 343 days: the first
   * starts with the Maha-Parva, each starts the day after the previous ends,
   * and the last ends with the Maha-Parva.
   */
  lemma CreatedParvaWindowsTile(id: string, title: string, description: string, startDate: Date,
                                email: string, createdAt: Date)
    ensures var m := Create(id, title, description, startDate, email, createdAt);
      && m.parvas[0].startDate == m.startDate
      && (forall p :: 0 <= p < 6 ==> m.parvas[p + 1].startDate == m.parvas[p].EndDate() + 1)
      && m.parvas[6].EndDate() == m.EndDate()
  {
    var m := Create(id, title, description, startDate, email, createdAt);
    forall p | 0 <= p < 6 ensures m.parvas[p + 1].startDate == m.parvas[p].EndDate() + 1 {
      CreatedParva(id, title, description, startDate, email, createdAt, p);
      CreatedParva(id, title, description, startDate, email, createdAt, p + 1);
    }
    CreatedParva(id, title, description, startDate, email, createdAt, 0);
    CreatedParva(id, title, description, startDate, email, createdAt, 6);
  }

  /** Seven Parvas, Parva `p` starting `49 p` days on and tiled by its weeks. */
  predicate Tiled(m: MahaParva)
  {
    && |m.parvas| == 7
    && forall p :: 0 <= p < 7 ==> m.parvas[p].startDate == m.startDate + 49 * p && Parvas.Tiled(m.parvas[p])
  }

  /** A created tree is tiled. */
  lemma CreatedTiled(id: string, title: string, description: string, startDate: Date,
                     email: string, createdAt: Date)
    ensures Tiled(Create(id, title, description, startDate, email, createdAt))
  {
    var m := Create(id, title, description, startDate, email, createdAt);
    forall p | 0 <= p < 7 ensures m.parvas[p].startDate == m.startDate + 49 * p && Parvas.Tiled(m.parvas[p]) {
      CreatedParva(id, title, description, startDate, email, createdAt, p);
      Parvas.CreatedTiled(p + 1, Values[p], startDate + 49 * p, 49 * p + 1);
    }
  }

  /** In a tiled tree that is active, `currentParva` is Parva `(today - startDate) / 49`. */
  lemma TiledCurrentParva(m: MahaParva, today: Date)
    requires Tiled(m) && m.IsActive(today)
    ensures m.CurrentParva(today) == Some(m.parvas[(today - m.startDate) / 49])
  {
    var p := (today - m.startDate) / 49;
    FindAt(m.parvas, (pv: Parva) => pv.IsActive(today), p);
  }

  /** A day index within the 343 days splits into a Parva, a week within it and a day within that. */
  lemma SplitDayIndex(i: int)
    requires 0 <= i < 343
    ensures i == 49 * (i / 49) + 7 * ((i % 49) / 7) + i % 7
    ensures 0 <= i / 49 < 7 && 0 <= (i % 49) / 7 < 7 && 0 <= i % 7 < 7
  {
    SplitDayOffset(i);
  }

  /** A day offset within the 343 days splits into a Parva index and an offset inside it. */
  lemma SplitDayOffset(n: int)
    requires 0 <= n < 343
    ensures n == 49 * (n / 49) + n % 49 && 0 <= n % 49 < 49 && 0 <= n / 49 < 7
  {
  }

  /**
   * In a tiled tree that is active, `currentSaptaha` is week
   * `((today - startDate) % 49) / 7` of that Parva.
   */
  lemma TiledCurrentSaptaha(m: MahaParva, today: Date)
    requires Tiled(m) && m.IsActive(today)
    ensures var n := today - m.startDate;
      |m.parvas[n / 49].saptahas| == 7
      && m.CurrentSaptaha(today) == Some(m.parvas[n / 49].saptahas[(n % 49) / 7])
  {
    var n := today - m.startDate;
    var p, r := n / 49, n % 49;
    SplitDayOffset(n);
    TiledCurrentParva(m, today);
    var pv := m.parvas[p];
    assert pv.startDate == m.startDate + 49 * p;
    assert today - pv.startDate == r;
    assert pv.IsActive(today);
    Parvas.TiledCurrentSaptaha(pv, today);
  }

  /**
   * In a tiled, numbered tree that is active, `currentParva` is Parva
   * `(currentDayNumber - 1) / 49 + 1` and `currentSaptaha` is its week
   * `((currentDayNumber - 1) % 49) / 7 + 1`.
   */
  lemma TiledCurrentNumbers(m: MahaParva, today: Date)
    requires Tiled(m) && Numbered(m) && m.IsActive(today)
    ensures var d := m.CurrentDayNumber(today).value;
      && m.CurrentParva(today) == Some(m.parvas[(d - 1) / 49])
      && m.CurrentParva(today).value.number == (d - 1) / 49 + 1
      && m.CurrentSaptaha(today).Some?
      && m.CurrentSaptaha(today).value.number == ((d - 1) % 49) / 7 + 1
  {
    TiledCurrentParva(m, today);
    TiledCurrentSaptaha(m, today);
    assert m.CurrentDayNumber(today).value - 1 == today - m.startDate;
  }

  /** The same for a created tree, whose windows tile the span. */
  lemma CreatedCurrentParva(id: string, title: string, description: string, startDate: Date,
                            email: string, createdAt: Date, today: Date)
    requires Create(id, title, description, startDate, email, createdAt).IsActive(today)
    ensures var m := Create(id, title, description, startDate, email, createdAt);
      var d := m.CurrentDayNumber(today).value;
      && m.CurrentParva(today) == Some(m.parvas[(d - 1) / 49])
      && m.CurrentParva(today).value.number == (d - 1) / 49 + 1
      && m.CurrentSaptaha(today).Some?
      && m.CurrentSaptaha(today).value.number == ((d - 1) % 49) / 7 + 1
  {
    CreatedTiled(id, title, description, startDate, email, createdAt);
    CreatedNumbered(id, title, description, startDate, email, createdAt);
    TiledCurrentNumbers(Create(id, title, description, startDate, email, createdAt), today);
  }

  /**
   * In a numbered tree that is active, `currentDina` is the day listed at
   * `today - startDate`, whatever the dates stored in the days.
   */
  lemma NumberedCurrentDina(m: MahaParva, today: Date)
    requires Numbered(m) && m.IsActive(today)
    ensures |m.AllDinas()| == 343
    ensures m.CurrentDina(today) == Some(m.AllDinas()[today - m.startDate])
  {
    var i := today - m.startDate;
    NumberedAllDinas(m, i);
    forall j | 0 <= j < i ensures m.AllDinas()[j].dayNumber != i + 1 {
      NumberedAllDinas(m, j);
    }
    FindAt(m.AllDinas(), (x: Dina) => x.dayNumber == i + 1, i);
  }

  /** In a created tree that is active, today's day is dated `2 today - startDate`, not today. */
  lemma CreatedCurrentDinaDate(id: string, title: string, description: string, startDate: Date,
                               email: string, createdAt: Date, today: Date)
    requires Create(id, title, description, startDate, email, createdAt).IsActive(today)
    ensures var m := Create(id, title, description, startDate, email, createdAt);
      && m.CurrentDina(today).Some?
      && m.CurrentDina(today).value.date == 2 * today - startDate
  {
    var m := Create(id, title, description, startDate, email, createdAt);
    CreatedNumbered(id, title, description, startDate, email, createdAt);
    NumberedCurrentDina(m, today);
    CreatedAllDinas(id, title, description, startDate, email, createdAt, today - startDate);
  }

  /** A new Maha-Parva has made no progress and has an empty journal. */
  lemma CreatedEmpty(id: string, title: string, description: string, startDate: Date,
                     email: string, createdAt: Date, dateText: Date -> string)
    ensures Create(id, title, description, startDate, email, createdAt).Progress() == 0.0
    ensures GetJournal(Create(id, title, description, startDate, email, createdAt), dateText) == ""
  {
    var m := Create(id, title, description, startDate, email, createdAt);
    CreatedShaped(id, title, description, startDate, email, createdAt);
    AllDinasAt(m, 0, 0, 0);
    forall i | 0 <= i < |m.AllDinas()|
      ensures !m.AllDinas()[i].isCompleted && m.AllDinas()[i].notes == ""
    {
      var p, s, k := i / 49, (i % 49) / 7, i % 7;
      SplitDayIndex(i);
      CreatedDina(id, title, description, startDate, email, createdAt, p, s, k);
      AllDinasAt(m, p, s, k);
    }
  }
}
