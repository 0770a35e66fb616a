/**
 * The repository's edits of a stored Maha-Parva. Each loads the record by
 * id, returns early when there is none, rebuilds the tree with one change
 * through nested `map`/`mapIndexed` and `copy`, and saves the result under
 * its id. The store is a map from id to record.
 *
 * `WithDina`, `WithParvaGoal` and `WithSaptahaGoal` are the rebuilt trees;
 * `EditDina`, `EditParvaGoal` and `EditSaptahaGoal` run the rebuild as the
 * source does, where every `copy` re-runs its class's `init` check and may
 * throw, and the `...Result` lemmas connect the two.
 */
module Repository {
  import opened Kotlin
  import opened HoldPeriods
  import opened Dinas
  import opened Saptahas
  import opened Parvas
  import opened MahaParvas
  import Fixes
  import Regeneration

  // ---------------------------------------------------------------------
  // `updateDina`: set intention, notes and completion of the matching day.
  // ---------------------------------------------------------------------

  /** The innermost `map` body: the day with the target number gets the new content. */
  function TouchDina(x: Dina, dayNumber: int, dailyIntention: string, notes: string, isCompleted: bool): Dina
  {
    if x.dayNumber == dayNumber
    then x.(dailyIntention := dailyIntention, notes := notes, isCompleted := isCompleted)
    else x
  }

  /** `saptaha.copy(dinas = saptaha.dinas.map { … })`. */
  function TouchSaptaha(sp: Saptaha, dayNumber: int, dailyIntention: string, notes: string, isCompleted: bool): Saptaha
  {
    sp.(dinas := seq(|sp.dinas|, k requires 0 <= k < |sp.dinas| =>
      TouchDina(sp.dinas[k], dayNumber, dailyIntention, notes, isCompleted)))
  }

  /** `parva.copy(saptahas = parva.saptahas.map { … })`. */
  function TouchParva(pv: Parva, dayNumber: int, dailyIntention: string, notes: string, isCompleted: bool): Parva
  {
    pv.(saptahas := seq(|pv.saptahas|, j requires 0 <= j < |pv.saptahas| =>
      TouchSaptaha(pv.saptahas[j], dayNumber, dailyIntention, notes, isCompleted)))
  }

  /** The tree rebuilt by `updateDina`, when none of its copies throws. */
  function WithDina(m: MahaParva, dayNumber: int, dailyIntention: string, notes: string, isCompleted: bool): MahaParva
  {
    m.(parvas := seq(|m.parvas|, i requires 0 <= i < |m.parvas| =>
      TouchParva(m.parvas[i], dayNumber, dailyIntention, notes, isCompleted)))
  }

  /**
   * The day at any position afterwards: the matching day gets the new
   * intention, notes and completion and keeps its number, date and theme;
   * every other day is unchanged. Parva and Saptaha fields other than their
   * children, the tree shape and the record's own fields are unchanged.
   */
  lemma WithDinaAt(m: MahaParva, dayNumber: int, dailyIntention: string, notes: string, isCompleted: bool,
                   p: int, s: int, k: int)
    requires 0 <= p < |m.parvas| && 0 <= s < |m.parvas[p].saptahas| && 0 <= k < |m.parvas[p].saptahas[s].dinas|
    ensures var r := WithDina(m, dayNumber, dailyIntention, notes, isCompleted);
      && r.(parvas := m.parvas) == m
      && |r.parvas| == |m.parvas|
      && r.parvas[p].(saptahas := m.parvas[p].saptahas) == m.parvas[p]
      && |r.parvas[p].saptahas| == |m.parvas[p].saptahas|
      && r.parvas[p].saptahas[s].(dinas := m.parvas[p].saptahas[s].dinas) == m.parvas[p].saptahas[s]
      && |r.parvas[p].saptahas[s].dinas| == |m.parvas[p].saptahas[s].dinas|
      && var before := m.parvas[p].saptahas[s].dinas[k];
         var after := r.parvas[p].saptahas[s].dinas[k];
         && after.dayNumber == before.dayNumber && after.date == before.date && after.dinaTheme == before.dinaTheme
         && (before.dayNumber == dayNumber ==>
               after.dailyIntention == dailyIntention && after.notes == notes && after.isCompleted == isCompleted)
         && (before.dayNumber != dayNumber ==> after == before)
  {
  }

  /** The shape of the tree, with every Parva's and Saptaha's own fields. */
  lemma WithDinaKeepsShape(m: MahaParva, dayNumber: int, dailyIntention: string, notes: string, isCompleted: bool)
    ensures var r := WithDina(m, dayNumber, dailyIntention, notes, isCompleted);
      && (Shaped(m) <==> Shaped(r))
      && (Numbered(m) <==> Numbered(r))
      && (MahaParvas.Tiled(m) <==> MahaParvas.Tiled(r))
      && Fixes.HasCorruptedDates(m) == Fixes.HasCorruptedDates(r)
  {
    var r := WithDina(m, dayNumber, dailyIntention, notes, isCompleted);
    forall p | 0 <= p < |m.parvas|
      ensures r.parvas[p].number == m.parvas[p].number && r.parvas[p].startDate == m.parvas[p].startDate
      ensures |r.parvas[p].saptahas| == |m.parvas[p].saptahas|
    {
    }
    forall p, s | 0 <= p < |m.parvas| && 0 <= s < |m.parvas[p].saptahas|
      ensures r.parvas[p].saptahas[s].number == m.parvas[p].saptahas[s].number
      ensures r.parvas[p].saptahas[s].startDate == m.parvas[p].saptahas[s].startDate
      ensures |r.parvas[p].saptahas[s].dinas| == |m.parvas[p].saptahas[s].dinas|
    {
    }
    forall p, s, k | 0 <= p < |m.parvas| && 0 <= s < |m.parvas[p].saptahas| && 0 <= k < |m.parvas[p].saptahas[s].dinas|
      ensures r.parvas[p].saptahas[s].dinas[k].dayNumber == m.parvas[p].saptahas[s].dinas[k].dayNumber
    {
    }
  }

  /**
   * If no day has the target number, the tree is unchanged; `updateDina`
   * still copies every Parva and week, so it throws when one of them fails
   * its check.
   */
  lemma WithDinaNoMatch(m: MahaParva, dayNumber: int, dailyIntention: string, notes: string, isCompleted: bool)
    requires forall p, s, k ::
      0 <= p < |m.parvas| && 0 <= s < |m.parvas[p].saptahas| && 0 <= k < |m.parvas[p].saptahas[s].dinas| ==>
        m.parvas[p].saptahas[s].dinas[k].dayNumber != dayNumber
    ensures WithDina(m, dayNumber, dailyIntention, notes, isCompleted) == m
    ensures EditDina(m, dayNumber, dailyIntention, notes, isCompleted)
              == (if NodesValid(m) then Ok(m) else Err(IllegalArgument))
  {
    EditDinaResult(m, dayNumber, dailyIntention, notes, isCompleted);
    var r := WithDina(m, dayNumber, dailyIntention, notes, isCompleted);
    forall p | 0 <= p < |m.parvas| ensures r.parvas[p] == m.parvas[p] {
      forall s | 0 <= s < |m.parvas[p].saptahas| ensures r.parvas[p].saptahas[s] == m.parvas[p].saptahas[s] {
        assert r.parvas[p].saptahas[s].dinas == m.parvas[p].saptahas[s].dinas;
      }
      assert r.parvas[p].saptahas == m.parvas[p].saptahas;
    }
    assert r.parvas == m.parvas;
  }

  /** Applying the same update twice is the same as applying it once. */
  lemma WithDinaIdempotent(m: MahaParva, dayNumber: int, dailyIntention: string, notes: string, isCompleted: bool)
    ensures var once := WithDina(m, dayNumber, dailyIntention, notes, isCompleted);
      WithDina(once, dayNumber, dailyIntention, notes, isCompleted) == once
  {
    var once := WithDina(m, dayNumber, dailyIntention, notes, isCompleted);
    var twice := WithDina(once, dayNumber, dailyIntention, notes, isCompleted);
    forall p | 0 <= p < |once.parvas| ensures twice.parvas[p] == once.parvas[p] {
      forall s | 0 <= s < |once.parvas[p].saptahas|
        ensures twice.parvas[p].saptahas[s] == once.parvas[p].saptahas[s]
      {
        assert twice.parvas[p].saptahas[s].dinas == once.parvas[p].saptahas[s].dinas;
      }
      assert twice.parvas[p].saptahas == once.parvas[p].saptahas;
    }
    assert twice.parvas == once.parvas;
  }

  /** Seen through `allDinas`, the update maps `TouchDina` over every day, in place. */
  lemma WithDinaAllDinas(m: MahaParva, dayNumber: int, dailyIntention: string, notes: string, isCompleted: bool)
    ensures var r := WithDina(m, dayNumber, dailyIntention, notes, isCompleted);
      && |r.AllDinas()| == |m.AllDinas()|
      && forall n :: 0 <= n < |m.AllDinas()| ==>
           r.AllDinas()[n] == TouchDina(m.AllDinas()[n], dayNumber, dailyIntention, notes, isCompleted)
  {
    var r := WithDina(m, dayNumber, dailyIntention, notes, isCompleted);
    var f := (x: Dina) => TouchDina(x, dayNumber, dailyIntention, notes, isCompleted);
    var olds := seq(|m.parvas|, i requires 0 <= i < |m.parvas| => m.parvas[i].AllDinas());
    var news := seq(|r.parvas|, i requires 0 <= i < |r.parvas| => r.parvas[i].AllDinas());
    forall i | 0 <= i < |olds|
      ensures |news[i]| == |olds[i]|
      ensures forall n :: 0 <= n < |olds[i]| ==> news[i][n] == f(olds[i][n])
    {
      var pv, pv' := m.parvas[i], r.parvas[i];
      var ow := seq(|pv.saptahas|, j requires 0 <= j < |pv.saptahas| => pv.saptahas[j].dinas);
      var nw := seq(|pv'.saptahas|, j requires 0 <= j < |pv'.saptahas| => pv'.saptahas[j].dinas);
      FlattenMap(ow, nw, f);
    }
    FlattenMap(olds, news, f);
  }


  // `updateDina` as it runs: each `copy` builds a new object, so its class's
  // `init` check runs again and may throw. `Gson` builds stored records
  // without the constructor, so an imported record may hold numbers the
  // checks reject.

  /** The innermost `map` body with its `dina.copy`, checked again. */
  function CopyDina(x: Dina, dayNumber: int, dailyIntention: string, notes: string, isCompleted: bool): Result<Dina>
  {
    if x.dayNumber == dayNumber
    then NewDina(x.dayNumber, x.date, x.dinaTheme, dailyIntention, notes, isCompleted)
    else Ok(x)
  }

  /** `saptaha.copy(dinas = saptaha.dinas.map { … })`, checked again. */
  function CopySaptaha(sp: Saptaha, dayNumber: int, dailyIntention: string, notes: string, isCompleted: bool): Result<Saptaha>
  {
    var dinas :- MapAll(sp.dinas, (x: Dina) => CopyDina(x, dayNumber, dailyIntention, notes, isCompleted));
    NewSaptaha(sp.number, sp.theme, sp.startDate, dinas, sp.customGoal)
  }

  /** `parva.copy(saptahas = parva.saptahas.map { … })`, checked again. */
  function CopyParva(pv: Parva, dayNumber: int, dailyIntention: string, notes: string, isCompleted: bool): Result<Parva>
  {
    var saptahas :- MapAll(pv.saptahas, (sp: Saptaha) => CopySaptaha(sp, dayNumber, dailyIntention, notes, isCompleted));
    NewParva(pv.number, pv.theme, pv.startDate, saptahas, pv.customGoal)
  }

  /** The rebuild of `updateDina`, or the exception of the first copy that fails. */
  function EditDina(m: MahaParva, dayNumber: int, dailyIntention: string, notes: string, isCompleted: bool): Result<MahaParva>
  {
    var parvas :- MapAll(m.parvas, (pv: Parva) => CopyParva(pv, dayNumber, dailyIntention, notes, isCompleted));
    Ok(m.(parvas := parvas))
  }

  /** Every Parva and every week of the tree passes its class's `init` check. */
  predicate NodesValid(m: MahaParva)
  {
    && (forall p :: 0 <= p < |m.parvas| ==> m.parvas[p].Valid())
    && (forall p, s :: 0 <= p < |m.parvas| && 0 <= s < |m.parvas[p].saptahas| ==> m.parvas[p].saptahas[s].Valid())
  }

  /** Some day of the tree has the number. */
  predicate HasDay(m: MahaParva, dayNumber: int)
  {
    exists p, s, k :: 0 <= p < |m.parvas| && 0 <= s < |m.parvas[p].saptahas| && 0 <= k < |m.parvas[p].saptahas[s].dinas|
      && m.parvas[p].saptahas[s].dinas[k].dayNumber == dayNumber
  }

  /**
   * The checks `updateDina`'s copies run all pass: every Parva and week is
   * copied, and a matching day is copied with the target number.
   */
  predicate DinaCopiesPass(m: MahaParva, dayNumber: int)
  {
    NodesValid(m) && (HasDay(m, dayNumber) ==> 1 <= dayNumber <= 343)
  }

  /** One week: its copy succeeds, with the edited days, exactly when its checks pass. */
  lemma CopySaptahaResult(sp: Saptaha, dayNumber: int, dailyIntention: string, notes: string, isCompleted: bool)
    ensures var r := CopySaptaha(sp, dayNumber, dailyIntention, notes, isCompleted);
      && (r.Ok? <==> sp.Valid() && ((exists k :: 0 <= k < |sp.dinas| && sp.dinas[k].dayNumber == dayNumber) ==> 1 <= dayNumber <= 343))
      && (r.Ok? ==> r.value == TouchSaptaha(sp, dayNumber, dailyIntention, notes, isCompleted))
      && (r.Err? ==> r.error == IllegalArgument)
  {
    var f := (x: Dina) => CopyDina(x, dayNumber, dailyIntention, notes, isCompleted);
    var ds := MapAll(sp.dinas, f);
    if ds.Ok? {
      var t := TouchSaptaha(sp, dayNumber, dailyIntention, notes, isCompleted);
      forall k | 0 <= k < |sp.dinas| ensures ds.value[k] == t.dinas[k] {
        assert f(sp.dinas[k]) == Ok(ds.value[k]);
      }
      assert ds.value == t.dinas;
    } else {
      var k :| 0 <= k < |sp.dinas| && f(sp.dinas[k]) == Err(ds.error);
      assert sp.dinas[k].dayNumber == dayNumber && !(1 <= dayNumber <= 343);
    }
  }

  /** One Parva: its copy succeeds, with the edited weeks, exactly when its checks pass. */
  lemma CopyParvaResult(pv: Parva, dayNumber: int, dailyIntention: string, notes: string, isCompleted: bool)
    ensures var r := CopyParva(pv, dayNumber, dailyIntention, notes, isCompleted);
      && (r.Ok? <==> pv.Valid() && (forall s :: 0 <= s < |pv.saptahas| ==> pv.saptahas[s].Valid())
                     && ((exists s, k :: 0 <= s < |pv.saptahas| && 0 <= k < |pv.saptahas[s].dinas|
                            && pv.saptahas[s].dinas[k].dayNumber == dayNumber) ==> 1 <= dayNumber <= 343))
      && (r.Ok? ==> r.value == TouchParva(pv, dayNumber, dailyIntention, notes, isCompleted))
      && (r.Err? ==> r.error == IllegalArgument)
  {
    var f := (sp: Saptaha) => CopySaptaha(sp, dayNumber, dailyIntention, notes, isCompleted);
    var ws := MapAll(pv.saptahas, f);
    forall s | 0 <= s < |pv.saptahas| {
      CopySaptahaResult(pv.saptahas[s], dayNumber, dailyIntention, notes, isCompleted);
    }
    if ws.Ok? {
      var t := TouchParva(pv, dayNumber, dailyIntention, notes, isCompleted);
      forall s | 0 <= s < |pv.saptahas| ensures ws.value[s] == t.saptahas[s] {
        assert f(pv.saptahas[s]) == Ok(ws.value[s]);
      }
      assert ws.value == t.saptahas;
    } else {
      var s :| 0 <= s < |pv.saptahas| && f(pv.saptahas[s]) == Err(ws.error);
    }
  }

  /**
   * `updateDina` succeeds exactly when its copies' checks pass, and then
   * yields the rebuilt tree `WithDina`; otherwise it throws
   * `IllegalArgumentException`.
   */
  lemma EditDinaResult(m: MahaParva, dayNumber: int, dailyIntention: string, notes: string, isCompleted: bool)
    ensures var r := EditDina(m, dayNumber, dailyIntention, notes, isCompleted);
      && (r.Ok? <==> DinaCopiesPass(m, dayNumber))
      && (r.Ok? ==> r.value == WithDina(m, dayNumber, dailyIntention, notes, isCompleted))
      && (r.Err? ==> r.error == IllegalArgument)
  {
    var f := (pv: Parva) => CopyParva(pv, dayNumber, dailyIntention, notes, isCompleted);
    var ps := MapAll(m.parvas, f);
    forall p | 0 <= p < |m.parvas| {
      CopyParvaResult(m.parvas[p], dayNumber, dailyIntention, notes, isCompleted);
    }
    if ps.Ok? {
      var t := WithDina(m, dayNumber, dailyIntention, notes, isCompleted);
      forall p | 0 <= p < |m.parvas| ensures ps.value[p] == t.parvas[p] {
        assert f(m.parvas[p]) == Ok(ps.value[p]);
      }
      assert ps.value == t.parvas;
    } else {
      var p :| 0 <= p < |m.parvas| && f(m.parvas[p]) == Err(ps.error);
    }
  }

  // ---------------------------------------------------------------------
  // `updateParvaGoal`: set the goal of the Parva at a 0-based index.
  // ---------------------------------------------------------------------

  /** The tree rebuilt by `updateParvaGoal`, when its copy does not throw. */
  function WithParvaGoal(m: MahaParva, parvaIndex: int, goal: string): MahaParva
  {
    m.(parvas := seq(|m.parvas|, i requires 0 <= i < |m.parvas| =>
      if i == parvaIndex then m.parvas[i].(customGoal := goal) else m.parvas[i]))
  }

  /**
   * Only the goal of the Parva at `parvaIndex` changes; every other Parva,
   * every week and every day is unchanged, and an index outside the list
   * changes nothing.
   */
  lemma WithParvaGoalOnly(m: MahaParva, parvaIndex: int, goal: string)
    ensures var r := WithParvaGoal(m, parvaIndex, goal);
      && r.(parvas := m.parvas) == m
      && |r.parvas| == |m.parvas|
      && (forall i :: 0 <= i < |m.parvas| && i != parvaIndex ==> r.parvas[i] == m.parvas[i])
      && (0 <= parvaIndex < |m.parvas| ==>
            r.parvas[parvaIndex].customGoal == goal
            && r.parvas[parvaIndex].(customGoal := m.parvas[parvaIndex].customGoal) == m.parvas[parvaIndex])
      && (!(0 <= parvaIndex < |m.parvas|) ==> r == m)
    ensures !(0 <= parvaIndex < |m.parvas|) ==> EditParvaGoal(m, parvaIndex, goal) == Ok(m)
  {
    EditParvaGoalResult(m, parvaIndex, goal);
    var r := WithParvaGoal(m, parvaIndex, goal);
    if !(0 <= parvaIndex < |m.parvas|) {
      assert r.parvas == m.parvas;
    }
  }

  /** Setting a Parva goal leaves every day untouched. */
  lemma WithParvaGoalKeepsDinas(m: MahaParva, parvaIndex: int, goal: string)
    ensures WithParvaGoal(m, parvaIndex, goal).AllDinas() == m.AllDinas()
  {
    var r := WithParvaGoal(m, parvaIndex, goal);
    var olds := seq(|m.parvas|, i requires 0 <= i < |m.parvas| => m.parvas[i].AllDinas());
    var news := seq(|r.parvas|, i requires 0 <= i < |r.parvas| => r.parvas[i].AllDinas());
    assert olds == news;
  }


  /** The rebuild of `updateParvaGoal` as it runs: `parva.copy(customGoal = goal)` checks the Parva again. */
  function EditParvaGoal(m: MahaParva, parvaIndex: int, goal: string): Result<MahaParva>
  {
    var parvas :- MapIndexed(m.parvas, (i: int, pv: Parva) =>
      if i == parvaIndex then NewParva(pv.number, pv.theme, pv.startDate, pv.saptahas, goal) else Ok(pv));
    Ok(m.(parvas := parvas))
  }

  /** The one check `updateParvaGoal`'s copy runs passes (or no copy is made). */
  predicate ParvaGoalCopyPasses(m: MahaParva, parvaIndex: int)
  {
    0 <= parvaIndex < |m.parvas| ==> m.parvas[parvaIndex].Valid()
  }

  /**
   * `updateParvaGoal` succeeds exactly when its copy's check passes, and
   * then yields `WithParvaGoal`; otherwise it throws `IllegalArgumentException`.
   */
  lemma EditParvaGoalResult(m: MahaParva, parvaIndex: int, goal: string)
    ensures var r := EditParvaGoal(m, parvaIndex, goal);
      && (r.Ok? <==> ParvaGoalCopyPasses(m, parvaIndex))
      && (r.Ok? ==> r.value == WithParvaGoal(m, parvaIndex, goal))
      && (r.Err? ==> r.error == IllegalArgument)
  {
    var f := (i: int, pv: Parva) =>
      if i == parvaIndex then NewParva(pv.number, pv.theme, pv.startDate, pv.saptahas, goal) else Ok(pv);
    var ps := MapIndexed(m.parvas, f);
    if ps.Ok? {
      var t := WithParvaGoal(m, parvaIndex, goal);
      forall p | 0 <= p < |m.parvas| ensures ps.value[p] == t.parvas[p] {
        assert f(p, m.parvas[p]) == Ok(ps.value[p]);
      }
      assert ps.value == t.parvas;
    } else {
      var p :| 0 <= p < |m.parvas| && f(p, m.parvas[p]) == Err(ps.error);
    }
  }

  // ---------------------------------------------------------------------
  // `updateSaptahaGoal`: set the goal of the week at (parva, week) indices.
  // ---------------------------------------------------------------------

  /** The tree rebuilt by `updateSaptahaGoal`, when its copies do not throw. */
  function WithSaptahaGoal(m: MahaParva, parvaIndex: int, saptahaIndex: int, goal: string): MahaParva
  {
    m.(parvas := seq(|m.parvas|, i requires 0 <= i < |m.parvas| =>
      if i == parvaIndex then
        var pv := m.parvas[i];
        pv.(saptahas := seq(|pv.saptahas|, j requires 0 <= j < |pv.saptahas| =>
          if j == saptahaIndex then pv.saptahas[j].(customGoal := goal) else pv.saptahas[j]))
      else m.parvas[i]))
  }

  /**
   * Only the goal of the week at (`parvaIndex`, `saptahaIndex`) changes;
   * every other node is unchanged, and indices outside the lists change
   * nothing.
   */
  lemma WithSaptahaGoalOnly(m: MahaParva, parvaIndex: int, saptahaIndex: int, goal: string, p: int, s: int)
    requires 0 <= p < |m.parvas| && 0 <= s < |m.parvas[p].saptahas|
    ensures var r := WithSaptahaGoal(m, parvaIndex, saptahaIndex, goal);
      && r.(parvas := m.parvas) == m
      && |r.parvas| == |m.parvas|
      && r.parvas[p].(saptahas := m.parvas[p].saptahas) == m.parvas[p]
      && |r.parvas[p].saptahas| == |m.parvas[p].saptahas|
      && (p == parvaIndex && s == saptahaIndex ==>
            r.parvas[p].saptahas[s].customGoal == goal
            && r.parvas[p].saptahas[s].(customGoal := m.parvas[p].saptahas[s].customGoal) == m.parvas[p].saptahas[s])
      && (!(p == parvaIndex && s == saptahaIndex) ==> r.parvas[p].saptahas[s] == m.parvas[p].saptahas[s])
  {
  }

  /**
   * Indices outside the lists change nothing; with the Parva index in range
   * `updateSaptahaGoal` still copies that Parva, so it throws when the
   * Parva fails its check.
   */
  lemma WithSaptahaGoalOutOfRange(m: MahaParva, parvaIndex: int, saptahaIndex: int, goal: string)
    requires !(0 <= parvaIndex < |m.parvas| && 0 <= saptahaIndex < |m.parvas[parvaIndex].saptahas|)
    ensures WithSaptahaGoal(m, parvaIndex, saptahaIndex, goal) == m
    ensures EditSaptahaGoal(m, parvaIndex, saptahaIndex, goal)
              == (if !(0 <= parvaIndex < |m.parvas|) || m.parvas[parvaIndex].Valid() then Ok(m) else Err(IllegalArgument))
  {
    EditSaptahaGoalResult(m, parvaIndex, saptahaIndex, goal);
    var r := WithSaptahaGoal(m, parvaIndex, saptahaIndex, goal);
    if 0 <= parvaIndex < |m.parvas| {
      assert r.parvas[parvaIndex].saptahas == m.parvas[parvaIndex].saptahas;
    }
    assert r.parvas == m.parvas;
  }

  /** Setting a week's goal leaves every day untouched. */
  lemma WithSaptahaGoalKeepsDinas(m: MahaParva, parvaIndex: int, saptahaIndex: int, goal: string)
    ensures WithSaptahaGoal(m, parvaIndex, saptahaIndex, goal).AllDinas() == m.AllDinas()
  {
    var r := WithSaptahaGoal(m, parvaIndex, saptahaIndex, goal);
    var olds := seq(|m.parvas|, i requires 0 <= i < |m.parvas| => m.parvas[i].AllDinas());
    var news := seq(|r.parvas|, i requires 0 <= i < |r.parvas| => r.parvas[i].AllDinas());
    forall i | 0 <= i < |olds| ensures news[i] == olds[i] {
      var pv, pv' := m.parvas[i], r.parvas[i];
      var ow := seq(|pv.saptahas|, j requires 0 <= j < |pv.saptahas| => pv.saptahas[j].dinas);
      var nw := seq(|pv'.saptahas|, j requires 0 <= j < |pv'.saptahas| => pv'.saptahas[j].dinas);
      assert ow == nw;
    }
    assert olds == news;
  }


  /**
   * The `pIdx == parvaIndex` branch of `updateSaptahaGoal` as it runs:
   * `saptaha.copy(customGoal = goal)` and then `parva.copy(...)`, each
   * checked again.
   */
  function CopyParvaWeekGoal(pv: Parva, saptahaIndex: int, goal: string): Result<Parva>
  {
    var saptahas :- MapIndexed(pv.saptahas, (j: int, sp: Saptaha) =>
      if j == saptahaIndex then NewSaptaha(sp.number, sp.theme, sp.startDate, sp.dinas, goal) else Ok(sp));
    NewParva(pv.number, pv.theme, pv.startDate, saptahas, pv.customGoal)
  }

  /** The rebuild of `updateSaptahaGoal`, or the exception of the copy that fails. */
  function EditSaptahaGoal(m: MahaParva, parvaIndex: int, saptahaIndex: int, goal: string): Result<MahaParva>
  {
    var parvas :- MapIndexed(m.parvas, (i: int, pv: Parva) =>
      if i == parvaIndex then CopyParvaWeekGoal(pv, saptahaIndex, goal) else Ok(pv));
    Ok(m.(parvas := parvas))
  }

  /**
   * The checks `updateSaptahaGoal`'s copies run pass: the indexed Parva is
   * copied whenever it exists, even if the week index is out of range, and
   * the indexed week when it exists.
   */
  predicate SaptahaGoalCopiesPass(m: MahaParva, parvaIndex: int, saptahaIndex: int)
  {
    0 <= parvaIndex < |m.parvas| ==>
      && m.parvas[parvaIndex].Valid()
      && (0 <= saptahaIndex < |m.parvas[parvaIndex].saptahas| ==> m.parvas[parvaIndex].saptahas[saptahaIndex].Valid())
  }

  /** One Parva: the copy succeeds, with the one goal set, exactly when its checks pass. */
  lemma CopyParvaWeekGoalResult(pv: Parva, saptahaIndex: int, goal: string)
    ensures var r := CopyParvaWeekGoal(pv, saptahaIndex, goal);
      && (r.Ok? <==> pv.Valid() && (0 <= saptahaIndex < |pv.saptahas| ==> pv.saptahas[saptahaIndex].Valid()))
      && (r.Ok? ==> r.value == pv.(saptahas := seq(|pv.saptahas|, j requires 0 <= j < |pv.saptahas| =>
                      if j == saptahaIndex then pv.saptahas[j].(customGoal := goal) else pv.saptahas[j])))
      && (r.Err? ==> r.error == IllegalArgument)
  {
    var f := (j: int, sp: Saptaha) =>
      if j == saptahaIndex then NewSaptaha(sp.number, sp.theme, sp.startDate, sp.dinas, goal) else Ok(sp);
    var ws := MapIndexed(pv.saptahas, f);
    if ws.Ok? {
      var t := seq(|pv.saptahas|, j requires 0 <= j < |pv.saptahas| =>
        if j == saptahaIndex then pv.saptahas[j].(customGoal := goal) else pv.saptahas[j]);
      forall s | 0 <= s < |pv.saptahas| ensures ws.value[s] == t[s] {
        assert f(s, pv.saptahas[s]) == Ok(ws.value[s]);
      }
      assert ws.value == t;
    } else {
      var s :| 0 <= s < |pv.saptahas| && f(s, pv.saptahas[s]) == Err(ws.error);
    }
  }

  /**
   * `updateSaptahaGoal` succeeds exactly when its copies' checks pass, and
   * then yields `WithSaptahaGoal`; otherwise it throws `IllegalArgumentException`.
   */
  lemma EditSaptahaGoalResult(m: MahaParva, parvaIndex: int, saptahaIndex: int, goal: string)
    ensures var r := EditSaptahaGoal(m, parvaIndex, saptahaIndex, goal);
      && (r.Ok? <==> SaptahaGoalCopiesPass(m, parvaIndex, saptahaIndex))
      && (r.Ok? ==> r.value == WithSaptahaGoal(m, parvaIndex, saptahaIndex, goal))
      && (r.Err? ==> r.error == IllegalArgument)
  {
    var f := (i: int, pv: Parva) =>
      if i == parvaIndex then CopyParvaWeekGoal(pv, saptahaIndex, goal) else Ok(pv);
    var ps := MapIndexed(m.parvas, f);
    if 0 <= parvaIndex < |m.parvas| {
      CopyParvaWeekGoalResult(m.parvas[parvaIndex], saptahaIndex, goal);
    }
    if ps.Ok? {
      var t := WithSaptahaGoal(m, parvaIndex, saptahaIndex, goal);
      forall p | 0 <= p < |m.parvas| ensures ps.value[p] == t.parvas[p] {
        assert f(p, m.parvas[p]) == Ok(ps.value[p]);
      }
      assert ps.value == t.parvas;
    } else {
      var p :| 0 <= p < |m.parvas| && f(p, m.parvas[p]) == Err(ps.error);
    }
  }

  // ---------------------------------------------------------------------
  // The store and the four repository operations.
  // ---------------------------------------------------------------------

  /** The saved records, by id (the database behind the DAO). */
  type Store = map<string, MahaParva>

  /** Every record is filed under its own id. */
  predicate Keyed(store: Store)
  {
    forall id :: id in store ==> store[id].id == id
  }

  /** `saveMahaParva`: insert or replace under the record's id. */
  function Save(store: Store, m: MahaParva): (r: Store)
    ensures Keyed(store) ==> Keyed(r)
    ensures m.id in r && r[m.id] == m
    ensures forall id :: id != m.id ==> (id in r <==> id in store) && (id in store ==> r[id] == store[id])
  {
    store[m.id := m]
  }

  /** `updateDina`: an unknown id returns early; a copy that throws saves nothing. */
  function UpdateDina(store: Store, mahaParvaId: string, dayNumber: int,
                      dailyIntention: string, notes: string, isCompleted: bool): Result<Store>
  {
    if mahaParvaId !in store then Ok(store)
    else
      var m :- EditDina(store[mahaParvaId], dayNumber, dailyIntention, notes, isCompleted);
      Ok(Save(store, m))
  }

  /** `updateParvaGoal`. */
  function UpdateParvaGoal(store: Store, mahaParvaId: string, parvaIndex: int, goal: string): Result<Store>
  {
    if mahaParvaId !in store then Ok(store)
    else
      var m :- EditParvaGoal(store[mahaParvaId], parvaIndex, goal);
      Ok(Save(store, m))
  }

  /** `updateSaptahaGoal`. */
  function UpdateSaptahaGoal(store: Store, mahaParvaId: string, parvaIndex: int, saptahaIndex: int,
                             goal: string): Result<Store>
  {
    if mahaParvaId !in store then Ok(store)
    else
      var m :- EditSaptahaGoal(store[mahaParvaId], parvaIndex, saptahaIndex, goal);
      Ok(Save(store, m))
  }

  /** `updateHoldPeriods`: the stored record regenerated for the new holds. */
  function UpdateHoldPeriods(store: Store, mahaParvaId: string, holdPeriods: seq<HoldPeriod>): Store
  {
    if mahaParvaId !in store then store
    else Save(store, Regeneration.RegenerateWithHolds(store[mahaParvaId], holdPeriods))
  }

  /** An unknown id makes every update a no-op, through the early return. */
  lemma UnknownIdNoOp(store: Store, mahaParvaId: string, dayNumber: int, dailyIntention: string, notes: string,
                      isCompleted: bool, parvaIndex: int, saptahaIndex: int, goal: string, holdPeriods: seq<HoldPeriod>)
    requires mahaParvaId !in store
    ensures UpdateDina(store, mahaParvaId, dayNumber, dailyIntention, notes, isCompleted) == Ok(store)
    ensures UpdateParvaGoal(store, mahaParvaId, parvaIndex, goal) == Ok(store)
    ensures UpdateSaptahaGoal(store, mahaParvaId, parvaIndex, saptahaIndex, goal) == Ok(store)
    ensures UpdateHoldPeriods(store, mahaParvaId, holdPeriods) == store
  {
  }

  /**
   * On a keyed store an update of a stored id either replaces exactly that
   * record by its edited tree, keeping the store keyed and every other
   * record as it was, or, when one of its copies fails its check, throws
   * `IllegalArgumentException` and saves nothing.
   */
  lemma UpdatesReplaceOneRecord(store: Store, mahaParvaId: string, dayNumber: int, dailyIntention: string,
                                notes: string, isCompleted: bool, parvaIndex: int, saptahaIndex: int, goal: string,
                                holdPeriods: seq<HoldPeriod>)
    requires Keyed(store) && mahaParvaId in store
    ensures var m := store[mahaParvaId];
      && UpdateDina(store, mahaParvaId, dayNumber, dailyIntention, notes, isCompleted)
           == (if DinaCopiesPass(m, dayNumber)
              then Ok(store[mahaParvaId := WithDina(m, dayNumber, dailyIntention, notes, isCompleted)])
              else Err(IllegalArgument))
      && UpdateParvaGoal(store, mahaParvaId, parvaIndex, goal)
           == (if ParvaGoalCopyPasses(m, parvaIndex)
              then Ok(store[mahaParvaId := WithParvaGoal(m, parvaIndex, goal)])
              else Err(IllegalArgument))
      && UpdateSaptahaGoal(store, mahaParvaId, parvaIndex, saptahaIndex, goal)
           == (if SaptahaGoalCopiesPass(m, parvaIndex, saptahaIndex)
              then Ok(store[mahaParvaId := WithSaptahaGoal(m, parvaIndex, saptahaIndex, goal)])
              else Err(IllegalArgument))
      && UpdateHoldPeriods(store, mahaParvaId, holdPeriods)
           == store[mahaParvaId := Regeneration.RegenerateWithHolds(m, holdPeriods)]
    ensures var r := UpdateDina(store, mahaParvaId, dayNumber, dailyIntention, notes, isCompleted);
      r.Ok? ==> Keyed(r.value)
    ensures Keyed(UpdateHoldPeriods(store, mahaParvaId, holdPeriods))
  {
    var m := store[mahaParvaId];
    EditDinaResult(m, dayNumber, dailyIntention, notes, isCompleted);
    EditParvaGoalResult(m, parvaIndex, goal);
    EditSaptahaGoalResult(m, parvaIndex, saptahaIndex, goal);
    Regeneration.RegenerateKeepsRecord(m, holdPeriods);
  }

  // ---------------------------------------------------------------------
  // Records built by `create` or `regenerateWithHolds` never make a copy throw.
  // ---------------------------------------------------------------------

  /** A numbered tree passes every check an edit's copies run. */
  lemma NumberedCopiesPass(m: MahaParva, dayNumber: int, parvaIndex: int, saptahaIndex: int)
    requires Numbered(m)
    ensures DinaCopiesPass(m, dayNumber)
    ensures ParvaGoalCopyPasses(m, parvaIndex)
    ensures SaptahaGoalCopiesPass(m, parvaIndex, saptahaIndex)
  {
    if HasDay(m, dayNumber) {
      var p, s, k :| 0 <= p < |m.parvas| && 0 <= s < |m.parvas[p].saptahas| && 0 <= k < |m.parvas[p].saptahas[s].dinas|
        && m.parvas[p].saptahas[s].dinas[k].dayNumber == dayNumber;
      assert m.parvas[p].saptahas[s].dinas[k].dayNumber == 49 * p + 7 * s + k + 1;
    }
  }

  /** The goal edits keep a tree numbered. */
  lemma GoalEditsKeepNumbered(m: MahaParva, parvaIndex: int, saptahaIndex: int, goal: string)
    requires Numbered(m)
    ensures Numbered(WithParvaGoal(m, parvaIndex, goal))
    ensures Numbered(WithSaptahaGoal(m, parvaIndex, saptahaIndex, goal))
  {
    var r := WithSaptahaGoal(m, parvaIndex, saptahaIndex, goal);
    forall p, s | 0 <= p < 7 && 0 <= s < 7
      ensures r.parvas[p].number == m.parvas[p].number && |r.parvas[p].saptahas| == 7
      ensures r.parvas[p].saptahas[s].number == m.parvas[p].saptahas[s].number
      ensures r.parvas[p].saptahas[s].dinas == m.parvas[p].saptahas[s].dinas
    {
      WithSaptahaGoalOnly(m, parvaIndex, saptahaIndex, goal, p, s);
    }
  }

  /** Each edit of a numbered tree succeeds and leaves the tree numbered. */
  lemma NumberedEdits(m: MahaParva, dayNumber: int, dailyIntention: string, notes: string, isCompleted: bool,
                      parvaIndex: int, saptahaIndex: int, goal: string)
    requires Numbered(m)
    ensures var r := EditDina(m, dayNumber, dailyIntention, notes, isCompleted);
      r.Ok? && Numbered(r.value)
    ensures var r := EditParvaGoal(m, parvaIndex, goal);
      r.Ok? && Numbered(r.value)
    ensures var r := EditSaptahaGoal(m, parvaIndex, saptahaIndex, goal);
      r.Ok? && Numbered(r.value)
  {
    NumberedCopiesPass(m, dayNumber, parvaIndex, saptahaIndex);
    EditDinaResult(m, dayNumber, dailyIntention, notes, isCompleted);
    EditParvaGoalResult(m, parvaIndex, goal);
    EditSaptahaGoalResult(m, parvaIndex, saptahaIndex, goal);
    WithDinaKeepsShape(m, dayNumber, dailyIntention, notes, isCompleted);
    GoalEditsKeepNumbered(m, parvaIndex, saptahaIndex, goal);
  }

  /** Every record of the store is numbered, as `create` and `regenerateWithHolds` leave it. */
  predicate AllNumbered(store: Store)
  {
    forall id :: id in store ==> Numbered(store[id])
  }

  /** Saving a numbered record keeps every record numbered. */
  lemma SaveKeepsNumbered(store: Store, m: MahaParva)
    requires AllNumbered(store) && Numbered(m)
    ensures AllNumbered(Save(store, m))
  {
  }

  /**
   * On a store of numbered records no update throws, and each keeps every
   * record numbered, so a sequence of edits of created records never fails.
   */
  lemma NumberedStoreUpdates(store: Store, mahaParvaId: string, dayNumber: int, dailyIntention: string,
                             notes: string, isCompleted: bool, parvaIndex: int, saptahaIndex: int, goal: string,
                             holdPeriods: seq<HoldPeriod>)
    requires AllNumbered(store)
    ensures var r := UpdateDina(store, mahaParvaId, dayNumber, dailyIntention, notes, isCompleted);
      r.Ok? && AllNumbered(r.value)
    ensures var r := UpdateParvaGoal(store, mahaParvaId, parvaIndex, goal);
      r.Ok? && AllNumbered(r.value)
    ensures var r := UpdateSaptahaGoal(store, mahaParvaId, parvaIndex, saptahaIndex, goal);
      r.Ok? && AllNumbered(r.value)
    ensures AllNumbered(UpdateHoldPeriods(store, mahaParvaId, holdPeriods))
  {
    if mahaParvaId in store {
      var m := store[mahaParvaId];
      NumberedEdits(m, dayNumber, dailyIntention, notes, isCompleted, parvaIndex, saptahaIndex, goal);
      SaveKeepsNumbered(store, EditDina(m, dayNumber, dailyIntention, notes, isCompleted).value);
      SaveKeepsNumbered(store, EditParvaGoal(m, parvaIndex, goal).value);
      SaveKeepsNumbered(store, EditSaptahaGoal(m, parvaIndex, saptahaIndex, goal).value);
      Regeneration.RegeneratedNumbered(m, holdPeriods);
      SaveKeepsNumbered(store, Regeneration.RegenerateWithHolds(m, holdPeriods));
    }
  }

  /** A record `create` builds, and any record regenerated, can be edited without a copy throwing. */
  lemma FreshRecordsEditable(id: string, title: string, description: string, startDate: Date, email: string,
                             createdAt: Date, stored: MahaParva, holds: seq<HoldPeriod>,
                             dayNumber: int, parvaIndex: int, saptahaIndex: int)
    ensures var c := MahaParvas.Create(id, title, description, startDate, email, createdAt);
      DinaCopiesPass(c, dayNumber) && ParvaGoalCopyPasses(c, parvaIndex) && SaptahaGoalCopiesPass(c, parvaIndex, saptahaIndex)
    ensures var g := Regeneration.RegenerateWithHolds(stored, holds);
      DinaCopiesPass(g, dayNumber) && ParvaGoalCopyPasses(g, parvaIndex) && SaptahaGoalCopiesPass(g, parvaIndex, saptahaIndex)
  {
    CreatedNumbered(id, title, description, startDate, email, createdAt);
    NumberedCopiesPass(MahaParvas.Create(id, title, description, startDate, email, createdAt), dayNumber, parvaIndex, saptahaIndex);
    Regeneration.RegeneratedNumbered(stored, holds);
    NumberedCopiesPass(Regeneration.RegenerateWithHolds(stored, holds), dayNumber, parvaIndex, saptahaIndex);
  }
}
