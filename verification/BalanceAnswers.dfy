/** What the balance service answers and writes, in terms of the table, the clock and the HCM. */
module BalanceAnswers {
  import opened Wrappers
  import opened Failures
  import opened Text
  import opened CacheKeys
  import opened FixedPoint
  import opened BalanceTable
  import opened BalanceCache
  import opened Balances
  import B = BalanceRuns

  // ---- the life of a slot --------------------------------------------------------------------

  /** A slot answers its balance for thirty minutes, the last millisecond included, and is dropped by
      the first read after that; no other slot changes. */
  lemma SlotLivesThirtyMinutes(cache: Cache, key: string, row: Row, now: int, later: int, other: string)
    ensures var filled := Put(cache, key, row, now);
      && Fresh(filled, key, later) == (if later <= now + 1800000 then Some(row) else None)
      && (key in Touched(filled, key, later) <==> later <= now + 1800000)
      && (other != key ==>
            && Fresh(filled, other, later) == Fresh(cache, other, later)
            && Fresh(Touched(filled, key, later), other, later) == Fresh(cache, other, later))
  {
  }

  // ---- hydration -----------------------------------------------------------------------------

  /** The HCM reports figures for `d` that the table takes. */
  predicate Usable(hcm: Hcm, d: Dims) {
    hcm(d).Some? && hcm(d).value.available >= 0 && (hcm(d).value.used.Some? ==> hcm(d).value.used.value >= 0)
  }

  /** The row that stores what the HCM reports for `d`. */
  predicate Stores(row: Row, d: Dims, balance: HcmBalance, year: int, now: int) {
    && row.dims == d
    && row.figures.available == balance.available
    && row.figures.used == (if balance.used.Some? then balance.used.value else 0)
    && row.carryover == Some(0) && row.year == year && row.version == 1 && !row.stale && row.cachedAt == now
  }

  lemma AttemptStores(rows: seq<Row>, d: Dims, year: int, hcm: Hcm, now: int)
    requires RowFor(rows, d).None?
    ensures var h := Attempt(rows, d, year, hcm, now);
      if Usable(hcm, d) then h.row.Some? && Stores(h.row.value, d, hcm(d).value, year, now) && h.rows == rows + [h.row.value]
      else h.row.None? && h.rows == rows
  {
    assert forall k :: 0 <= k < |rows| ==> rows[k].dims != d;
  }

  lemma OneCandidate(rows: seq<Row>, c: string, d: Dims, year: int, hcm: Hcm, now: int)
    ensures var first := Attempt(rows, d.(employee := c), year, hcm, now);
      HydrateFrom(rows, [c], d, year, hcm, now) == if first.row.Some? then first else Hydration(rows, None)
  {
    assert [c][1..] == [];
  }

  lemma TwoCandidates(rows: seq<Row>, c: string, c': string, d: Dims, year: int, hcm: Hcm, now: int)
    ensures var first := Attempt(rows, d.(employee := c), year, hcm, now);
      HydrateFrom(rows, [c, c'], d, year, hcm, now) ==
        if first.row.Some? then first else HydrateFrom(rows, [c'], d, year, hcm, now)
  {
    assert [c, c'][1..] == [c'];
  }

  /** For a dimension without a row the HCM is asked as spelled, and then with the employee id in lower
      case if that is another spelling; the first usable answer is stored. */
  lemma HydrationStores(rows: seq<Row>, d: Dims, year: int, hcm: Hcm, now: int)
    requires RowFor(rows, d).None?
    ensures var h := FindOrHydrate(rows, d, year, hcm, now);
      var lower := d.(employee := Lower(d.employee));
      && (Usable(hcm, d) ==> h.row.Some? && Stores(h.row.value, d, hcm(d).value, year, now))
      && (!Usable(hcm, d) && Usable(hcm, lower) ==> h.row.Some? && Stores(h.row.value, lower, hcm(lower).value, year, now))
      && (!Usable(hcm, d) && !Usable(hcm, lower) ==> h.row.None?)
      && h.rows == (if h.row.Some? then rows + [h.row.value] else rows)
  {
    var lower := d.(employee := Lower(d.employee));
    LowerIdempotent(d.employee);
    LookupFolds(rows, lower, d);
    AttemptStores(rows, d, year, hcm, now);
    AttemptStores(rows, lower, year, hcm, now);
    assert d.(employee := d.employee) == d;
    OneCandidate(rows, d.employee, d, year, hcm, now);
    OneCandidate(rows, Lower(d.employee), d, year, hcm, now);
    TwoCandidates(rows, d.employee, Lower(d.employee), d, year, hcm, now);
  }

  // ---- reads ---------------------------------------------------------------------------------

  /** A read answers the slot while it is warm; otherwise the row found ignoring case, and otherwise
      what the HCM reports, stored as its row. */
  lemma ReadDecides(s: Store, d: Dims, year: int, hcm: Hcm, now: int)
    ensures var g := GetBalance(s, d, year, hcm, now);
      var lower := d.(employee := Lower(d.employee));
      match Fresh(s.cache, CacheKey(d, year), now)
      case Some(row) => g == Reply(s, Ok(row))
      case None =>
        match RowFor(s.rows, d)
        case Some(row) => g.result == Ok(row) && g.store.rows == s.rows
        case None =>
          && (Usable(hcm, d) ==> g.result.Ok? && Stores(g.result.value, d, hcm(d).value, year, now))
          && (!Usable(hcm, d) && Usable(hcm, lower) ==>
                g.result.Ok? && Stores(g.result.value, lower, hcm(lower).value, year, now))
          && (!Usable(hcm, d) && !Usable(hcm, lower) ==> g.result == Err(NotFound))
          && g.store.rows == (if g.result.Ok? then s.rows + [g.result.value] else s.rows)
  {
    if Fresh(s.cache, CacheKey(d, year), now).None? && RowFor(s.rows, d).None? {
      HydrationStores(s.rows, d, year, hcm, now);
    }
  }

  /** A validation judges the balance that a read answers, and passes its failure on. */
  lemma ValidationDecides(s: Store, d: Dims, days: real, year: int, hcm: Hcm, now: int)
    ensures var g, v := GetBalance(s, d, year, hcm, now), ValidateBalance(s, d, days, year, hcm, now);
      && v.store == g.store
      && v.result == match g.result
           case Err(f) => Err(f)
           case Ok(row) => if 100.0 * days <= row.figures.available as real then Ok(true) else Err(InsufficientBalance)
  {
  }

  /** A dimension is valid if and only if its row is found afterwards; the cache takes no part. */
  lemma DimensionsDecide(s: Store, d: Dims, year: int, hcm: Hcm, now: int)
    ensures var v := ValidateDimensions(s, d, year, hcm, now);
      && v.store.cache == s.cache
      && v.result == (if RowFor(v.store.rows, d).Some? then Ok(true) else Err(InvalidDimension))
      && (RowFor(s.rows, d).Some? ==> v.store.rows == s.rows)
  {
    B.HydrationAnswersLookup(s.rows, d, year, hcm, now);
  }

  // ---- writes --------------------------------------------------------------------------------

  /** A refresh marks the row found ignoring case as read now, changes nothing else in it, and puts it
      into its slot. */
  lemma RefreshDecides(s: Store, d: Dims, year: int, now: int)
    requires AllChecksHold(s.rows)
    ensures var g := RefreshBalance(s, d, year, now);
      match FindByDimensions(s.rows, d)
      case None => g == Reply(s, Err(NotFound))
      case Some(id) =>
        var row := s.rows[id].(stale := false, cachedAt := now);
        && g.result == Ok(row) && g.store.rows == s.rows[id := row]
        && g.store.cache == s.cache[CacheKey(d, year) := Entry(row, now + 1800000)]
  {
  }

  /** A deduction takes the days from available and adds them to used, one version up, and evicts the
      pair; it is refused when a figure would fall below zero. */
  lemma DeductionDecides(s: Store, d: Dims, days: int)
    ensures var g := UpdateUsedBalance(s, d, days);
      match FindByDimensions(s.rows, d)
      case None => g == Reply(s, Err(NotFound))
      case Some(id) =>
        var row := s.rows[id];
        var available, used := row.figures.available - days, row.figures.used + days;
        if available < 0 || used < 0 then g == Reply(s, Err(CheckViolation))
        else
          && g.result == Ok(true) && EvictsPair(s.cache, g.store.cache, d)
          && g.store.rows == s.rows[id := row.(figures := Figures(available, used),
                                               version := if row.version == 0 then 2 else row.version + 1)]
  {
  }

  /** A refund gives the days back, takes them from used as far as they go, one version up, and evicts
      the pair; it is refused when available would fall below zero. */
  lemma RefundDecides(s: Store, d: Dims, days: int)
    ensures var g := RefundBalance(s, d, days);
      match FindByDimensions(s.rows, d)
      case None => g == Reply(s, Err(NotFound))
      case Some(id) =>
        var row := s.rows[id];
        var available, used := row.figures.available + days, row.figures.used - days;
        if available < 0 then g == Reply(s, Err(CheckViolation))
        else
          && g.result == Ok(true) && EvictsPair(s.cache, g.store.cache, d)
          && g.store.rows == s.rows[id := row.(figures := Figures(available, if used < 0 then 0 else used),
                                               version := if row.version == 0 then 2 else row.version + 1)]
  {
  }

  /** Every slot whose key starts with the pair is gone, and every other one is as it was. */
  ghost predicate EvictsPair(cache: Cache, cache': Cache, d: Dims) {
    forall key ::
      && (key in cache' <==> key in cache && !(d.employee + ":" + d.location + ":" <= key))
      && (key in cache' ==> cache'[key] == cache[key])
  }
}
