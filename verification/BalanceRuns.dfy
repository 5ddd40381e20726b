/** What every serialized run of balance operations keeps. */
module BalanceRuns {
  import opened Wrappers
  import opened Failures
  import opened Text
  import opened CacheKeys
  import opened BalanceTable
  import opened BalanceCache
  import opened Balances
  import opened Reconciliation

  datatype Op =
    | Read(d: Dims, year: int, hcm: Hcm)
    | Check(d: Dims, requested: real, year: int, hcm: Hcm)
    | CheckDims(d: Dims, year: int, hcm: Hcm)
    | Refreshing(d: Dims, year: int)
    | Spending(d: Dims, days: int)
    | GivingBack(d: Dims, days: int)
    | Reconciling(d: Dims, balance: HcmBalance)

  datatype Event = Event(op: Op, at: int)

  function Step(s: Store, e: Event): Store {
    match e.op
    case Read(d, year, hcm) => GetBalance(s, d, year, hcm, e.at).store
    case Check(d, days, year, hcm) => ValidateBalance(s, d, days, year, hcm, e.at).store
    case CheckDims(d, year, hcm) => ValidateDimensions(s, d, year, hcm, e.at).store
    case Refreshing(d, year) => RefreshBalance(s, d, year, e.at).store
    case Spending(d, days) => UpdateUsedBalance(s, d, days).store
    case GivingBack(d, days) => RefundBalance(s, d, days).store
    case Reconciling(d, balance) =>
      match Reconcile(s.rows, d, balance)
      case Ok(rows) => s.(rows := rows)
      case Err(_) => s
  }

  function Run(s: Store, events: seq<Event>): Store {
    if |events| == 0 then s
    else Step(Run(s, events[..|events| - 1]), events[|events| - 1])
  }

  // ---- hydration -----------------------------------------------------------------------------

  /** `rows'` is `rows` with at most one hydrated row appended, which answers `d`. */
  ghost predicate Hydrated(rows: seq<Row>, rows': seq<Row>, row: Option<Row>, d: Dims) {
    match row
    case None => rows' == rows
    case Some(r) => rows' == rows + [r] && SameFold(r.dims, d) && ChecksHold(r)
  }

  lemma {:induction false} HydrationShape(
      rows: seq<Row>, candidates: seq<string>, d: Dims, year: int, hcm: Hcm, now: int)
    requires forall c :: c in candidates ==> Lower(c) == Lower(d.employee)
    ensures var h := HydrateFrom(rows, candidates, d, year, hcm, now); Hydrated(rows, h.rows, h.row, d)
    decreases |candidates|
  {
    if |candidates| > 0 {
      assert candidates[0] in candidates;
      HydrationShape(rows, candidates[1..], d, year, hcm, now);
    }
  }

  /** Find-or-hydrate answers exactly the row that the lookup finds afterwards, moves no earlier
      lookup and keeps the table functional. */
  lemma HydrationAnswersLookup(rows: seq<Row>, d: Dims, year: int, hcm: Hcm, now: int)
    ensures var h := FindOrHydrate(rows, d, year, hcm, now);
      && h.row == RowFor(h.rows, d)
      && (h.rows == rows || (RowFor(rows, d).None? && h.row.Some? && h.rows == rows + [h.row.value]))
      && (Functional(rows) ==> Functional(h.rows))
      && (AllChecksHold(rows) ==> AllChecksHold(h.rows))
  {
    if RowFor(rows, d).None? {
      LowerIdempotent(d.employee);
      HydrationShape(rows, Candidates(d.employee), d, year, hcm, now);
      var h := HydrateFrom(rows, Candidates(d.employee), d, year, hcm, now);
      if h.row.Some? {
        AppendKeepsLookups(rows, h.row.value, d);
      }
    }
  }

  lemma HydrationKeepsLookups(rows: seq<Row>, d: Dims, year: int, hcm: Hcm, now: int, d': Dims)
    ensures var h := FindOrHydrate(rows, d, year, hcm, now);
      && (FindByDimensions(rows, d').Some? ==>
            FindByDimensions(h.rows, d') == FindByDimensions(rows, d') && RowFor(h.rows, d') == RowFor(rows, d'))
      && (FindExact(rows, d').Some? ==> FindExact(h.rows, d') == FindExact(rows, d'))
  {
    HydrationAnswersLookup(rows, d, year, hcm, now);
    var h := FindOrHydrate(rows, d, year, hcm, now);
    if h.rows != rows {
      AppendKeepsLookups(rows, h.row.value, d');
    }
  }

  /** Rewriting the row found for `d` changes the answer only for the spellings of `d`. */
  lemma RewriteIsLocal(rows: seq<Row>, id: nat, row: Row, d': Dims)
    requires id < |rows| && row.dims == rows[id].dims
    ensures FindByDimensions(rows[id := row], d') == FindByDimensions(rows, d')
    ensures FindExact(rows[id := row], d') == FindExact(rows, d')
    ensures RowFor(rows[id := row], d') ==
      if FindByDimensions(rows, d') == Some(id) then Some(row) else RowFor(rows, d')
  {
    RewriteKeepsLookups(rows, id, row, d');
  }

  predicate Hydrates(op: Op) {
    op.Read? || op.Check? || op.CheckDims?
  }

  /** A read hits a fresh slot and changes nothing, or answers the row that the lookup finds
      afterwards and caches it. */
  lemma ReadShape(s: Store, d: Dims, year: int, hcm: Hcm, now: int)
    ensures var g, key := GetBalance(s, d, year, hcm, now), CacheKey(d, year);
      match Fresh(s.cache, key, now)
      case Some(row) => g == Reply(s, Ok(row))
      case None =>
        var h := FindOrHydrate(s.rows, d, year, hcm, now);
        && g.store.rows == h.rows
        && h.row == RowFor(h.rows, d)
        && (h.row.Some? ==> g.result == Ok(h.row.value) && g.store.cache == Put(s.cache, key, h.row.value, now))
        && (h.row.None? ==> g.result == Err(NotFound) && g.store.cache == Touched(s.cache, key, now))
  {
    HydrationAnswersLookup(s.rows, d, year, hcm, now);
  }

  lemma HydratingOpShape(s: Store, e: Event)
    requires Hydrates(e.op)
    ensures Step(s, e).rows == s.rows || Step(s, e).rows == FindOrHydrate(s.rows, e.op.d, e.op.year, e.op.hcm, e.at).rows
    ensures e.op.CheckDims? ==> Step(s, e).cache == s.cache
    ensures !e.op.CheckDims? ==> Step(s, e) == GetBalance(s, e.op.d, e.op.year, e.op.hcm, e.at).store
  {
  }

  /** Every operation leaves a functional, checked table, and the lookups that found a row. */
  lemma StepKeepsTable(s: Store, e: Event, d': Dims)
    ensures Functional(s.rows) ==> Functional(Step(s, e).rows)
    ensures AllChecksHold(s.rows) ==> AllChecksHold(Step(s, e).rows)
    ensures FindByDimensions(s.rows, d').Some? ==>
      FindByDimensions(Step(s, e).rows, d') == FindByDimensions(s.rows, d')
  {
    if Hydrates(e.op) {
      HydratingOpShape(s, e);
      HydrationAnswersLookup(s.rows, e.op.d, e.op.year, e.op.hcm, e.at);
      HydrationKeepsLookups(s.rows, e.op.d, e.op.year, e.op.hcm, e.at, d');
    } else {
      RewriteOpKeepsTable(s, e, d');
    }
  }

  /** The operations that rewrite one row, and which row that is. */
  lemma RewriteOpShape(s: Store, e: Event) returns (id: nat, row: Row)
    requires e.op.Refreshing? || e.op.Spending? || e.op.GivingBack? || e.op.Reconciling?
    requires Step(s, e) != s
    ensures id < |s.rows| && row.dims == s.rows[id].dims && ChecksHold(row)
    ensures Step(s, e).rows == s.rows[id := row]
    ensures if e.op.Reconciling? then FindExact(s.rows, e.op.d) == Some(id)
      else FindByDimensions(s.rows, e.op.d) == Some(id)
    ensures e.op.Refreshing? ==> row == s.rows[id].(stale := false, cachedAt := e.at)
    ensures e.op.Refreshing? ==> Step(s, e).cache == Put(s.cache, CacheKey(e.op.d, e.op.year), row, e.at)
    ensures e.op.Spending? || e.op.GivingBack? ==>
      Step(s, e).cache == Evicted(s.cache, PairPrefix(e.op.d.employee, e.op.d.location))
    ensures e.op.Reconciling? ==> Step(s, e).cache == s.cache
  {
    id := (if e.op.Reconciling? then FindExact(s.rows, e.op.d) else FindByDimensions(s.rows, e.op.d)).value;
    row := Step(s, e).rows[id];
  }

  lemma RewriteKeepsTable(rows: seq<Row>, id: nat, row: Row)
    requires id < |rows| && row.dims == rows[id].dims && ChecksHold(row)
    ensures Functional(rows) ==> Functional(rows[id := row])
    ensures AllChecksHold(rows) ==> AllChecksHold(rows[id := row])
  {
    assert forall k :: 0 <= k < |rows| ==> rows[id := row][k].dims == rows[k].dims;
  }

  lemma RewriteOpKeepsTable(s: Store, e: Event, d': Dims)
    requires e.op.Refreshing? || e.op.Spending? || e.op.GivingBack? || e.op.Reconciling?
    ensures Functional(s.rows) ==> Functional(Step(s, e).rows)
    ensures AllChecksHold(s.rows) ==> AllChecksHold(Step(s, e).rows)
    ensures FindByDimensions(Step(s, e).rows, d') == FindByDimensions(s.rows, d')
  {
    if Step(s, e) != s {
      var id, row := RewriteOpShape(s, e);
      RewriteKeepsTable(s.rows, id, row);
      RewriteKeepsLookups(s.rows, id, row, d');
    }
  }

  /** Over every run there is at most one row for each case-folded dimension, the CHECK constraints
      hold of every row, and a row once found stays where it is for every spelling. */
  lemma {:induction false} TableStaysAFunction(s: Store, events: seq<Event>, d: Dims)
    requires Functional(s.rows) && AllChecksHold(s.rows)
    ensures Functional(Run(s, events).rows) && AllChecksHold(Run(s, events).rows)
    ensures FindByDimensions(s.rows, d).Some? ==>
      FindByDimensions(Run(s, events).rows, d) == FindByDimensions(s.rows, d)
  {
    if |events| > 0 {
      var before := Run(s, events[..|events| - 1]);
      TableStaysAFunction(s, events[..|events| - 1], d);
      StepKeepsTable(before, events[|events| - 1], d);
    }
  }

  /** Once a dimension has been validated, no later operation on any spelling of it reports that
      the balance is missing. */
  lemma ValidatedNeverMissing(
      s: Store, d: Dims, year: int, hcm: Hcm, now: int, events: seq<Event>,
      d': Dims, year': int, hcm': Hcm, now': int, days: int)
    requires Functional(s.rows) && AllChecksHold(s.rows)
    requires ValidateDimensions(s, d, year, hcm, now).result.Ok? && SameFold(d, d')
    ensures var later := Run(ValidateDimensions(s, d, year, hcm, now).store, events);
      && GetBalance(later, d', year', hcm', now').result.Ok?
      && ValidateDimensions(later, d', year', hcm', now').result.Ok?
      && RefreshBalance(later, d', year', now').result.Ok?
      && UpdateUsedBalance(later, d', days).result != Err(NotFound)
      && RefundBalance(later, d', days).result != Err(NotFound)
  {
    var s' := ValidateDimensions(s, d, year, hcm, now).store;
    var later := Run(s', events);
    HydrationAnswersLookup(s.rows, d, year, hcm, now);
    LookupFolds(s'.rows, d, d');
    TableStaysAFunction(s', events, d');
    assert FindByDimensions(later.rows, d').Some?;
  }

  // ---- the cache agrees with the table -------------------------------------------------------

  /** No two of the ids differ only in case. */
  ghost predicate OneSpelling(ids: set<string>) {
    forall a, b :: a in ids && b in ids && Lower(a) == Lower(b) ==> a == b
  }

  ghost predicate Domain(employees: set<string>, locations: set<string>) {
    && OneSpelling(employees) && OneSpelling(locations)
    && (forall e :: e in employees ==> ColonFree(e))
    && (forall l :: l in locations ==> ColonFree(l))
  }

  predicate SpelledIn(d: Dims, employees: set<string>, locations: set<string>) {
    d.employee in employees && d.location in locations
  }

  ghost predicate KeyOf(key: string, employees: set<string>, locations: set<string>) {
    exists d, year :: SpelledIn(d, employees, locations) && key == CacheKey(d, year)
  }

  predicate EntryAgrees(entry: Entry, row: Option<Row>) {
    row.Some? && entry.balance.figures == row.value.figures && entry.balance.version == row.value.version
  }

  /** Every slot belongs to a known pair, and whichever lookup it serves, leave type and year
      included, it shows the figures and the version of the row that lookup finds now. */
  ghost predicate CacheAgrees(s: Store, employees: set<string>, locations: set<string>) {
    && (forall key :: key in s.cache ==> KeyOf(key, employees, locations))
    && (forall d, year :: SpelledIn(d, employees, locations) && CacheKey(d, year) in s.cache ==>
          EntryAgrees(s.cache[CacheKey(d, year)], RowFor(s.rows, d)))
  }

  predicate SameFigures(row: Option<Row>, row': Option<Row>) {
    row.Some? ==> row'.Some? && row'.value.figures == row.value.figures && row'.value.version == row.value.version
  }

  lemma CachingKeepsAgreement(s: Store, s': Store, employees: set<string>, locations: set<string>,
      d: Dims, year: int, row: Row, now: int)
    requires Domain(employees, locations) && SpelledIn(d, employees, locations)
    requires CacheAgrees(s, employees, locations)
    requires s'.cache == Put(s.cache, CacheKey(d, year), row, now)
    requires RowFor(s'.rows, d) == Some(row)
    requires forall d' :: SameFigures(RowFor(s.rows, d'), RowFor(s'.rows, d'))
    ensures CacheAgrees(s', employees, locations)
  {
    forall d', year' | SpelledIn(d', employees, locations) && CacheKey(d', year') in s'.cache
      ensures EntryAgrees(s'.cache[CacheKey(d', year')], RowFor(s'.rows, d'))
    {
      if CacheKey(d', year') == CacheKey(d, year) {
        KeyInjective(d', year', d, year);
      } else {
        assert CacheKey(d', year') in s.cache;
      }
    }
  }

  lemma RewriteAndEvictKeepsAgreement(s: Store, s': Store, employees: set<string>, locations: set<string>,
      d: Dims, id: nat, row: Row)
    requires Domain(employees, locations) && SpelledIn(d, employees, locations)
    requires CacheAgrees(s, employees, locations)
    requires id < |s.rows| && row.dims == s.rows[id].dims && SameFold(s.rows[id].dims, d)
    requires s' == Store(s.rows[id := row], Evicted(s.cache, PairPrefix(d.employee, d.location)))
    ensures CacheAgrees(s', employees, locations)
  {
    forall d', year' | SpelledIn(d', employees, locations) && CacheKey(d', year') in s'.cache
      ensures EntryAgrees(s'.cache[CacheKey(d', year')], RowFor(s'.rows, d'))
    {
      EvictionIsExact(s.cache, d', d.employee, d.location, year');
      RewriteIsLocal(s.rows, id, row, d');
      assert EntryAgrees(s.cache[CacheKey(d', year')], RowFor(s.rows, d'));
      assert Lower(d'.employee) != Lower(d.employee) || Lower(d'.location) != Lower(d.location);
    }
  }

  lemma ReadKeepsAgreement(s: Store, employees: set<string>, locations: set<string>,
      d: Dims, year: int, hcm: Hcm, now: int)
    requires Domain(employees, locations) && SpelledIn(d, employees, locations)
    requires CacheAgrees(s, employees, locations)
    ensures CacheAgrees(GetBalance(s, d, year, hcm, now).store, employees, locations)
  {
    var s' := GetBalance(s, d, year, hcm, now).store;
    ReadShape(s, d, year, hcm, now);
    if Fresh(s.cache, CacheKey(d, year), now).None? {
      forall d'
        ensures RowFor(s.rows, d').Some? ==> RowFor(s'.rows, d') == RowFor(s.rows, d')
      {
        HydrationKeepsLookups(s.rows, d, year, hcm, now, d');
      }
      var h := FindOrHydrate(s.rows, d, year, hcm, now);
      if h.row.Some? {
        CachingKeepsAgreement(s, s', employees, locations, d, year, h.row.value, now);
      }
    }
  }

  lemma RewriteKeepsAgreement(s: Store, e: Event, employees: set<string>, locations: set<string>)
    requires Domain(employees, locations) && SpelledIn(e.op.d, employees, locations)
    requires e.op.Refreshing? || e.op.Spending? || e.op.GivingBack?
    requires CacheAgrees(s, employees, locations) && Step(s, e) != s
    ensures CacheAgrees(Step(s, e), employees, locations)
  {
    var s' := Step(s, e);
    var id, row := RewriteOpShape(s, e);
    if e.op.Refreshing? {
      forall d'
        ensures SameFigures(RowFor(s.rows, d'), RowFor(s'.rows, d'))
      {
        RewriteIsLocal(s.rows, id, row, d');
      }
      RewriteIsLocal(s.rows, id, row, e.op.d);
      CachingKeepsAgreement(s, s', employees, locations, e.op.d, e.op.year, row, e.at);
    } else {
      RewriteAndEvictKeepsAgreement(s, s', employees, locations, e.op.d, id, row);
    }
  }

  lemma DimsCheckKeepsAgreement(s: Store, e: Event, employees: set<string>, locations: set<string>)
    requires CacheAgrees(s, employees, locations) && e.op.CheckDims?
    ensures CacheAgrees(Step(s, e), employees, locations)
  {
    HydratingOpShape(s, e);
    forall d'
      ensures RowFor(s.rows, d').Some? ==> RowFor(Step(s, e).rows, d') == RowFor(s.rows, d')
    {
      HydrationKeepsLookups(s.rows, e.op.d, e.op.year, e.op.hcm, e.at, d');
    }
  }

  lemma StepKeepsAgreement(s: Store, e: Event, employees: set<string>, locations: set<string>)
    requires Domain(employees, locations) && SpelledIn(e.op.d, employees, locations) && !e.op.Reconciling?
    requires CacheAgrees(s, employees, locations)
    ensures CacheAgrees(Step(s, e), employees, locations)
  {
    if e.op.CheckDims? {
      DimsCheckKeepsAgreement(s, e, employees, locations);
    } else if Hydrates(e.op) {
      HydratingOpShape(s, e);
      ReadKeepsAgreement(s, employees, locations, e.op.d, e.op.year, e.op.hcm, e.at);
    } else if Step(s, e) != s {
      RewriteKeepsAgreement(s, e, employees, locations);
    }
  }

  /** In every run of balance-service operations whose employee and location ids have one spelling
      each, every cached entry shows the figures and the version of the row it stands for. */
  lemma {:induction false} CacheRefinesTable(
      s: Store, events: seq<Event>, employees: set<string>, locations: set<string>)
    requires Domain(employees, locations) && CacheAgrees(s, employees, locations)
    requires forall e :: e in events ==> SpelledIn(e.op.d, employees, locations) && !e.op.Reconciling?
    ensures CacheAgrees(Run(s, events), employees, locations)
  {
    if |events| > 0 {
      CacheRefinesTable(s, events[..|events| - 1], employees, locations);
      assert events[|events| - 1] in events;
      StepKeepsAgreement(Run(s, events[..|events| - 1]), events[|events| - 1], employees, locations);
    }
  }

  /** One spelling is needed, and nothing else: after a deduction or a refund through `d`, a slot of
      another lookup of the same row is out of step if and only if it spells the employee or the
      location differently (when they are spelled alike the slot is gone). */
  lemma MixedSpellingGoesStale(s: Store, e: Event, d': Dims, year': int)
    requires e.op.Spending? || e.op.GivingBack?
    requires Step(s, e) != s && SameFold(e.op.d, d') && PlainIds(e.op.d) && PlainIds(d')
    requires CacheKey(d', year') in s.cache && EntryAgrees(s.cache[CacheKey(d', year')], RowFor(s.rows, d'))
    ensures var s', key := Step(s, e), CacheKey(d', year');
      && (key in s'.cache <==> d'.employee != e.op.d.employee || d'.location != e.op.d.location)
      && (key in s'.cache ==> !EntryAgrees(s'.cache[key], RowFor(s'.rows, d')))
  {
    var id, row := RewriteOpShape(s, e);
    EvictionIsExact(s.cache, d', e.op.d.employee, e.op.d.location, year');
    RewriteIsLocal(s.rows, id, row, d');
    LookupFolds(s.rows, e.op.d, d');
    assert row.version > s.rows[id].version;
  }

  /** The balance that an approval validates is the row as it is then: a read right after a refresh
      of the same lookup, however much later, answers the current row. */
  lemma ReadAfterRefresh(s: Store, d: Dims, year: int, now: int, hcm: Hcm, later: int)
    requires RefreshBalance(s, d, year, now).result.Ok?
    ensures var s' := RefreshBalance(s, d, year, now).store;
      && GetBalance(s', d, year, hcm, later).result.Ok?
      && RowFor(s'.rows, d) == Some(GetBalance(s', d, year, hcm, later).result.value)
      && GetBalance(s', d, year, hcm, later).store.rows == s'.rows
  {
    var s' := RefreshBalance(s, d, year, now).store;
    var id := FindByDimensions(s.rows, d).value;
    RewriteKeepsLookups(s.rows, id, s.rows[id].(stale := false, cachedAt := now), d);
    assert s'.rows == s.rows[id := s.rows[id].(stale := false, cachedAt := now)];
    assert FindByDimensions(s'.rows, d) == Some(id);
  }

  // ---- bounded staleness ---------------------------------------------------------------------

  ghost predicate Monotone(events: seq<Event>) {
    forall i, j :: 0 <= i < j < |events| ==> events[i].at <= events[j].at
  }

  /** Right after event `m`, at that event's time, the lookup of `d` found `row`. */
  ghost predicate HeldAfter(s: Store, events: seq<Event>, m: nat, d: Dims, row: Row) {
    0 < m <= |events| && RowFor(Run(s, events[..m]).rows, d) == Some(row)
  }

  /** Event `m` was about a lookup of this slot, and right after it that lookup found `row`. */
  ghost predicate FilledBy(s: Store, events: seq<Event>, m: nat, year: int, key: string, row: Row) {
    0 < m <= |events| && CacheKey(events[m - 1].op.d, year) == key && HeldAfter(s, events, m, events[m - 1].op.d, row)
  }

  /** The row was put into its slot one TTL before the slot expires, and was the current row then. */
  ghost predicate Witnessed(s: Store, events: seq<Event>, key: string, entry: Entry) {
    exists m: nat, year: int ::
      FilledBy(s, events, m, year, key, entry.balance) && events[m - 1].at == entry.expiresAt - TTL
  }

  ghost predicate AllWitnessed(s: Store, events: seq<Event>) {
    forall key :: key in Run(s, events).cache ==> Witnessed(s, events, key, Run(s, events).cache[key])
  }

  lemma FillingCarries(s: Store, events: seq<Event>, m: nat, year: int, key: string, row: Row)
    requires |events| > 0 && FilledBy(s, events[..|events| - 1], m, year, key, row)
    ensures FilledBy(s, events, m, year, key, row)
    ensures events[..|events| - 1][m - 1].at == events[m - 1].at
  {
    assert events[..|events| - 1][..m] == events[..m];
  }

  lemma WitnessCarries(s: Store, events: seq<Event>, key: string, entry: Entry)
    requires |events| > 0 && Witnessed(s, events[..|events| - 1], key, entry)
    ensures Witnessed(s, events, key, entry)
  {
    var earlier := events[..|events| - 1];
    var m: nat, year: int :|
      FilledBy(s, earlier, m, year, key, entry.balance) && earlier[m - 1].at == entry.expiresAt - TTL;
    FillingCarries(s, events, m, year, key, entry.balance);
  }

  lemma FreshWitness(s: Store, events: seq<Event>, year: int, row: Row)
    requires |events| > 0 && RowFor(Run(s, events).rows, events[|events| - 1].op.d) == Some(row)
    ensures Witnessed(s, events, CacheKey(events[|events| - 1].op.d, year), Entry(row, events[|events| - 1].at + TTL))
  {
    assert events[..|events|] == events;
    assert FilledBy(s, events, |events|, year, CacheKey(events[|events| - 1].op.d, year), row);
  }

  /** A slot after one more event is an old one, or holds the row that the event's lookup finds now. */
  lemma StepSlots(s: Store, e: Event, key: string) returns (year: int)
    requires key in Step(s, e).cache
    ensures
      || (key in s.cache && Step(s, e).cache[key] == s.cache[key])
      || (&& key == CacheKey(e.op.d, year)
          && RowFor(Step(s, e).rows, e.op.d).Some?
          && Step(s, e).cache[key] == Entry(RowFor(Step(s, e).rows, e.op.d).value, e.at + TTL))
  {
    year := 0;
    if Hydrates(e.op) {
      HydratingOpShape(s, e);
      if !e.op.CheckDims? {
        year := e.op.year;
        ReadShape(s, e.op.d, e.op.year, e.op.hcm, e.at);
      }
    } else if Step(s, e) != s {
      var id, row := RewriteOpShape(s, e);
      RewriteIsLocal(s.rows, id, row, e.op.d);
      if e.op.Refreshing? {
        year := e.op.year;
      }
    }
  }

  lemma {:induction false} EverySlotWitnessed(s: Store, events: seq<Event>)
    requires s.cache == map[]
    ensures AllWitnessed(s, events)
  {
    if |events| > 0 {
      var earlier, e := events[..|events| - 1], events[|events| - 1];
      EverySlotWitnessed(s, earlier);
      forall key | key in Run(s, events).cache
        ensures Witnessed(s, events, key, Run(s, events).cache[key])
      {
        var year := StepSlots(Run(s, earlier), e, key);
        if key in Run(s, earlier).cache && Run(s, events).cache[key] == Run(s, earlier).cache[key] {
          WitnessCarries(s, events, key, Run(s, events).cache[key]);
        } else {
          FreshWitness(s, events, year, RowFor(Run(s, events).rows, e.op.d).value);
        }
      }
    }
  }

  lemma HitWitness(s: Store, events: seq<Event>, e: Event, key: string, row: Row) returns (m: nat, year: int)
    requires s.cache == map[] && Monotone(events + [e])
    requires Fresh(Run(s, events).cache, key, e.at) == Some(row)
    ensures FilledBy(s, events + [e], m, year, key, row)
    ensures e.at - TTL <= (events + [e])[m - 1].at <= e.at
  {
    var all, entry := events + [e], Run(s, events).cache[key];
    assert all[..|all| - 1] == events;
    EverySlotWitnessed(s, events);
    WitnessCarries(s, all, key, entry);
    m, year :| FilledBy(s, all, m, year, key, entry.balance) && all[m - 1].at == entry.expiresAt - TTL;
    assert all[|all| - 1] == e;
  }

  lemma MissWitness(s: Store, events: seq<Event>, e: Event, row: Row)
    requires e.op.Read? && Fresh(Run(s, events).cache, CacheKey(e.op.d, e.op.year), e.at).None?
    requires GetBalance(Run(s, events), e.op.d, e.op.year, e.op.hcm, e.at).result == Ok(row)
    ensures FilledBy(s, events + [e], |events| + 1, e.op.year, CacheKey(e.op.d, e.op.year), row)
    ensures (events + [e])[|events|] == e
  {
    var all := events + [e];
    assert all[..|events| + 1] == all && all[..|all| - 1] == events;
    ReadShape(Run(s, events), e.op.d, e.op.year, e.op.hcm, e.at);
  }

  /** Whatever a read answers at time T was the row of a lookup of the same slot at some moment in
      [T - TTL, T]: over every run, with any ids, mixed spellings and reconciliations that bypass the
      cache. */
  lemma BoundedStalenessBySlot(s: Store, events: seq<Event>, d: Dims, year: int, hcm: Hcm, now: int)
      returns (m: nat, year': int)
    requires s.cache == map[]
    requires Monotone(events + [Event(Read(d, year, hcm), now)])
    requires GetBalance(Run(s, events), d, year, hcm, now).result.Ok?
    ensures var all := events + [Event(Read(d, year, hcm), now)];
      && FilledBy(s, all, m, year', CacheKey(d, year), GetBalance(Run(s, events), d, year, hcm, now).result.value)
      && now - TTL <= all[m - 1].at <= now
  {
    var e, row := Event(Read(d, year, hcm), now), GetBalance(Run(s, events), d, year, hcm, now).result.value;
    ReadShape(Run(s, events), d, year, hcm, now);
    if Fresh(Run(s, events).cache, CacheKey(d, year), now).Some? {
      m, year' := HitWitness(s, events, e, CacheKey(d, year), row);
    } else {
      MissWitness(s, events, e, row);
      m, year' := |events| + 1, year;
    }
  }

  /** So it was the row of that very lookup, if its slot is its own: if its fields hold no colon, or
      if no id that is looked up does. */
  lemma BoundedStaleness(s: Store, events: seq<Event>, d: Dims, year: int, hcm: Hcm, now: int)
      returns (m: nat)
    requires s.cache == map[]
    requires ColonFreeDims(d) || (PlainIds(d) && forall e :: e in events ==> PlainIds(e.op.d))
    requires Monotone(events + [Event(Read(d, year, hcm), now)])
    requires GetBalance(Run(s, events), d, year, hcm, now).result.Ok?
    ensures var all := events + [Event(Read(d, year, hcm), now)];
      && HeldAfter(s, all, m, d, GetBalance(Run(s, events), d, year, hcm, now).result.value)
      && now - TTL <= all[m - 1].at <= now
  {
    var all := events + [Event(Read(d, year, hcm), now)];
    var year';
    m, year' := BoundedStalenessBySlot(s, events, d, year, hcm, now);
    assert all[m - 1] in all;
    if ColonFreeDims(d) {
      OwnKey(d, year, all[m - 1].op.d, year');
    } else {
      KeyInjective(d, year, all[m - 1].op.d, year');
    }
  }

  lemma LongerIdsDiffer(d: Dims, d': Dims)
    requires |d.employee| != |d'.employee|
    ensures !SameFold(d, d')
  {
    assert |Lower(d.employee)| != |Lower(d'.employee)|;
  }

  /** Without that it was not: whenever an id holds a colon, a read that finds or hydrates a row makes
      the reads of another employee answer that row, for the whole life of the slot, although the row
      is not theirs in any spelling. */
  lemma ColonsServeForeignRow(s: Store, d: Dims, year: int, hcm: Hcm, now: int) returns (d': Dims)
    requires !PlainIds(d) && Fresh(s.cache, CacheKey(d, year), now).None?
    requires GetBalance(s, d, year, hcm, now).result.Ok?
    ensures var g := GetBalance(s, d, year, hcm, now);
      && SameFold(g.result.value.dims, d) && !SameFold(g.result.value.dims, d')
      && forall hcm', later :: later <= now + TTL ==> GetBalance(g.store, d', year, hcm', later) == g
  {
    d' := ColonsCollide(d, year);
    LongerIdsDiffer(d, d');
    ReadShape(s, d, year, hcm, now);
    var g := GetBalance(s, d, year, hcm, now);
    forall hcm', later | later <= now + TTL
      ensures GetBalance(g.store, d', year, hcm', later) == g
    {
      ReadShape(g.store, d', year, hcm', later);
    }
  }
}
