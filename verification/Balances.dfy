/** The balance service: the table, the cache in front of it and hydration from the HCM. Every
    operation is given as a function on the pair of stores and as a method that meets it. */
module Balances {
  import opened Wrappers
  import opened Failures
  import opened Text
  import opened CacheKeys
  import opened FixedPoint
  import opened BalanceTable
  import opened BalanceCache

  /** What the HCM answers; `used` may be missing. */
  datatype HcmBalance = HcmBalance(available: int, used: Option<int>)

  /** The HCM as one service call sees it; `None` is a failed call. */
  type Hcm = Dims -> Option<HcmBalance>

  datatype Store = Store(rows: seq<Row>, cache: Cache)

  datatype Reply<+T> = Reply(store: Store, result: Result<T, Failure>)

  // ---- hydration -----------------------------------------------------------------------------

  datatype Hydration = Hydration(rows: seq<Row>, row: Option<Row>)

  function Candidates(employee: string): seq<string> {
    if Lower(employee) != employee then [employee, Lower(employee)] else [employee]
  }

  function HydratedRow(d: Dims, balance: HcmBalance, year: int, now: int): Row {
    Row(d, Figures(balance.available, balance.used.GetOr(0)), Some(0), year, 1, false, now)
  }

  /** One candidate: ask the HCM, insert what it answers; any failure moves on to the next one. */
  function Attempt(rows: seq<Row>, d: Dims, year: int, hcm: Hcm, now: int): Hydration {
    match hcm(d)
    case None => Hydration(rows, None)
    case Some(balance) =>
      match InsertRow(rows, HydratedRow(d, balance, year, now))
      case Ok(rows') => Hydration(rows', Some(HydratedRow(d, balance, year, now)))
      case Err(_) => Hydration(rows, None)
  }

  function HydrateFrom(rows: seq<Row>, candidates: seq<string>, d: Dims, year: int, hcm: Hcm, now: int): Hydration
    decreases |candidates|
  {
    if |candidates| == 0 then Hydration(rows, None)
    else
      var first := Attempt(rows, d.(employee := candidates[0]), year, hcm, now);
      if first.row.Some? then first else HydrateFrom(rows, candidates[1..], d, year, hcm, now)
  }

  function FindOrHydrate(rows: seq<Row>, d: Dims, year: int, hcm: Hcm, now: int): Hydration {
    match RowFor(rows, d)
    case Some(row) => Hydration(rows, Some(row))
    case None => HydrateFrom(rows, Candidates(d.employee), d, year, hcm, now)
  }

  // ---- operations ----------------------------------------------------------------------------

  function GetBalance(s: Store, d: Dims, year: int, hcm: Hcm, now: int): Reply<Row> {
    var key := CacheKey(d, year);
    var cache := Touched(s.cache, key, now);
    match Fresh(s.cache, key, now)
    case Some(balance) => Reply(s.(cache := cache), Ok(balance))
    case None =>
      var h := FindOrHydrate(s.rows, d, year, hcm, now);
      match h.row
      case Some(row) => Reply(Store(h.rows, Put(cache, key, row, now)), Ok(row))
      case None => Reply(Store(h.rows, cache), Err(NotFound))
  }

  predicate Covers(row: Row, days: real) {
    row.figures.available as real / 100.0 >= days
  }

  function ValidateBalance(s: Store, d: Dims, days: real, year: int, hcm: Hcm, now: int): Reply<bool> {
    var reply := GetBalance(s, d, year, hcm, now);
    match reply.result
    case Err(f) => Reply(reply.store, Err(f))
    case Ok(row) => Reply(reply.store, if Covers(row, days) then Ok(true) else Err(InsufficientBalance))
  }

  function ValidateDimensions(s: Store, d: Dims, year: int, hcm: Hcm, now: int): Reply<bool> {
    var h := FindOrHydrate(s.rows, d, year, hcm, now);
    Reply(s.(rows := h.rows), if h.row.Some? then Ok(true) else Err(InvalidDimension))
  }

  /** Re-reads the row and re-caches it; no HCM call is made. */
  function RefreshBalance(s: Store, d: Dims, year: int, now: int): Reply<Row> {
    match FindByDimensions(s.rows, d)
    case None => Reply(s, Err(NotFound))
    case Some(id) =>
      var row := s.rows[id].(stale := false, cachedAt := now);
      match SaveRow(s.rows, id, row)
      case Err(f) => Reply(s, Err(f))
      case Ok(rows) => Reply(Store(rows, Put(s.cache, CacheKey(d, year), row, now)), Ok(row))
  }

  /** `(version || 1) + 1` */
  function NextVersion(version: nat): nat {
    (if version == 0 then 1 else version) + 1
  }

  function Rewrite(s: Store, d: Dims, figures: Figures, id: nat): Reply<bool>
    requires id < |s.rows|
  {
    var row := s.rows[id].(figures := figures, version := NextVersion(s.rows[id].version));
    match SaveRow(s.rows, id, row)
    case Err(f) => Reply(s, Err(f))
    case Ok(rows) => Reply(Store(rows, Evicted(s.cache, PairPrefix(d.employee, d.location))), Ok(true))
  }

  function UpdateUsedBalance(s: Store, d: Dims, days: int): Reply<bool> {
    match FindByDimensions(s.rows, d)
    case None => Reply(s, Err(NotFound))
    case Some(id) => Rewrite(s, d, Deduct(s.rows[id].figures, days), id)
  }

  function RefundBalance(s: Store, d: Dims, days: int): Reply<bool> {
    match FindByDimensions(s.rows, d)
    case None => Reply(s, Err(NotFound))
    case Some(id) => Rewrite(s, d, Refund(s.rows[id].figures, days), id)
  }

  // ---- the service ---------------------------------------------------------------------------

  class BalancesService {
    const repository: BalancesRepository
    const cacheService: BalanceCacheService

    constructor (repository: BalancesRepository, cacheService: BalanceCacheService)
      ensures this.repository == repository && this.cacheService == cacheService
    {
      this.repository := repository;
      this.cacheService := cacheService;
    }

    ghost function View(): Store
      reads repository, cacheService
    {
      Store(repository.rows, cacheService.cache)
    }

    method HydrateBalanceFromHcm(d: Dims, year: int, hcm: Hcm, now: int) returns (balance: Option<Row>)
      modifies repository
      ensures Hydration(repository.rows, balance)
           == HydrateFrom(old(repository.rows), Candidates(d.employee), d, year, hcm, now)
    {
      var candidates := [d.employee];
      var lower := Lower(d.employee);
      if lower != d.employee {
        candidates := candidates + [lower];
      }
      assert candidates == Candidates(d.employee);
      for i := 0 to |candidates|
        invariant repository.rows == old(repository.rows)
        invariant HydrateFrom(repository.rows, candidates, d, year, hcm, now)
               == HydrateFrom(repository.rows, candidates[i..], d, year, hcm, now)
      {
        var candidate := d.(employee := candidates[i]);
        match hcm(candidate) {
          case None =>
          case Some(answer) =>
            var row := HydratedRow(candidate, answer, year, now);
            var failure := repository.Insert(row);
            if failure.None? {
              return Some(row);
            }
        }
      }
      return None;
    }

    method FindOrHydrateRow(d: Dims, year: int, hcm: Hcm, now: int) returns (balance: Option<Row>)
      modifies repository
      ensures Hydration(repository.rows, balance) == FindOrHydrate(old(repository.rows), d, year, hcm, now)
    {
      var found := repository.LookUp(d);
      if found.Some? {
        return Some(found.value.row);
      }
      balance := HydrateBalanceFromHcm(d, year, hcm, now);
    }

    method Get(d: Dims, year: int, hcm: Hcm, now: int) returns (result: Result<Row, Failure>)
      modifies repository, cacheService
      ensures Reply(View(), result) == GetBalance(old(View()), d, year, hcm, now)
    {
      var key := CacheKey(d, year);
      var cached := cacheService.GetFromCache(key, now);
      if cached.Some? {
        return Ok(cached.value);
      }
      var balance := FindOrHydrateRow(d, year, hcm, now);
      if balance.None? {
        return Err(NotFound);
      }
      cacheService.SetInCache(key, balance.value, now);
      return Ok(balance.value);
    }

    method Validate(d: Dims, days: real, year: int, hcm: Hcm, now: int) returns (result: Result<bool, Failure>)
      modifies repository, cacheService
      ensures Reply(View(), result) == ValidateBalance(old(View()), d, days, year, hcm, now)
    {
      var balance := Get(d, year, hcm, now);
      if balance.Err? {
        return Err(balance.error);
      }
      if !Covers(balance.value, days) {
        return Err(InsufficientBalance);
      }
      return Ok(true);
    }

    method ValidateDims(d: Dims, year: int, hcm: Hcm, now: int) returns (result: Result<bool, Failure>)
      modifies repository
      ensures Reply(View(), result) == ValidateDimensions(old(View()), d, year, hcm, now)
    {
      var balance := FindOrHydrateRow(d, year, hcm, now);
      if balance.None? {
        return Err(InvalidDimension);
      }
      return Ok(true);
    }

    method Refresh(d: Dims, year: int, now: int) returns (result: Result<Row, Failure>)
      modifies repository, cacheService
      ensures Reply(View(), result) == RefreshBalance(old(View()), d, year, now)
    {
      var found := repository.LookUp(d);
      if found.None? {
        return Err(NotFound);
      }
      var row := found.value.row.(stale := false, cachedAt := now);
      var failure := repository.Save(Entity(found.value.id, row));
      if failure.Some? {
        return Err(failure.value);
      }
      cacheService.SetInCache(CacheKey(d, year), row, now);
      return Ok(row);
    }

    method UpdateUsed(d: Dims, days: int) returns (result: Result<bool, Failure>)
      modifies repository, cacheService
      ensures Reply(View(), result) == UpdateUsedBalance(old(View()), d, days)
    {
      var found := repository.LookUp(d);
      if found.None? {
        return Err(NotFound);
      }
      var row := found.value.row;
      var available, used := row.figures.available, row.figures.used;
      row := row.(figures := Figures(available - days, used + days), version := NextVersion(row.version));
      var failure := repository.Save(Entity(found.value.id, row));
      if failure.Some? {
        return Err(failure.value);
      }
      cacheService.InvalidateCache(d.employee, d.location);
      return Ok(true);
    }

    method GiveBack(d: Dims, days: int) returns (result: Result<bool, Failure>)
      modifies repository, cacheService
      ensures Reply(View(), result) == RefundBalance(old(View()), d, days)
    {
      var found := repository.LookUp(d);
      if found.None? {
        return Err(NotFound);
      }
      var row := found.value.row;
      var available, used := row.figures.available, row.figures.used;
      var remaining := if used - days < 0 then 0 else used - days;
      row := row.(figures := Figures(available + days, remaining), version := NextVersion(row.version));
      var failure := repository.Save(Entity(found.value.id, row));
      if failure.Some? {
        return Err(failure.value);
      }
      cacheService.InvalidateCache(d.employee, d.location);
      return Ok(true);
    }
  }
}
