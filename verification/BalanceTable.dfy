/** The `balances` table: rows, the two lookups, and writes under the table's constraints. */
module BalanceTable {
  import opened Wrappers
  import opened Failures
  import opened Text
  import opened CacheKeys
  import opened FixedPoint

  datatype Row = Row(
    dims: Dims,
    figures: Figures,
    carryover: Option<int>,
    year: int,
    version: nat,
    stale: bool,
    cachedAt: int)

  /** A row together with its identity in the table; every read yields a fresh one. */
  datatype Entity = Entity(id: nat, row: Row)

  function Fold(d: Dims): Dims {
    Dims(Lower(d.employee), Lower(d.location), Lower(d.leaveType))
  }

  predicate SameFold(d: Dims, d': Dims) {
    Fold(d) == Fold(d')
  }

  /** The case-insensitive lookup: the first row that matches, whatever its year. */
  function FindByDimensions(rows: seq<Row>, d: Dims): (found: Option<nat>)
    ensures found.Some? ==>
      && found.value < |rows|
      && SameFold(rows[found.value].dims, d)
      && forall k :: 0 <= k < found.value ==> !SameFold(rows[k].dims, d)
    ensures found.None? ==> forall k :: 0 <= k < |rows| ==> !SameFold(rows[k].dims, d)
  {
    if |rows| == 0 then None
    else if SameFold(rows[0].dims, d) then Some(0)
    else
      match FindByDimensions(rows[1..], d)
      case Some(k) => Some(k + 1)
      case None => None
  }

  /** `findOne` on the three columns as spelled. */
  function FindExact(rows: seq<Row>, d: Dims): (found: Option<nat>)
    ensures found.Some? ==>
      && found.value < |rows|
      && rows[found.value].dims == d
      && forall k :: 0 <= k < found.value ==> rows[k].dims != d
    ensures found.None? ==> forall k :: 0 <= k < |rows| ==> rows[k].dims != d
  {
    if |rows| == 0 then None
    else if rows[0].dims == d then Some(0)
    else
      match FindExact(rows[1..], d)
      case Some(k) => Some(k + 1)
      case None => None
  }

  /** The row a lookup yields. */
  function RowFor(rows: seq<Row>, d: Dims): Option<Row> {
    match FindByDimensions(rows, d)
    case Some(i) => Some(rows[i])
    case None => None
  }

  predicate ChecksHold(row: Row) {
    row.figures.available >= 0 && row.figures.used >= 0
  }

  /** `save` of a row that was read from the table. */
  function SaveRow(rows: seq<Row>, id: nat, row: Row): Result<seq<Row>, Failure>
    requires id < |rows|
  {
    if ChecksHold(row) then Ok(rows[id := row]) else Err(CheckViolation)
  }

  predicate Occupied(rows: seq<Row>, d: Dims, year: int) {
    exists k :: 0 <= k < |rows| && rows[k].dims == d && rows[k].year == year
  }

  /** `save` of a new row. */
  function InsertRow(rows: seq<Row>, row: Row): Result<seq<Row>, Failure> {
    if !ChecksHold(row) then Err(CheckViolation)
    else if Occupied(rows, row.dims, row.year) then Err(UniqueViolation)
    else Ok(rows + [row])
  }

  /** At most one row for each case-folded employee, location and leave type. */
  ghost predicate Functional(rows: seq<Row>) {
    forall i, j :: 0 <= i < j < |rows| ==> !SameFold(rows[i].dims, rows[j].dims)
  }

  ghost predicate AllChecksHold(rows: seq<Row>) {
    forall i :: 0 <= i < |rows| ==> ChecksHold(rows[i])
  }

  /** Both lookups see the dimensions of the rows alone. */
  lemma LookupsSeeDims(rows: seq<Row>, rows': seq<Row>, d: Dims)
    requires |rows'| == |rows| && forall k :: 0 <= k < |rows| ==> rows'[k].dims == rows[k].dims
    ensures FindByDimensions(rows', d) == FindByDimensions(rows, d)
    ensures FindExact(rows', d) == FindExact(rows, d)
  {
  }

  /** Rewriting a row under unchanged dimensions moves no lookup. */
  lemma RewriteKeepsLookups(rows: seq<Row>, id: nat, row: Row, d: Dims)
    requires id < |rows| && row.dims == rows[id].dims
    ensures FindByDimensions(rows[id := row], d) == FindByDimensions(rows, d)
    ensures FindExact(rows[id := row], d) == FindExact(rows, d)
  {
    LookupsSeeDims(rows, rows[id := row], d);
  }

  /** Appending a row answers only the lookups that found nothing. */
  lemma AppendKeepsLookups(rows: seq<Row>, row: Row, d: Dims)
    ensures FindByDimensions(rows, d).Some? ==> FindByDimensions(rows + [row], d) == FindByDimensions(rows, d)
    ensures FindByDimensions(rows, d).None? && SameFold(row.dims, d) ==>
      FindByDimensions(rows + [row], d) == Some(|rows|)
    ensures FindByDimensions(rows, d).None? && !SameFold(row.dims, d) ==> FindByDimensions(rows + [row], d).None?
    ensures FindExact(rows, d).Some? ==> FindExact(rows + [row], d) == FindExact(rows, d)
  {
    var rows' := rows + [row];
    assert forall k :: 0 <= k < |rows| ==> rows'[k] == rows[k];
    assert rows'[|rows|] == row;
  }

  /** Lookups see dimensions only through their case-folded form. */
  lemma LookupFolds(rows: seq<Row>, d: Dims, d': Dims)
    requires SameFold(d, d')
    ensures FindByDimensions(rows, d) == FindByDimensions(rows, d')
  {
  }

  /** In a functional table the lookup finds the one row there is. */
  lemma FunctionalLookup(rows: seq<Row>, i: nat, d: Dims)
    requires Functional(rows) && i < |rows| && SameFold(rows[i].dims, d)
    ensures FindByDimensions(rows, d) == Some(i)
  {
    var found := FindByDimensions(rows, d);
    if found.Some? {
      assert SameFold(rows[found.value].dims, rows[i].dims);
    }
  }

  /** The three fields are equal but for the case of ASCII letters. */
  predicate Alike(d: Dims, d': Dims) {
    && SameIgnoringCase(d.employee, d'.employee)
    && SameIgnoringCase(d.location, d'.location)
    && SameIgnoringCase(d.leaveType, d'.leaveType)
  }

  lemma AlikeIsSameFold(d: Dims, d': Dims)
    ensures SameFold(d, d') <==> Alike(d, d')
  {
    LowerIgnoresCase(d.employee, d'.employee);
    LowerIgnoresCase(d.location, d'.location);
    LowerIgnoresCase(d.leaveType, d'.leaveType);
  }

  /** The lookup answers the first row whose fields differ in case alone, and nothing only if there is
      no such row. */
  lemma LookupIgnoresCase(rows: seq<Row>, d: Dims)
    ensures match FindByDimensions(rows, d)
      case Some(i) => i < |rows| && Alike(rows[i].dims, d) && forall k :: 0 <= k < i ==> !Alike(rows[k].dims, d)
      case None => forall k :: 0 <= k < |rows| ==> !Alike(rows[k].dims, d)
  {
    forall k | 0 <= k < |rows|
      ensures SameFold(rows[k].dims, d) <==> Alike(rows[k].dims, d)
    {
      AlikeIsSameFold(rows[k].dims, d);
    }
  }

  /** A new row is refused for a negative figure, or else for a row of the same four columns, and is
      appended otherwise. */
  lemma InsertionDecides(rows: seq<Row>, row: Row)
    ensures var negative := row.figures.available < 0 || row.figures.used < 0;
      var taken := exists k :: 0 <= k < |rows| && rows[k].dims == row.dims && rows[k].year == row.year;
      InsertRow(rows, row) ==
        if negative then Err(CheckViolation) else if taken then Err(UniqueViolation) else Ok(rows + [row])
  {
  }

  class BalancesRepository {
    var rows: seq<Row>

    constructor (initial: seq<Row>)
      ensures rows == initial
    {
      rows := initial;
    }

    method LookUp(d: Dims) returns (found: Option<Entity>)
      ensures found.Some? <==> FindByDimensions(rows, d).Some?
      ensures found.Some? ==>
        found.value.id < |rows| && FindByDimensions(rows, d) == Some(found.value.id) && found.value.row == rows[found.value.id]
    {
      var i := FindByDimensions(rows, d);
      found := match i case Some(id) => Some(Entity(id, rows[id])) case None => None;
    }

    method FindOne(d: Dims) returns (found: Option<Entity>)
      ensures found.Some? <==> FindExact(rows, d).Some?
      ensures found.Some? ==>
        found.value.id < |rows| && FindExact(rows, d) == Some(found.value.id) && found.value.row == rows[found.value.id]
    {
      var i := FindExact(rows, d);
      found := match i case Some(id) => Some(Entity(id, rows[id])) case None => None;
    }

    method Save(e: Entity) returns (failure: Option<Failure>)
      requires e.id < |rows|
      modifies this
      ensures failure == if ChecksHold(e.row) then None else Some(CheckViolation)
      ensures rows == if ChecksHold(e.row) then old(rows)[e.id := e.row] else old(rows)
    {
      if ChecksHold(e.row) {
        rows := rows[e.id := e.row];
        failure := None;
      } else {
        failure := Some(CheckViolation);
      }
    }

    method Insert(row: Row) returns (failure: Option<Failure>)
      modifies this
      ensures match InsertRow(old(rows), row)
        case Ok(rows') => failure == None && rows == rows'
        case Err(f) => failure == Some(f) && rows == old(rows)
    {
      match InsertRow(rows, row) {
        case Ok(rows') => rows := rows'; failure := None;
        case Err(f) => failure := Some(f);
      }
    }
  }
}
