/** The string keys of the balance cache and what a key prefix selects. */
module CacheKeys {
  import opened Text

  /** What a balance is about. */
  datatype Dims = Dims(employee: string, location: string, leaveType: string)

  function PairPrefix(employee: string, location: string): string {
    employee + ":" + location + ":"
  }

  function CacheKey(d: Dims, year: int): string {
    d.employee + ":" + d.location + ":" + d.leaveType + ":" + IntText(year)
  }

  /** The ids that take part in prefix matching hold no separator. */
  predicate PlainIds(d: Dims) {
    ColonFree(d.employee) && ColonFree(d.location)
  }

  /** Cutting at the first colon is unambiguous, for prefixes too. */
  lemma FirstField(a: string, x: string, b: string, y: string)
    requires ColonFree(a) && ColonFree(b)
    ensures a + ":" + x <= b + ":" + y <==> a == b && x <= y
  {
    var s, t := a + ":" + x, b + ":" + y;
    assert s[|a|] == ':' && t[|b|] == ':';
    if s <= t {
      assert a == s[..|a|] == t[..|a|] == b;
      assert x == s[|a| + 1..] && y == t[|a| + 1..];
    }
    if a == b && x <= y {
      assert t == s + y[|x|..];
    }
  }

  /** Cutting at the last colon is unambiguous. */
  lemma LastField(x: string, a: string, y: string, b: string)
    requires ColonFree(a) && ColonFree(b)
    requires x + ":" + a == y + ":" + b
    ensures x == y && a == b
  {
    var s, t := x + ":" + a, y + ":" + b;
    assert s[|x|] == ':' && t[|y|] == ':';
    assert x == s[..|x|] == t[..|x|] == y;
    assert a == s[|x| + 1..] && b == t[|x| + 1..];
  }

  lemma KeyFields(d: Dims, year: int)
    ensures CacheKey(d, year) == d.employee + ":" + (d.location + ":" + (d.leaveType + ":" + IntText(year)))
  {
  }

  lemma SameFirstField(a: string, x: string, b: string, y: string)
    requires ColonFree(a) && ColonFree(b)
    requires a + ":" + x == b + ":" + y
    ensures a == b && x == y
  {
    FirstField(a, x, b, y);
    FirstField(b, y, a, x);
  }

  /** Two plain-id lookups share a cache slot only when they are the same lookup. Leave types may
      hold colons: the year is cut off from the right. */
  lemma KeyInjective(d: Dims, year: int, d': Dims, year': int)
    requires PlainIds(d) && PlainIds(d')
    requires CacheKey(d, year) == CacheKey(d', year')
    ensures d == d' && year == year'
  {
    var last, last' := IntText(year), IntText(year');
    KeyFields(d, year);
    KeyFields(d', year');
    SameFirstField(d.employee, d.location + ":" + (d.leaveType + ":" + last),
                   d'.employee, d'.location + ":" + (d'.leaveType + ":" + last'));
    SameFirstField(d.location, d.leaveType + ":" + last, d'.location, d'.leaveType + ":" + last');
    IntTextColonFree(year);
    IntTextColonFree(year');
    LastField(d.leaveType, last, d'.leaveType, last');
    IntTextInjective(year, year');
  }

  /** A key starts with the prefix of a pair exactly when it was built from that pair, whatever the
      leave type and the year. */
  lemma PrefixSelectsPair(employee: string, location: string, d: Dims, year: int)
    requires ColonFree(employee) && ColonFree(location) && PlainIds(d)
    ensures PairPrefix(employee, location) <= CacheKey(d, year) <==> employee == d.employee && location == d.location
  {
    var tail := d.leaveType + ":" + IntText(year);
    assert CacheKey(d, year) == d.employee + ":" + (d.location + ":" + tail);
    assert PairPrefix(employee, location) == employee + ":" + (location + ":" + "");
    FirstField(employee, location + ":" + "", d.employee, d.location + ":" + tail);
    FirstField(location, "", d.location, tail);
  }

  /** The employee-wide prefix selects exactly the keys of that employee. */
  lemma PrefixSelectsEmployee(employee: string, d: Dims, year: int)
    requires ColonFree(employee) && PlainIds(d)
    ensures employee + ":" <= CacheKey(d, year) <==> employee == d.employee
  {
    var rest := d.location + ":" + d.leaveType + ":" + IntText(year);
    assert CacheKey(d, year) == d.employee + ":" + rest;
    assert employee + ":" == employee + ":" + "";
    FirstField(employee, "", d.employee, rest);
  }

  // ---- ids that hold colons ------------------------------------------------------------------

  function Colons(s: string): nat {
    multiset(s)[':']
  }

  lemma ColonsAdd(s: string, t: string)
    ensures Colons(s + t) == Colons(s) + Colons(t)
  {
  }

  lemma NoColons(s: string)
    ensures ColonFree(s) <==> Colons(s) == 0
  {
    if !ColonFree(s) {
      var i :| 0 <= i < |s| && s[i] == ':';
      assert s[i] in multiset(s);
    }
    assert Colons(s) > 0 ==> ':' in multiset(s);
  }

  lemma KeyColons(d: Dims, year: int)
    ensures Colons(CacheKey(d, year)) == Colons(d.employee) + Colons(d.location) + Colons(d.leaveType) + 3
  {
    var e, l, t, y := d.employee, d.location, d.leaveType, IntText(year);
    assert Colons(":") == 1;
    IntTextColonFree(year);
    NoColons(y);
    ColonsAdd(e, ":");
    ColonsAdd(e + ":", l);
    ColonsAdd(e + ":" + l, ":");
    ColonsAdd(e + ":" + l + ":", t);
    ColonsAdd(e + ":" + l + ":" + t, ":");
    ColonsAdd(e + ":" + l + ":" + t + ":", y);
  }

  lemma SplitAtColon(s: string) returns (a: string, b: string)
    requires !ColonFree(s)
    ensures s == a + ":" + b
  {
    var i :| 0 <= i < |s| && s[i] == ':';
    a, b := s[..i], s[i + 1..];
  }

  lemma Regroup(a: string, b: string, c: string)
    ensures a + ":" + (b + ":" + c) == (a + ":" + b) + ":" + c
  {
  }

  lemma PairOfKey(d: Dims, year: int)
    ensures PairPrefix(d.employee, d.location) <= CacheKey(d, year)
  {
    assert CacheKey(d, year) == PairPrefix(d.employee, d.location) + (d.leaveType + ":" + IntText(year));
  }

  /** Every lookup whose employee or location holds a colon shares its slot with a lookup of another
      employee, for the same leave type and year: the id is split at the colon and the rest moves over.
      Evicting that other pair reaches the slot. */
  lemma ColonsCollide(d: Dims, year: int) returns (d': Dims)
    requires !PlainIds(d)
    ensures |d'.employee| != |d.employee| && d'.leaveType == d.leaveType
    ensures CacheKey(d', year) == CacheKey(d, year)
    ensures PairPrefix(d'.employee, d'.location) <= CacheKey(d, year)
  {
    if !ColonFree(d.employee) {
      var a, b := SplitAtColon(d.employee);
      d' := d.(employee := a, location := b + ":" + d.location);
      Regroup(a, b, d.location);
    } else {
      var a, b := SplitAtColon(d.location);
      d' := d.(employee := d.employee + ":" + a, location := b);
      Regroup(d.employee, a, b);
    }
    PairOfKey(d', year);
  }

  /** Another lookup of the same leave type that lands in the same slot. */
  predicate Shares(d: Dims, d': Dims, year: int) {
    d' != d && d'.leaveType == d.leaveType && CacheKey(d', year) == CacheKey(d, year)
  }

  /** The slot of a lookup is shared by another employee or location if and only if one of its own
      ids holds a colon. */
  lemma SlotIsSharedIff(d: Dims, year: int)
    ensures (exists d' :: Shares(d, d', year)) <==> !PlainIds(d)
  {
    if !PlainIds(d) {
      var d' := ColonsCollide(d, year);
      assert Shares(d, d', year);
    }
    forall d' | Shares(d, d', year)
      ensures !PlainIds(d)
    {
      if PlainIds(d) {
        KeyColons(d, year);
        KeyColons(d', year);
        NoColons(d.employee);
        NoColons(d.location);
        NoColons(d'.employee);
        NoColons(d'.location);
        KeyInjective(d', year, d, year);
      }
    }
  }

  predicate ColonFreeDims(d: Dims) {
    PlainIds(d) && ColonFree(d.leaveType)
  }

  /** A slot belongs to one lookup alone, among all lookups there are, if and only if none of its
      three fields holds a colon. */
  lemma SlotIsOwnIff(d: Dims, year: int)
    ensures (forall d', year' :: CacheKey(d', year') == CacheKey(d, year) ==> d' == d && year' == year) <==> ColonFreeDims(d)
  {
    if ColonFreeDims(d) {
      forall d', year' | CacheKey(d', year') == CacheKey(d, year)
        ensures d' == d && year' == year
      {
        OwnKey(d, year, d', year');
      }
    } else if !PlainIds(d) {
      var d' := ColonsCollide(d, year);
    } else {
      var d' := LeaveTypeCollides(d, year);
    }
  }

  lemma OwnKey(d: Dims, year: int, d': Dims, year': int)
    requires ColonFreeDims(d) && CacheKey(d', year') == CacheKey(d, year)
    ensures d' == d && year' == year
  {
    KeyColons(d, year);
    KeyColons(d', year');
    NoColons(d.employee);
    NoColons(d.location);
    NoColons(d.leaveType);
    NoColons(d'.employee);
    NoColons(d'.location);
    KeyInjective(d', year', d, year);
  }

  lemma LeaveTypeCollides(d: Dims, year: int) returns (d': Dims)
    requires !ColonFree(d.leaveType)
    ensures d' != d && CacheKey(d', year) == CacheKey(d, year)
  {
    var a, b := SplitAtColon(d.leaveType);
    d' := d.(location := d.location + ":" + a, leaveType := b);
    Regroup(d.employee, d.location, a);
    Regroup(d.employee + ":" + d.location, a, b);
  }
}
