/**
 The voice agent's listing search: filters that repair themselves, a scan of the realtor's catalog, and a stable
 sort with unknown values at the end. Numbers are exact; floating-point infinities and NaN are not modelled.
 */
module ListingSearch {
  import opened Prelude
  import opened Text

  /** A catalog row: the fields a search looks at, and the rest. */
  datatype Home = Home(
    beds: Option<int>, baths: Option<real>, price: Option<real>, sqft: Option<int>,
    area: Option<string>, address: Option<string>, rest: string)

  /** What the buyer asked for, as extracted from speech. */
  datatype Query = Query(
    minBeds: Option<int>, minBaths: Option<real>, minPrice: Option<real>, maxPrice: Option<real>,
    area: Option<string>, minSqft: Option<int>, maxSqft: Option<int>,
    sortBy: Option<string>, sortOrder: Option<string>)

  // ---------------------------------------------------------------- filters that repair themselves

  function Whitelisted(v: Option<string>, allowed: set<string>): Option<string> {
    if v.Some? && Lower(Strip(v.value)) in allowed then Some(Lower(Strip(v.value))) else None
  }

  function CleanArea(v: Option<string>): Option<string> {
    if v.Some? && Strip(v.value) != "" then Some(Strip(v.value)) else None
  }

  predicate Inverted(low: Option<real>, high: Option<real>) {
    low.Some? && high.Some? && low.value > high.value
  }

  predicate InvertedInt(low: Option<int>, high: Option<int>) {
    low.Some? && high.Some? && low.value > high.value
  }

  const SORT_FIELDS: set<string> := {"price", "beds", "sqft"}
  const SORT_ORDERS: set<string> := {"asc", "desc"}

  /** The query the validators leave: unknown sorts, inverted ranges and an orphan sort order are dropped. */
  function Repaired(q: Query): Query {
    var sortBy := Whitelisted(q.sortBy, SORT_FIELDS);
    var badPrice, badSqft := Inverted(q.minPrice, q.maxPrice), InvertedInt(q.minSqft, q.maxSqft);
    Query(q.minBeds, q.minBaths,
          if badPrice then None else q.minPrice, if badPrice then None else q.maxPrice,
          CleanArea(q.area),
          if badSqft then None else q.minSqft, if badSqft then None else q.maxSqft,
          sortBy, if sortBy.None? then None else Whitelisted(q.sortOrder, SORT_ORDERS))
  }

  class ListingSearchFilters {
    var minBeds: Option<int>
    var minBaths: Option<real>
    var minPrice: Option<real>
    var maxPrice: Option<real>
    var area: Option<string>
    var minSqft: Option<int>
    var maxSqft: Option<int>
    var sortBy: Option<string>
    var sortOrder: Option<string>

    function Value(): Query
      reads this
    {
      Query(minBeds, minBaths, minPrice, maxPrice, area, minSqft, maxSqft, sortBy, sortOrder)
    }

    /** The field validators, then `_sane`. */
    constructor (q: Query)
      ensures Value() == Repaired(q)
    {
      minBeds, minBaths, minPrice, maxPrice := q.minBeds, q.minBaths, q.minPrice, q.maxPrice;
      area, minSqft, maxSqft := CleanArea(q.area), q.minSqft, q.maxSqft;
      sortBy, sortOrder := Whitelisted(q.sortBy, SORT_FIELDS), Whitelisted(q.sortOrder, SORT_ORDERS);
      new;
      Sane();
    }

    /** Drops an inverted range whole, and an order with nothing to order by. */
    method Sane()
      modifies this
      ensures Value() == old(Value()).(
        minPrice := if old(Inverted(minPrice, maxPrice)) then None else old(minPrice),
        maxPrice := if old(Inverted(minPrice, maxPrice)) then None else old(maxPrice),
        minSqft := if old(InvertedInt(minSqft, maxSqft)) then None else old(minSqft),
        maxSqft := if old(InvertedInt(minSqft, maxSqft)) then None else old(maxSqft),
        sortOrder := if old(sortBy).None? then None else old(sortOrder))
      ensures !Inverted(minPrice, maxPrice) && !InvertedInt(minSqft, maxSqft) && (sortOrder.Some? ==> sortBy.Some?)
    {
      if minPrice.Some? && maxPrice.Some? && minPrice.value > maxPrice.value {
        minPrice, maxPrice := None, None;
      }
      if minSqft.Some? && maxSqft.Some? && minSqft.value > maxSqft.value {
        minSqft, maxSqft := None, None;
      }
      if sortOrder.Some? && sortBy.None? {
        sortOrder := None;
      }
    }

    /** `filter_listings`. */
    method FilterListings(catalog: seq<Home>) returns (matches: seq<Home>)
      ensures matches == Search(catalog, Value())
    {
      matches := Keep(catalog, Matching(Value()));
      if sortBy.Some? && sortBy.value != "" {
        var known := Keep(matches, HasValue(sortBy.value));
        var unknown := Keep(matches, LacksValue(sortBy.value));
        known := StableSort(sortBy.value, sortOrder == Some("desc"), known);
        matches := known + unknown;
      }
    }
  }

  // ---------------------------------------------------------------- the search

  /** `(x or 0) < low` is how the minimum bounds on beds, baths and square feet read an unknown. */
  function OrZero(x: Option<int>): int {
    if x.Some? then x.value else 0
  }

  function OrZeroReal(x: Option<real>): real {
    if x.Some? then x.value else 0.0
  }

  /** The filter predicate `ok`. */
  predicate Fits(q: Query, h: Home) {
    && !(q.minBeds.Some? && OrZero(h.beds) < q.minBeds.value)
    && !(q.minBaths.Some? && OrZeroReal(h.baths) < q.minBaths.value)
    && !(q.minPrice.Some? && (h.price.None? || h.price.value < q.minPrice.value))
    && !(q.maxPrice.Some? && (h.price.None? || h.price.value > q.maxPrice.value))
    && !(q.minSqft.Some? && OrZero(h.sqft) < q.minSqft.value)
    && !(q.maxSqft.Some? && (h.sqft.None? || h.sqft.value > q.maxSqft.value))
    && !(Truthy(q.area) && !Contains(Lower(OrEmpty(h.area)), Lower(q.area.value))
                        && !Contains(Lower(OrEmpty(h.address)), Lower(q.area.value)))
  }

  function SortValue(h: Home, field: string): Option<real> {
    if field == "price" then h.price
    else if field == "beds" then (if h.beds.Some? then Some(h.beds.value as real) else None)
    else if field == "sqft" then (if h.sqft.Some? then Some(h.sqft.value as real) else None)
    else None
  }

  /** The tests the comprehensions make of a row. */
  datatype Test =
    Matching(q: Query) | HasValue(field: string) | LacksValue(field: string) | Valued(field: string, value: real)

  predicate Passes(t: Test, h: Home) {
    match t
    case Matching(q) => Fits(q, h)
    case HasValue(field) => SortValue(h, field).Some?
    case LacksValue(field) => SortValue(h, field).None?
    case Valued(field, v) => SortValue(h, field) == Some(v)
  }

  /** `[h for h in s if t(h)]`. */
  function Keep(s: seq<Home>, t: Test): seq<Home> {
    if s == [] then [] else Keep(s[..|s| - 1], t) + (if Passes(t, s[|s| - 1]) then [s[|s| - 1]] else [])
  }

  predicate Precedes(field: string, desc: bool, a: Home, b: Home) {
    var x, y := SortValue(a, field), SortValue(b, field);
    x.Some? && y.Some? && if desc then x.value > y.value else x.value < y.value
  }

  /** Python's `list.sort` is stable, also with `reverse`: a row goes behind every row it does not precede. */
  function Insert(field: string, desc: bool, s: seq<Home>, h: Home): seq<Home> {
    if s == [] || !Precedes(field, desc, h, s[|s| - 1]) then s + [h]
    else Insert(field, desc, s[..|s| - 1], h) + [s[|s| - 1]]
  }

  function StableSort(field: string, desc: bool, s: seq<Home>): seq<Home> {
    if s == [] then [] else Insert(field, desc, StableSort(field, desc, s[..|s| - 1]), s[|s| - 1])
  }

  function Search(catalog: seq<Home>, q: Query): seq<Home> {
    var matches := Keep(catalog, Matching(q));
    if Truthy(q.sortBy)
    then StableSort(q.sortBy.value, q.sortOrder == Some("desc"), Keep(matches, HasValue(q.sortBy.value)))
         + Keep(matches, LacksValue(q.sortBy.value))
    else matches
  }

  // ---------------------------------------------------------------- filtering

  lemma {:induction false} KeepConcat(a: seq<Home>, b: seq<Home>, t: Test)
    ensures Keep(a + b, t) == Keep(a, t) + Keep(b, t)
  {
    if b == [] {
      assert a + b == a;
    } else {
      assert (a + b)[..|a + b| - 1] == a + b[..|b| - 1];
      KeepConcat(a, b[..|b| - 1], t);
    }
  }

  lemma {:induction false} KeepIs(s: seq<Home>, t: Test)
    ensures forall h :: multiset(Keep(s, t))[h] == if Passes(t, h) then multiset(s)[h] else 0
    ensures forall i :: 0 <= i < |Keep(s, t)| ==> Passes(t, Keep(s, t)[i])
  {
    if s != [] {
      assert s == s[..|s| - 1] + [s[|s| - 1]];
      KeepIs(s[..|s| - 1], t);
    }
  }

  lemma {:induction false} KeepAll(s: seq<Home>, t: Test)
    requires forall i :: 0 <= i < |s| ==> Passes(t, s[i])
    ensures Keep(s, t) == s
  {
    if s != [] {
      KeepAll(s[..|s| - 1], t);
    }
  }

  lemma {:induction false} KeepNone(s: seq<Home>, t: Test)
    requires forall i :: 0 <= i < |s| ==> !Passes(t, s[i])
    ensures Keep(s, t) == []
  {
    if s != [] {
      KeepNone(s[..|s| - 1], t);
    }
  }

  lemma {:induction false} KeepCommutes(s: seq<Home>, t: Test, u: Test)
    ensures Keep(Keep(s, t), u) == Keep(Keep(s, u), t)
  {
    if s != [] {
      var front, last := s[..|s| - 1], s[|s| - 1];
      KeepCommutes(front, t, u);
      KeepConcat(Keep(front, t), if Passes(t, last) then [last] else [], u);
      KeepConcat(Keep(front, u), if Passes(u, last) then [last] else [], t);
    }
  }

  /** A split by having a value loses and doubles nothing. */
  lemma {:induction false} KeepSplits(s: seq<Home>, field: string)
    ensures multiset(Keep(s, HasValue(field)) + Keep(s, LacksValue(field))) == multiset(s)
  {
    if s != [] {
      assert s == s[..|s| - 1] + [s[|s| - 1]];
      KeepSplits(s[..|s| - 1], field);
    }
  }

  // ---------------------------------------------------------------- sorting

  predicate Ordered(field: string, desc: bool, s: seq<Home>) {
    forall i, j :: 0 <= i < j < |s| ==> !Precedes(field, desc, s[j], s[i])
  }

  predicate AllValued(field: string, s: seq<Home>) {
    forall i :: 0 <= i < |s| ==> SortValue(s[i], field).Some?
  }

  lemma {:induction false} InsertAdds(field: string, desc: bool, s: seq<Home>, h: Home)
    ensures multiset(Insert(field, desc, s, h)) == multiset(s) + multiset{h}
  {
    if s != [] && Precedes(field, desc, h, s[|s| - 1]) {
      assert s == s[..|s| - 1] + [s[|s| - 1]];
      InsertAdds(field, desc, s[..|s| - 1], h);
    }
  }

  function KeepOne(h: Home, t: Test): seq<Home> {
    if Passes(t, h) then [h] else []
  }

  lemma KeepSnoc(s: seq<Home>, h: Home, t: Test)
    ensures Keep(s + [h], t) == Keep(s, t) + KeepOne(h, t)
  {
    assert (s + [h])[..|s|] == s;
  }

  lemma Swap(k: seq<Home>, a: seq<Home>, b: seq<Home>)
    requires a == [] || b == []
    ensures (k + a) + b == (k + b) + a
  {
    if a == [] {
      assert k + a == k && (k + b) + a == k + b;
    } else {
      assert (k + a) + b == k + a && k + b == k;
    }
  }

  /** An inserted row never passes a row of its own value. */
  lemma {:induction false} InsertKeeps(field: string, desc: bool, s: seq<Home>, h: Home, v: real)
    ensures Keep(Insert(field, desc, s, h), Valued(field, v)) ==
            Keep(s, Valued(field, v)) + KeepOne(h, Valued(field, v))
  {
    var t := Valued(field, v);
    if s == [] || !Precedes(field, desc, h, s[|s| - 1]) {
      KeepSnoc(s, h, t);
    } else {
      var front, last := s[..|s| - 1], s[|s| - 1];
      assert s == front + [last];
      InsertKeeps(field, desc, front, h, v);
      KeepSnoc(Insert(field, desc, front, h), last, t);
      KeepSnoc(front, last, t);
      Swap(Keep(front, t), KeepOne(h, t), KeepOne(last, t));
    }
  }

  lemma {:induction false} InsertOrdered(field: string, desc: bool, s: seq<Home>, h: Home)
    requires Ordered(field, desc, s) && AllValued(field, s) && SortValue(h, field).Some?
    ensures Ordered(field, desc, Insert(field, desc, s, h)) && AllValued(field, Insert(field, desc, s, h))
  {
    if s == [] || !Precedes(field, desc, h, s[|s| - 1]) {
    } else {
      var front, last := s[..|s| - 1], s[|s| - 1];
      InsertOrdered(field, desc, front, h);
      var r := Insert(field, desc, front, h);
      InsertAdds(field, desc, front, h);
      forall i | 0 <= i < |r| ensures !Precedes(field, desc, last, r[i]) {
        assert r[i] in multiset(r);
        assert r[i] == h || r[i] in front;
      }
    }
  }

  /** Each value's rows stand in the same order in both. */
  ghost predicate SameByValue(field: string, s: seq<Home>, t: seq<Home>) {
    forall v :: Keep(s, Valued(field, v)) == Keep(t, Valued(field, v))
  }

  lemma {:induction false} SortKeeps(field: string, desc: bool, s: seq<Home>, v: real)
    ensures Keep(StableSort(field, desc, s), Valued(field, v)) == Keep(s, Valued(field, v))
  {
    if s != [] {
      SortKeeps(field, desc, s[..|s| - 1], v);
      InsertKeeps(field, desc, StableSort(field, desc, s[..|s| - 1]), s[|s| - 1], v);
    }
  }

  /** The sort orders, keeps every row, and keeps rows of equal value in the order they had. */
  lemma {:induction false} SortIs(field: string, desc: bool, s: seq<Home>)
    requires AllValued(field, s)
    ensures Ordered(field, desc, StableSort(field, desc, s)) && AllValued(field, StableSort(field, desc, s))
    ensures multiset(StableSort(field, desc, s)) == multiset(s)
    ensures SameByValue(field, StableSort(field, desc, s), s)
  {
    forall v ensures Keep(StableSort(field, desc, s), Valued(field, v)) == Keep(s, Valued(field, v)) {
      SortKeeps(field, desc, s, v);
    }
    if s != [] {
      var front, last := s[..|s| - 1], s[|s| - 1];
      assert s == front + [last];
      SortIs(field, desc, front);
      InsertOrdered(field, desc, StableSort(field, desc, front), last);
      InsertAdds(field, desc, StableSort(field, desc, front), last);
    }
  }

  lemma LastIsKept(field: string, s: seq<Home>, t: seq<Home>)
    requires s != [] && AllValued(field, s) && SameByValue(field, s, t)
    ensures s[|s| - 1] in t
    ensures var k := Keep(t, Valued(field, SortValue(s[|s| - 1], field).value)); k != [] && k[|k| - 1] == s[|s| - 1]
  {
    var v := SortValue(s[|s| - 1], field).value;
    assert Keep(s, Valued(field, v)) == Keep(t, Valued(field, v));
    KeepIs(t, Valued(field, v));
    assert s[|s| - 1] in multiset(Keep(t, Valued(field, v)));
  }

  lemma SameWithoutLast(field: string, s: seq<Home>, t: seq<Home>, h: Home)
    requires SameByValue(field, s + [h], t + [h])
    ensures SameByValue(field, s, t)
  {
    forall v ensures Keep(s, Valued(field, v)) == Keep(t, Valued(field, v)) {
      KeepSnoc(s, h, Valued(field, v));
      KeepSnoc(t, h, Valued(field, v));
      var a, b, o := Keep(s, Valued(field, v)), Keep(t, Valued(field, v)), KeepOne(h, Valued(field, v));
      assert Keep(s + [h], Valued(field, v)) == Keep(t + [h], Valued(field, v));
      assert a + o == b + o;
      assert a == (a + o)[..|a|] && b == (b + o)[..|b|];
    }
  }

  lemma LastIsMax(field: string, desc: bool, s: seq<Home>, h: Home)
    requires Ordered(field, desc, s) && h in s
    ensures !Precedes(field, desc, s[|s| - 1], h)
  {
  }

  lemma SameLast(field: string, desc: bool, s: seq<Home>, t: seq<Home>)
    requires s != [] && t != [] && AllValued(field, s) && AllValued(field, t)
    requires Ordered(field, desc, s) && Ordered(field, desc, t) && SameByValue(field, s, t)
    ensures s[|s| - 1] == t[|t| - 1]
  {
    var a, b := s[|s| - 1], t[|t| - 1];
    LastIsKept(field, s, t);
    LastIsKept(field, t, s);
    LastIsMax(field, desc, s, b);
    LastIsMax(field, desc, t, a);
    var v := SortValue(a, field).value;
    assert SortValue(b, field).value == v;
    LastIsKept(field, s, s);
    assert Keep(s, Valued(field, v)) == Keep(t, Valued(field, v));
  }

  lemma OrderedPrefix(field: string, desc: bool, s: seq<Home>)
    requires s != [] && Ordered(field, desc, s) && AllValued(field, s)
    ensures Ordered(field, desc, s[..|s| - 1]) && AllValued(field, s[..|s| - 1])
  {
    var p := s[..|s| - 1];
    forall i, j | 0 <= i < j < |p| ensures !Precedes(field, desc, p[j], p[i]) {
      assert p[i] == s[i] && p[j] == s[j];
    }
  }

  /** There is only one such order, so nothing else about the sorting algorithm matters. */
  lemma {:induction false} OneStableOrder(field: string, desc: bool, s: seq<Home>, t: seq<Home>)
    requires AllValued(field, s) && AllValued(field, t)
    requires Ordered(field, desc, s) && Ordered(field, desc, t)
    requires SameByValue(field, s, t)
    ensures s == t
  {
    if s == [] && t == [] {
    } else if s == [] {
      LastIsKept(field, t, s);
    } else if t == [] {
      LastIsKept(field, s, t);
    } else {
      var a, b := s[|s| - 1], t[|t| - 1];
      SameLast(field, desc, s, t);
      assert s == s[..|s| - 1] + [a] && t == t[..|t| - 1] + [a];
      SameWithoutLast(field, s[..|s| - 1], t[..|t| - 1], a);
      OrderedPrefix(field, desc, s);
      OrderedPrefix(field, desc, t);
      OneStableOrder(field, desc, s[..|s| - 1], t[..|t| - 1]);
    }
  }

  // ---------------------------------------------------------------- main results

  /** The result holds exactly the catalog's fitting rows, each as often as the catalog does. */
  lemma SearchIsExact(catalog: seq<Home>, q: Query, h: Home)
    ensures multiset(Search(catalog, q))[h] == if Fits(q, h) then multiset(catalog)[h] else 0
  {
    var matches := Keep(catalog, Matching(q));
    KeepIs(catalog, Matching(q));
    if Truthy(q.sortBy) {
      var field := q.sortBy.value;
      KeepIs(matches, HasValue(field));
      SortIs(field, q.sortOrder == Some("desc"), Keep(matches, HasValue(field)));
      KeepSplits(matches, field);
    }
  }

  /** What a row needs to fit, bound by bound: a known value within the bound, where an unknown count of beds, baths or
      square feet is read as zero from below and no unknown passes any other bound; and the area asked for, in any
      case, inside the row's area or address. */
  lemma FitsIff(q: Query, h: Home)
    ensures Fits(q, h) <==>
      && (q.minBeds.Some? ==>
            match h.beds case Some(n) => n >= q.minBeds.value case None => q.minBeds.value <= 0)
      && (q.minBaths.Some? ==>
            match h.baths case Some(n) => n >= q.minBaths.value case None => q.minBaths.value <= 0.0)
      && (q.minPrice.Some? ==> h.price.Some? && h.price.value >= q.minPrice.value)
      && (q.maxPrice.Some? ==> h.price.Some? && h.price.value <= q.maxPrice.value)
      && (q.minSqft.Some? ==>
            match h.sqft case Some(n) => n >= q.minSqft.value case None => q.minSqft.value <= 0)
      && (q.maxSqft.Some? ==> h.sqft.Some? && h.sqft.value <= q.maxSqft.value)
      && (q.area.Some? && q.area.value != "" ==>
            || Contains(if h.area.Some? then Lower(h.area.value) else "", Lower(q.area.value))
            || Contains(if h.address.Some? then Lower(h.address.value) else "", Lower(q.area.value)))
  {
  }

  /** The rows `a` before `b` in a result sorted by the field: unknown values last, known ones ascending, or
      descending when asked. */
  predicate Sorted(field: string, desc: bool, a: Home, b: Home) {
    match field
    case "price" =>
      (a.price.None? ==> b.price.None?) &&
      (a.price.Some? && b.price.Some? ==>
         if desc then a.price.value >= b.price.value else a.price.value <= b.price.value)
    case "beds" =>
      (a.beds.None? ==> b.beds.None?) &&
      (a.beds.Some? && b.beds.Some? ==> if desc then a.beds.value >= b.beds.value else a.beds.value <= b.beds.value)
    case _ =>
      (a.sqft.None? ==> b.sqft.None?) &&
      (a.sqft.Some? && b.sqft.Some? ==> if desc then a.sqft.value >= b.sqft.value else a.sqft.value <= b.sqft.value)
  }

  lemma NotPrecedingIsSorted(field: string, desc: bool, a: Home, b: Home)
    requires field == "price" || field == "beds" || field == "sqft"
    requires SortValue(a, field).Some? && !Precedes(field, desc, b, a)
    ensures Sorted(field, desc, a, b)
  {
  }

  /** A search sorted by price, beds or square feet comes out in that order, row by row. */
  lemma SearchIsSorted(catalog: seq<Home>, q: Query, i: nat, j: nat)
    requires q.sortBy.Some? && (q.sortBy.value == "price" || q.sortBy.value == "beds" || q.sortBy.value == "sqft")
    requires i < j < |Search(catalog, q)|
    ensures Sorted(q.sortBy.value, q.sortOrder == Some("desc"), Search(catalog, q)[i], Search(catalog, q)[j])
  {
    var field, desc := q.sortBy.value, q.sortOrder == Some("desc");
    var matches := Keep(catalog, Matching(q));
    var known, unknown := StableSort(field, desc, Keep(matches, HasValue(field))), Keep(matches, LacksValue(field));
    KeepIs(matches, HasValue(field));
    KeepIs(matches, LacksValue(field));
    SortIs(field, desc, Keep(matches, HasValue(field)));
    var r := Search(catalog, q);
    assert r == known + unknown;
    if i < |known| {
      if j < |known| {
        assert !Precedes(field, desc, known[j], known[i]);
      } else {
        assert Passes(LacksValue(field), unknown[j - |known|]);
      }
      NotPrecedingIsSorted(field, desc, r[i], r[j]);
    } else {
      assert Passes(LacksValue(field), unknown[i - |known|]) && Passes(LacksValue(field), unknown[j - |known|]);
      BothUnknown(field, desc, r[i], r[j]);
    }
  }

  lemma BothUnknown(field: string, desc: bool, a: Home, b: Home)
    requires field == "price" || field == "beds" || field == "sqft"
    requires SortValue(a, field).None? && SortValue(b, field).None?
    ensures Sorted(field, desc, a, b)
  {
  }

  /** What repairing leaves: a sort by price, beds or square feet under any case and outer white space, an order only
      with a sort, an area with something in it, ranges that are not inverted, and the other bounds as they were. */
  lemma RepairedIs(q: Query, w: string)
    ensures var r := Repaired(q);
      && (r.sortBy == Some(w) <==>
            q.sortBy.Some? && w == Lower(Strip(q.sortBy.value)) && (w == "price" || w == "beds" || w == "sqft"))
      && (r.sortOrder == Some(w) <==>
            r.sortBy.Some? && q.sortOrder.Some? && w == Lower(Strip(q.sortOrder.value)) && (w == "asc" || w == "desc"))
      && (r.area == Some(w) <==> q.area.Some? && w == Strip(q.area.value) && w != "")
      && r.minBeds == q.minBeds && r.minBaths == q.minBaths
      && (if q.minPrice.Some? && q.maxPrice.Some? && q.minPrice.value > q.maxPrice.value
          then r.minPrice == None == r.maxPrice else r.minPrice == q.minPrice && r.maxPrice == q.maxPrice)
      && (if q.minSqft.Some? && q.maxSqft.Some? && q.minSqft.value > q.maxSqft.value
          then r.minSqft == None == r.maxSqft else r.minSqft == q.minSqft && r.maxSqft == q.maxSqft)
  {
  }

  /** What a sorted result is: the rows with a value in order, ties in catalog order whichever the direction, then
      the rows without one in catalog order. */
  ghost predicate IsRanking(r: seq<Home>, catalog: seq<Home>, q: Query)
    requires Truthy(q.sortBy)
  {
    var field, matches := q.sortBy.value, Keep(catalog, Matching(q));
    var n := |Keep(matches, HasValue(field))|;
    && n <= |r|
    && AllValued(field, r[..n]) && Ordered(field, q.sortOrder == Some("desc"), r[..n])
    && SameByValue(field, r[..n], Keep(matches, HasValue(field)))
    && r[n..] == Keep(matches, LacksValue(field))
  }

  lemma SortLength(field: string, desc: bool, s: seq<Home>)
    requires AllValued(field, s)
    ensures |StableSort(field, desc, s)| == |s|
  {
    SortIs(field, desc, s);
    assert |multiset(StableSort(field, desc, s))| == |multiset(s)|;
  }

  /** The search returns the ranking, and no other list is one. */
  lemma RankingIff(catalog: seq<Home>, q: Query, r: seq<Home>)
    requires Truthy(q.sortBy)
    ensures IsRanking(r, catalog, q) <==> r == Search(catalog, q)
  {
    var field, desc, matches := q.sortBy.value, q.sortOrder == Some("desc"), Keep(catalog, Matching(q));
    var known := Keep(matches, HasValue(field));
    KeepIs(matches, HasValue(field));
    SortIs(field, desc, known);
    SortLength(field, desc, known);
    var sorted := StableSort(field, desc, known);
    var found := Search(catalog, q);
    assert found[..|known|] == sorted && found[|known|..] == Keep(matches, LacksValue(field));
    if IsRanking(r, catalog, q) {
      forall v ensures Keep(r[..|known|], Valued(field, v)) == Keep(sorted, Valued(field, v)) {
        assert Keep(r[..|known|], Valued(field, v)) == Keep(known, Valued(field, v));
        assert Keep(sorted, Valued(field, v)) == Keep(known, Valued(field, v));
      }
      OneStableOrder(field, desc, r[..|known|], sorted);
      assert r == r[..|known|] + r[|known|..];
    }
  }

  /** Splitting a ranking by having a value gives its two parts back. */
  lemma SplitAgain(known: seq<Home>, unknown: seq<Home>, field: string)
    requires AllValued(field, known) && forall i :: 0 <= i < |unknown| ==> SortValue(unknown[i], field).None?
    ensures Keep(known + unknown, HasValue(field)) == known && Keep(known + unknown, LacksValue(field)) == unknown
  {
    KeepConcat(known, unknown, HasValue(field));
    KeepConcat(known, unknown, LacksValue(field));
    KeepAll(known, HasValue(field));
    KeepNone(unknown, HasValue(field));
    KeepNone(known, LacksValue(field));
    KeepAll(unknown, LacksValue(field));
  }

  lemma RankedTwice(matches: seq<Home>, field: string, desc: bool)
    ensures var known := StableSort(field, desc, Keep(matches, HasValue(field)));
      var r := known + Keep(matches, LacksValue(field));
      StableSort(field, desc, Keep(r, HasValue(field))) + Keep(r, LacksValue(field)) == r
  {
    KeepIs(matches, HasValue(field));
    KeepIs(matches, LacksValue(field));
    SortIs(field, desc, Keep(matches, HasValue(field)));
    var known := StableSort(field, desc, Keep(matches, HasValue(field)));
    SplitAgain(known, Keep(matches, LacksValue(field)), field);
    SortedStays(field, desc, known);
  }

  /** Searching the result again with the same filters changes nothing. */
  lemma SearchTwice(catalog: seq<Home>, q: Query)
    ensures Search(Search(catalog, q), q) == Search(catalog, q)
  {
    var r := Search(catalog, q);
    forall i | 0 <= i < |r| ensures Passes(Matching(q), r[i]) {
      assert r[i] in multiset(r);
      SearchIsExact(catalog, q, r[i]);
    }
    KeepAll(r, Matching(q));
    if Truthy(q.sortBy) {
      RankedTwice(Keep(catalog, Matching(q)), q.sortBy.value, q.sortOrder == Some("desc"));
    }
  }

  lemma SortedStays(field: string, desc: bool, s: seq<Home>)
    requires AllValued(field, s) && Ordered(field, desc, s)
    ensures StableSort(field, desc, s) == s
  {
    SortIs(field, desc, s);
    OneStableOrder(field, desc, StableSort(field, desc, s), s);
  }

  /** The function's own promise: a row whose value is unknown for a bounded field is left out. */
  predicate UnknownWhereBounded(q: Query, h: Home) {
    || (q.minBeds.Some? && h.beds.None?)
    || (q.minBaths.Some? && h.baths.None?)
    || ((q.minPrice.Some? || q.maxPrice.Some?) && h.price.None?)
    || ((q.minSqft.Some? || q.maxSqft.Some?) && h.sqft.None?)
  }

  /** A lower bound an unknown passes, since it is read as zero. */
  predicate LaxMinimum(q: Query) {
    || (q.minBeds.Some? && q.minBeds.value <= 0)
    || (q.minBaths.Some? && q.minBaths.value <= 0.0)
    || (q.minSqft.Some? && q.minSqft.value <= 0 && q.maxSqft.None?)
  }

  /** The promise is kept on every catalog exactly by the queries that bound no count of beds, baths or square
      feet below by zero or less; one such bound lets an unknown value through. */
  lemma UnknownsLeftOutIff(asked: Query)
    ensures var q := Repaired(asked);
      (forall h :: UnknownWhereBounded(q, h) ==> !Fits(q, h)) <==> !LaxMinimum(q)
  {
    var q := Repaired(asked);
    if LaxMinimum(q) {
      var h := LaxWitness(q);
      assert UnknownWhereBounded(q, h);
      AreaOccurs(q);
      assert Fits(q, h);
    }
  }

  /** A row known to fit every other bound, unknown where the lax bound looks. */
  function LaxWitness(q: Query): Home {
    var beds := if q.minBeds.None? || q.minBeds.value <= 0 then None else q.minBeds;
    var baths := if q.minBaths.None? || q.minBaths.value <= 0.0 then None else q.minBaths;
    var price := if q.minPrice.Some? then q.minPrice else q.maxPrice;
    var sqft := if q.maxSqft.Some? then q.maxSqft
                else if q.minSqft.None? || q.minSqft.value <= 0 then None else q.minSqft;
    Home(beds, baths, price, sqft, q.area, None, "")
  }

  lemma AreaOccurs(q: Query)
    ensures Truthy(q.area) ==> Contains(Lower(q.area.value), Lower(q.area.value))
  {
    if q.area.Some? {
      var a := Lower(q.area.value);
      assert a[0..0 + |a|] == a;
      assert OccursAt(a, a, 0);
    }
  }
}
