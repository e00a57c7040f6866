/**
 The grouping rule behind onboarding dedupe, on records whose two identity keys are already computed:
 a record joins the group of the first earlier record with its code key, else of the first earlier
 record with its address key, else opens a group; a group is the fill-the-blanks merge of its members
 in input order. The rule is quadratic; the walk with two first-wins indices computes it in one pass.
 */
module Grouping {
  import opened Prelude

  /** A Python value as dedupe sees it: None, a string, or another value with its `str()` text. */
  datatype Value = Null | Str(s: string) | Other(text: string, truthy: bool)

  /** One extracted listing: a dictionary of named fields. */
  type Rec = map<string, Value>

  const CODE := "code"
  const ADDRESS := "address"

  function Get(r: Rec, field: string): Value {
    if field in r then r[field] else Null
  }

  /** `value in (None, "")`. */
  predicate Blank(v: Value) {
    v == Null || v == Str("")
  }

  /** A record with its identity keys; an empty key is no identity. */
  datatype Item = Item(code: string, addr: string, fields: Rec) {
    predicate Identified() {
      code != "" || addr != ""
    }

    /** A non-empty key comes from a non-blank field. */
    predicate WellKeyed() {
      (code != "" ==> !Blank(Get(fields, CODE))) && (addr != "" ==> !Blank(Get(fields, ADDRESS)))
    }
  }

  /** `_merge_into`: blank fields of the base are filled from the extra record. */
  function Merge(base: Rec, extra: Rec): (r: Rec)
    ensures forall k :: k in r <==> k in base || !Blank(Get(extra, k))
    ensures forall k :: Get(r, k) ==
              if Blank(Get(base, k)) && !Blank(Get(extra, k)) then Get(extra, k) else Get(base, k)
  {
    map k | k in base.Keys + extra.Keys && (k in base || !Blank(extra[k])) ::
      if Blank(Get(base, k)) && !Blank(Get(extra, k)) then extra[k] else base[k]
  }

  // ---------------------------------------------------------------- the rule

  /** The first of the first `n` records with code key `c`. */
  function FirstCode(items: seq<Item>, n: nat, c: string): (r: Option<nat>)
    requires n <= |items|
    ensures r.Some? ==> r.value < n && items[r.value].code == c
    ensures r.Some? ==> forall j :: 0 <= j < r.value ==> items[j].code != c
    ensures r.None? ==> forall j :: 0 <= j < n ==> items[j].code != c
  {
    if n == 0 then None
    else if FirstCode(items, n - 1, c).Some? then FirstCode(items, n - 1, c)
    else if items[n - 1].code == c then Some(n - 1)
    else None
  }

  /** The first of the first `n` records with address key `a`. */
  function FirstAddr(items: seq<Item>, n: nat, a: string): (r: Option<nat>)
    requires n <= |items|
    ensures r.Some? ==> r.value < n && items[r.value].addr == a
    ensures r.Some? ==> forall j :: 0 <= j < r.value ==> items[j].addr != a
    ensures r.None? ==> forall j :: 0 <= j < n ==> items[j].addr != a
  {
    if n == 0 then None
    else if FirstAddr(items, n - 1, a).Some? then FirstAddr(items, n - 1, a)
    else if items[n - 1].addr == a then Some(n - 1)
    else None
  }

  /** Record `i` joins by its code key. */
  predicate ByCode(items: seq<Item>, i: nat)
    requires i < |items|
  {
    items[i].code != "" && FirstCode(items, i, items[i].code).Some?
  }

  /** Record `i` joins by its address key. */
  predicate ByAddr(items: seq<Item>, i: nat)
    requires i < |items|
  {
    !ByCode(items, i) && items[i].addr != "" && FirstAddr(items, i, items[i].addr).Some?
  }

  /** The record that opened the group of record `i`. */
  function Leader(items: seq<Item>, i: nat): (l: nat)
    requires i < |items|
    ensures l <= i
  {
    if ByCode(items, i) then Leader(items, FirstCode(items, i, items[i].code).value)
    else if ByAddr(items, i) then Leader(items, FirstAddr(items, i, items[i].addr).value)
    else i
  }

  predicate Opens(items: seq<Item>, i: nat)
    requires i < |items|
  {
    items[i].Identified() && !ByCode(items, i) && !ByAddr(items, i)
  }

  /** Record `i` is in the group `l`. */
  predicate Member(items: seq<Item>, i: nat, l: nat)
    requires i < |items|
  {
    items[i].Identified() && Leader(items, i) == l
  }

  /** The records that open a group, in input order. */
  function Leaders(items: seq<Item>, n: nat): seq<nat>
    requires n <= |items|
  {
    if n == 0 then []
    else if Opens(items, n - 1) then Leaders(items, n - 1) + [n - 1]
    else Leaders(items, n - 1)
  }

  /** The members of group `l` among the first `n` records, merged in input order. */
  function Group(items: seq<Item>, n: nat, l: nat): Rec
    requires l < n <= |items|
  {
    if l == n - 1 then items[l].fields
    else if Member(items, n - 1, l) then Merge(Group(items, n - 1, l), items[n - 1].fields)
    else Group(items, n - 1, l)
  }

  predicate Ascending(s: seq<nat>) {
    forall g, h :: 0 <= g < h < |s| ==> s[g] < s[h]
  }

  /** Groups come out in the order their first records were seen. */
  lemma {:induction false} LeadersAscend(items: seq<Item>, n: nat)
    requires n <= |items|
    ensures Ascending(Leaders(items, n))
    ensures forall g :: 0 <= g < |Leaders(items, n)| ==> Leaders(items, n)[g] < n
  {
    if n > 0 {
      LeadersAscend(items, n - 1);
    }
  }

  /** Only records that open a group lead one. */
  lemma {:induction false} LeadersOpen(items: seq<Item>, n: nat, g: nat)
    requires n <= |items| && g < |Leaders(items, n)|
    ensures Leaders(items, n)[g] < n && Opens(items, Leaders(items, n)[g])
  {
    if g < |Leaders(items, n - 1)| {
      LeadersOpen(items, n - 1, g);
    }
  }

  /** Every record that opens a group heads one output. */
  lemma {:induction false} OpenersLead(items: seq<Item>, n: nat, l: nat)
    requires l < n <= |items| && Opens(items, l)
    ensures l in Leaders(items, n)
  {
    if l < n - 1 {
      OpenersLead(items, n - 1, l);
    }
  }

  /** A record's leader opens a group and leads itself. */
  lemma {:induction false} LeaderOpens(items: seq<Item>, i: nat)
    requires i < |items| && items[i].Identified()
    ensures Opens(items, Leader(items, i)) && Leader(items, Leader(items, i)) == Leader(items, i)
  {
    if ByCode(items, i) {
      LeaderOpens(items, FirstCode(items, i, items[i].code).value);
    } else if ByAddr(items, i) {
      LeaderOpens(items, FirstAddr(items, i, items[i].addr).value);
    }
  }

  /** The outputs of the rule. */
  function Groups(items: seq<Item>): (r: seq<Rec>)
    ensures |r| == |Leaders(items, |items|)|
  {
    LeadersAscend(items, |items|);
    var leaders := Leaders(items, |items|);
    seq(|leaders|, g requires 0 <= g < |leaders| => Group(items, |items|, leaders[g]))
  }

  // ---------------------------------------------------------------- what the rule guarantees

  /** Every identified record is in exactly one output group. */
  lemma EveryRecordHasOneGroup(items: seq<Item>, i: nat)
    requires i < |items| && items[i].Identified()
    ensures var leaders := Leaders(items, |items|);
      exists g :: 0 <= g < |leaders| && Member(items, i, leaders[g]) &&
                  (forall h :: 0 <= h < |leaders| && h != g ==> !Member(items, i, leaders[h]))
  {
    LeaderOpens(items, i);
    OpenersLead(items, |items|, Leader(items, i));
    LeadersAscend(items, |items|);
    var leaders := Leaders(items, |items|);
    var g :| 0 <= g < |leaders| && leaders[g] == Leader(items, i);
    assert Member(items, i, leaders[g]);
    forall h | 0 <= h < |leaders| && h != g ensures !Member(items, i, leaders[h]) {
      assert leaders[h] != leaders[g];
    }
  }

  lemma {:induction false} FirstCodeStable(items: seq<Item>, n: nat, m: nat, c: string)
    requires n <= m <= |items| && FirstCode(items, n, c).Some?
    ensures FirstCode(items, m, c) == FirstCode(items, n, c)
  {
    if n < m {
      FirstCodeStable(items, n, m - 1, c);
    }
  }

  /** All records that share a non-empty code key share a group. */
  lemma SameCodeSameGroup(items: seq<Item>, i: nat, j: nat)
    requires i < j < |items| && items[i].code == items[j].code != ""
    ensures Leader(items, i) == Leader(items, j)
  {
    var f := FirstCode(items, j, items[j].code);
    assert f.Some?;
    if f.value < i {
      assert FirstCode(items, i, items[i].code).Some?;
      FirstCodeStable(items, i, j, items[i].code);
    }
  }

  /** Record `j` is in group `l` and fills field `k`. */
  predicate Fills(items: seq<Item>, j: nat, l: nat, k: string)
    requires j < |items|
  {
    Member(items, j, l) && !Blank(Get(items[j].fields, k))
  }

  /** The first of the first `n` marks that is set. */
  function FirstTrue(marks: seq<bool>, n: nat): (r: Option<nat>)
    requires n <= |marks|
    ensures r.Some? ==> r.value < n
  {
    if n == 0 then None
    else if FirstTrue(marks, n - 1).Some? then FirstTrue(marks, n - 1)
    else if marks[n - 1] then Some(n - 1)
    else None
  }

  lemma {:induction false} FirstTrueIs(marks: seq<bool>, n: nat)
    requires n <= |marks|
    ensures var r := FirstTrue(marks, n);
      && (r.Some? ==> marks[r.value] && forall j :: 0 <= j < r.value ==> !marks[j])
      && (r.None? ==> forall j :: 0 <= j < n ==> !marks[j])
  {
    if n > 0 {
      FirstTrueIs(marks, n - 1);
    }
  }

  lemma {:induction false} FirstTrueBefore(marks: seq<bool>, n: nat, j: nat)
    requires j <= n <= |marks|
    ensures FirstTrue(marks, n).Some? ==>
      FirstTrue(marks, j) == if FirstTrue(marks, n).value < j then FirstTrue(marks, n) else None
    ensures FirstTrue(marks, j).Some? ==> FirstTrue(marks, n) == FirstTrue(marks, j)
  {
    if j < n {
      FirstTrueBefore(marks, n - 1, j);
    }
  }

  function FillMarks(items: seq<Item>, l: nat, k: string): (marks: seq<bool>)
    ensures |marks| == |items|
  {
    seq(|items|, j requires 0 <= j < |items| => Fills(items, j, l, k))
  }

  /** The first member of group `l` with a non-blank field `k`, among the first `n` records. */
  function FirstFilled(items: seq<Item>, n: nat, l: nat, k: string): (r: Option<nat>)
    requires n <= |items|
    ensures r.Some? ==> r.value < n
  {
    FirstTrue(FillMarks(items, l, k), n)
  }

  lemma FirstFilledIs(items: seq<Item>, n: nat, l: nat, k: string)
    requires n <= |items|
    ensures var r := FirstFilled(items, n, l, k);
      && (r.Some? ==> Fills(items, r.value, l, k) && forall j :: 0 <= j < r.value ==> !Fills(items, j, l, k))
      && (r.None? ==> forall j :: 0 <= j < n ==> !Fills(items, j, l, k))
  {
    FirstTrueIs(FillMarks(items, l, k), n);
    forall j | 0 <= j < |items| ensures FillMarks(items, l, k)[j] == Fills(items, j, l, k) {
    }
  }

  lemma FirstFilledBefore(items: seq<Item>, n: nat, l: nat, k: string, j: nat)
    requires j <= n <= |items|
    ensures FirstFilled(items, n, l, k).Some? ==>
      FirstFilled(items, j, l, k) == if FirstFilled(items, n, l, k).value < j then FirstFilled(items, n, l, k) else None
    ensures FirstFilled(items, j, l, k).Some? ==> FirstFilled(items, n, l, k) == FirstFilled(items, j, l, k)
  {
    FirstTrueBefore(FillMarks(items, l, k), n, j);
  }

  /** One more record: it is the first to fill the field, or the first stays. */
  lemma FirstFilledStep(items: seq<Item>, n: nat, l: nat, k: string)
    requires n < |items|
    ensures FirstFilled(items, n + 1, l, k) ==
      if FirstFilled(items, n, l, k).None? && Fills(items, n, l, k) then Some(n) else FirstFilled(items, n, l, k)
  {
    assert FillMarks(items, l, k)[n] == Fills(items, n, l, k);
  }

  lemma NothingBeforeLeader(items: seq<Item>, n: nat, l: nat, k: string)
    requires n <= l < |items|
    ensures FirstFilled(items, n, l, k).None?
  {
    FirstFilledIs(items, n, l, k);
  }

  /** Each field of an output is the first non-blank value in its group, in input order; when no
      member fills it, it is as in the record that opened the group. */
  lemma {:induction false} GroupField(items: seq<Item>, n: nat, l: nat, k: string)
    requires l < n <= |items| && Opens(items, l)
    ensures var f := FirstFilled(items, n, l, k); var r := Group(items, n, l);
      (f.Some? ==> k in r && Get(r, k) == Get(items[f.value].fields, k)) &&
      (f.None? ==> Get(r, k) == Get(items[l].fields, k) && (k in r <==> k in items[l].fields))
  {
    FirstFilledStep(items, n - 1, l, k);
    if l == n - 1 {
      NothingBeforeLeader(items, l, l, k);
    } else {
      GroupField(items, n - 1, l, k);
      FirstFilledIs(items, n - 1, l, k);
      assert Member(items, l, l);
      assert FirstFilled(items, n - 1, l, k).None? ==> !Fills(items, l, l, k);
    }
  }

  /** The record holds a value for the field, not None and not the empty string. */
  predicate Gives(r: Rec, k: string) {
    k in r && r[k] != Null && r[k] != Str("")
  }

  /** Record `i` is in the group and gives the field a value. */
  predicate GivesTo(items: seq<Item>, i: nat, l: nat, k: string)
    requires i < |items|
  {
    Member(items, i, l) && Gives(items[i].fields, k)
  }

  lemma GivesToIff(items: seq<Item>, i: nat, l: nat, k: string)
    requires i < |items|
    ensures Fills(items, i, l, k) <==> GivesTo(items, i, l, k)
  {
  }

  lemma FirstGivesTo(items: seq<Item>, n: nat, l: nat, k: string, j: nat)
    requires j < n <= |items| && GivesTo(items, j, l, k)
    requires forall i :: 0 <= i < j ==> !GivesTo(items, i, l, k)
    ensures FirstFilled(items, n, l, k) == Some(j)
  {
    FirstFilledIs(items, n, l, k);
    GivesToIff(items, j, l, k);
    var f := FirstFilled(items, n, l, k);
    if f.Some? {
      GivesToIff(items, f.value, l, k);
    }
  }

  /** The group's first member to give a value gives the output its value. */
  lemma FirstGiven(items: seq<Item>, n: nat, l: nat, k: string, j: nat)
    requires l < n <= |items| && Opens(items, l) && j < n && GivesTo(items, j, l, k)
    requires forall i :: 0 <= i < j ==> !GivesTo(items, i, l, k)
    ensures k in Group(items, n, l) && Group(items, n, l)[k] == items[j].fields[k]
  {
    FirstGivesTo(items, n, l, k, j);
    GroupField(items, n, l, k);
  }

  /** A leader's own keys are the ones its group shows. */
  lemma LeaderShows(items: seq<Item>, n: nat, l: nat, k: string)
    requires l < n <= |items| && Opens(items, l) && !Blank(Get(items[l].fields, k))
    ensures FirstFilled(items, n, l, k) == Some(l)
  {
    assert Member(items, l, l);
    assert Fills(items, l, l, k);
    NothingBeforeLeader(items, l, l, k);
    FirstFilledStep(items, l, l, k);
    FirstFilledBefore(items, n, l, k, l + 1);
  }

  // ---------------------------------------------------------------- distinct outputs

  /** Two outputs whose surviving addresses have the same non-empty key. */
  ghost predicate SharedAddress(items: seq<Item>, n: nat)
    requires n <= |items|
  {
    exists l, m :: 0 <= l < n && 0 <= m < n && l != m && Opens(items, l) && Opens(items, m) && SameAddr(items, n, l, m)
  }

  predicate SameAddr(items: seq<Item>, n: nat, l: nat, m: nat)
    requires n <= |items|
  {
    var f, h := FirstFilled(items, n, l, ADDRESS), FirstFilled(items, n, m, ADDRESS);
    f.Some? && h.Some? && items[f.value].addr == items[h.value].addr != ""
  }

  /** No two outputs have surviving codes with the same non-empty key. */
  lemma CodesStayDistinct(items: seq<Item>, n: nat, l: nat, m: nat)
    requires n <= |items| && l != m
    requires FirstFilled(items, n, l, CODE).Some? && FirstFilled(items, n, m, CODE).Some?
    requires items[FirstFilled(items, n, l, CODE).value].code != ""
    ensures items[FirstFilled(items, n, l, CODE).value].code != items[FirstFilled(items, n, m, CODE).value].code
  {
    var i, j := FirstFilled(items, n, l, CODE).value, FirstFilled(items, n, m, CODE).value;
    FirstFilledIs(items, n, l, CODE);
    FirstFilledIs(items, n, m, CODE);
    if items[i].code == items[j].code {
      if i < j {
        SameCodeSameGroup(items, i, j);
      } else if j < i {
        SameCodeSameGroup(items, j, i);
      }
    }
  }

  /** Record `j` joins by code a group that has no address yet, and brings an address whose key is
      already the surviving address of another group: the one way two outputs can end up alike. */
  ghost predicate FillCollision(items: seq<Item>, j: nat)
    requires j < |items|
  {
    ByCode(items, j) && items[j].addr != "" && FirstFilled(items, j, Leader(items, j), ADDRESS).None? &&
    exists l :: 0 <= l < j && Opens(items, l) && Shows(items, j, l, items[j].addr)
  }

  /** Group `l` of the first `n` records shows an address with key `a`. */
  predicate Shows(items: seq<Item>, n: nat, l: nat, a: string)
    requires n <= |items|
  {
    var f := FirstFilled(items, n, l, ADDRESS);
    f.Some? && items[f.value].addr == a
  }

  /** The address a colliding record brings is the one its group ends up showing. */
  lemma CollisionFills(items: seq<Item>, j: nat)
    requires j < |items| && items[j].WellKeyed() && items[j].addr != ""
    requires FirstFilled(items, j, Leader(items, j), ADDRESS).None?
    ensures FirstFilled(items, |items|, Leader(items, j), ADDRESS) == Some(j)
  {
    assert Fills(items, j, Leader(items, j), ADDRESS);
    FirstFilledStep(items, j, Leader(items, j), ADDRESS);
    FirstFilledBefore(items, |items|, Leader(items, j), ADDRESS, j + 1);
  }

  lemma CollisionIsShared(items: seq<Item>, j: nat)
    requires j < |items| && items[j].WellKeyed() && FillCollision(items, j)
    ensures SharedAddress(items, |items|)
  {
    var n, m := |items|, Leader(items, j);
    var l :| 0 <= l < j && Opens(items, l) && Shows(items, j, l, items[j].addr);
    LeaderOpens(items, j);
    CollisionFills(items, j);
    FirstFilledBefore(items, n, l, ADDRESS, j);
    assert SameAddr(items, n, l, m);
  }

  /** A record that joins by address joins a group that already shows one. */
  lemma JoinedByAddrIsFilled(items: seq<Item>, j: nat)
    requires j < |items| && ByAddr(items, j)
    requires forall r :: 0 <= r < |items| ==> items[r].WellKeyed()
    ensures FirstFilled(items, j, Leader(items, j), ADDRESS).Some?
  {
    var f := FirstAddr(items, j, items[j].addr).value;
    assert items[f].WellKeyed();
    assert Member(items, f, Leader(items, j));
    assert Fills(items, f, Leader(items, j), ADDRESS);
    FirstFilledIs(items, j, Leader(items, j), ADDRESS);
  }

  lemma SharedNeedsCollision(items: seq<Item>, l: nat, m: nat, i: nat, j: nat)
    requires l < |items| && m < |items| && l != m && i < j < |items| && Opens(items, l)
    requires FirstFilled(items, |items|, l, ADDRESS) == Some(i) && FirstFilled(items, |items|, m, ADDRESS) == Some(j)
    requires items[i].addr == items[j].addr != ""
    requires forall r :: 0 <= r < |items| ==> items[r].WellKeyed()
    ensures FillCollision(items, j)
  {
    FirstFilledBefore(items, |items|, l, ADDRESS, j);
    FirstFilledBefore(items, |items|, m, ADDRESS, j);
    FirstFilledIs(items, |items|, m, ADDRESS);
    FirstFilledIs(items, |items|, l, ADDRESS);
    assert l <= i;
    assert FirstAddr(items, j, items[j].addr).Some?;
    if ByAddr(items, j) {
      JoinedByAddrIsFilled(items, j);
    }
    assert Shows(items, j, l, items[j].addr);
  }

  lemma SharedFindsCollision(items: seq<Item>) returns (j: nat)
    requires forall r :: 0 <= r < |items| ==> items[r].WellKeyed()
    requires SharedAddress(items, |items|)
    ensures j < |items| && FillCollision(items, j)
  {
    var n := |items|;
    var l, m :| 0 <= l < n && 0 <= m < n && l != m && Opens(items, l) && Opens(items, m) && SameAddr(items, n, l, m);
    var i, k := FirstFilled(items, n, l, ADDRESS).value, FirstFilled(items, n, m, ADDRESS).value;
    FirstFilledIs(items, n, l, ADDRESS);
    FirstFilledIs(items, n, m, ADDRESS);
    assert i != k by {
      assert Member(items, i, l) && Member(items, k, m);
    }
    if i < k {
      SharedNeedsCollision(items, l, m, i, k);
      j := k;
    } else {
      SharedNeedsCollision(items, m, l, k, i);
      j := i;
    }
  }

  /** Two outputs share an address key exactly when some record runs into a fill collision. */
  lemma SharedAddressIff(items: seq<Item>)
    requires forall r :: 0 <= r < |items| ==> items[r].WellKeyed()
    ensures SharedAddress(items, |items|) <==> exists j :: 0 <= j < |items| && FillCollision(items, j)
  {
    if SharedAddress(items, |items|) {
      var j := SharedFindsCollision(items);
    }
    if j :| 0 <= j < |items| && FillCollision(items, j) {
      CollisionIsShared(items, j);
    }
  }

  /** When every record has an address no group is ever without one, so outputs never share an
      address key. */
  lemma AllAddressedNeverShare(items: seq<Item>)
    requires forall r :: 0 <= r < |items| ==> items[r].WellKeyed() && !Blank(Get(items[r].fields, ADDRESS))
    ensures !SharedAddress(items, |items|)
  {
    forall j | 0 <= j < |items|
      ensures !FillCollision(items, j)
    {
      if ByCode(items, j) {
        LeaderOpens(items, j);
        var l := Leader(items, j);
        assert l < j && Member(items, l, l);
        assert Fills(items, l, l, ADDRESS);
        FirstFilledIs(items, j, l, ADDRESS);
      }
    }
    SharedAddressIff(items);
  }

  // ---------------------------------------------------------------- grouping twice

  ghost predicate Distinct(items: seq<Item>) {
    && (forall i :: 0 <= i < |items| ==> items[i].Identified())
    && (forall i, j :: 0 <= i < j < |items| && items[j].code != "" ==> items[i].code != items[j].code)
    && (forall i, j :: 0 <= i < j < |items| && items[j].addr != "" ==> items[i].addr != items[j].addr)
  }

  lemma {:induction false} DistinctLeaders(items: seq<Item>, n: nat)
    requires Distinct(items) && n <= |items|
    ensures |Leaders(items, n)| == n
    ensures forall i :: 0 <= i < n ==> Leaders(items, n)[i] == i && Leader(items, i) == i
  {
    if n > 0 {
      DistinctLeaders(items, n - 1);
    }
  }

  lemma {:induction false} DistinctGroup(items: seq<Item>, n: nat, l: nat)
    requires Distinct(items) && l < n <= |items|
    ensures Group(items, n, l) == items[l].fields
  {
    if l < n - 1 {
      DistinctLeaders(items, n);
      DistinctGroup(items, n - 1, l);
    }
  }

  lemma {:induction false} FewerLeaders(items: seq<Item>, n: nat)
    requires n <= |items|
    ensures |Leaders(items, n)| <= n
    ensures (exists j :: 0 <= j < n && !Opens(items, j)) ==> |Leaders(items, n)| < n
  {
    if n > 0 {
      FewerLeaders(items, n - 1);
    }
  }

  /** Grouping leaves a list of identified records unchanged exactly when their keys are distinct. */
  lemma UnchangedIffDistinct(items: seq<Item>)
    requires forall i :: 0 <= i < |items| ==> items[i].Identified()
    ensures (|Groups(items)| == |items| && forall i :: 0 <= i < |items| ==> Groups(items)[i] == items[i].fields)
            <==> Distinct(items)
  {
    if Distinct(items) {
      DistinctLeaders(items, |items|);
      forall i | 0 <= i < |items|
        ensures Groups(items)[i] == items[i].fields
      {
        DistinctGroup(items, |items|, i);
      }
    } else {
      FewerLeaders(items, |items|);
      var i, j :| 0 <= i < j < |items| &&
        ((items[j].code != "" && items[i].code == items[j].code) ||
         (items[j].addr != "" && items[i].addr == items[j].addr));
      assert !Opens(items, j);
    }
  }

  // ---------------------------------------------------------------- the indexed walk

  /** The output records and the two first-wins indices into them. */
  datatype Index = Index(out: seq<Rec>, byCode: map<string, nat>, byAddr: map<string, nat>) {
    predicate Sound() {
      (forall c :: c in byCode ==> byCode[c] < |out|) && (forall a :: a in byAddr ==> byAddr[a] < |out|)
    }
  }

  /** `index.setdefault(key, record)` for a non-empty key. */
  function SetDefault(m: map<string, nat>, key: string, g: nat): map<string, nat> {
    if key == "" || key in m then m else m[key := g]
  }

  /** The output record a new record merges into, if any. */
  function Existing(ix: Index, r: Item): Option<nat> {
    if r.code != "" && r.code in ix.byCode then Some(ix.byCode[r.code])
    else if r.addr != "" && r.addr in ix.byAddr then Some(ix.byAddr[r.addr])
    else None
  }

  function Target(ix: Index, r: Item): nat {
    match Existing(ix, r) case Some(g) => g case None => |ix.out|
  }

  function Visit(ix: Index, r: Item): (next: Index)
    requires ix.Sound()
    ensures next.Sound()
  {
    if !r.Identified() then ix
    else
      var g := Target(ix, r);
      Index(if g < |ix.out| then ix.out[g := Merge(ix.out[g], r.fields)] else ix.out + [r.fields],
            SetDefault(ix.byCode, r.code, g), SetDefault(ix.byAddr, r.addr, g))
  }

  function Walk(items: seq<Item>, n: nat): (ix: Index)
    requires n <= |items|
    ensures ix.Sound()
  {
    if n == 0 then Index([], map[], map[]) else Visit(Walk(items, n - 1), items[n - 1])
  }

  /** Each entry of an index points at the group of the first record with that key. */
  ghost predicate CodesOk(items: seq<Item>, n: nat, leaders: seq<nat>, byCode: map<string, nat>)
    requires n <= |items|
  {
    && (forall c :: c in byCode <==> c != "" && FirstCode(items, n, c).Some?)
    && (forall c :: c in byCode ==> byCode[c] < |leaders|)
    && (forall c :: c in byCode ==> leaders[byCode[c]] == Leader(items, FirstCode(items, n, c).value))
  }

  ghost predicate AddrsOk(items: seq<Item>, n: nat, leaders: seq<nat>, byAddr: map<string, nat>)
    requires n <= |items|
  {
    && (forall a :: a in byAddr <==> a != "" && FirstAddr(items, n, a).Some?)
    && (forall a :: a in byAddr ==> byAddr[a] < |leaders|)
    && (forall a :: a in byAddr ==> leaders[byAddr[a]] == Leader(items, FirstAddr(items, n, a).value))
  }

  /** The output records are the groups so far. */
  ghost predicate OutOk(items: seq<Item>, n: nat, leaders: seq<nat>, out: seq<Rec>)
    requires n <= |items|
  {
    && |out| == |leaders|
    && (forall g :: 0 <= g < |leaders| ==> leaders[g] < n && out[g] == Group(items, n, leaders[g]))
  }

  ghost predicate Refines(items: seq<Item>, n: nat, ix: Index)
    requires n <= |items|
  {
    var leaders := Leaders(items, n);
    OutOk(items, n, leaders, ix.out) && CodesOk(items, n, leaders, ix.byCode) && AddrsOk(items, n, leaders, ix.byAddr)
  }

  /** The position the walk uses for a record is the position of its leader. */
  lemma TargetIsLeader(items: seq<Item>, n: nat, ix: Index)
    requires n < |items| && Refines(items, n, ix) && items[n].Identified()
    ensures Existing(ix, items[n]).Some? <==> !Opens(items, n)
    ensures var g := Target(ix, items[n]); g < |Leaders(items, n + 1)| && Leaders(items, n + 1)[g] == Leader(items, n)
  {
  }

  lemma CodesStep(items: seq<Item>, n: nat, leaders: seq<nat>, more: seq<nat>, byCode: map<string, nat>, g: nat)
    requires n < |items| && CodesOk(items, n, leaders, byCode) && leaders <= more
    requires g < |more| && more[g] == Leader(items, n)
    ensures CodesOk(items, n + 1, more, SetDefault(byCode, items[n].code, g))
  {
    var next := SetDefault(byCode, items[n].code, g);
    forall c | c in next
      ensures c != "" && FirstCode(items, n + 1, c).Some? && next[c] < |more|
      ensures more[next[c]] == Leader(items, FirstCode(items, n + 1, c).value)
    {
      if c in byCode {
        assert FirstCode(items, n + 1, c) == FirstCode(items, n, c);
      } else {
        assert FirstCode(items, n + 1, c) == Some(n);
      }
    }
  }

  lemma AddrsStep(items: seq<Item>, n: nat, leaders: seq<nat>, more: seq<nat>, byAddr: map<string, nat>, g: nat)
    requires n < |items| && AddrsOk(items, n, leaders, byAddr) && leaders <= more
    requires g < |more| && more[g] == Leader(items, n)
    ensures AddrsOk(items, n + 1, more, SetDefault(byAddr, items[n].addr, g))
  {
    var next := SetDefault(byAddr, items[n].addr, g);
    forall a | a in next
      ensures a != "" && FirstAddr(items, n + 1, a).Some? && next[a] < |more|
      ensures more[next[a]] == Leader(items, FirstAddr(items, n + 1, a).value)
    {
      if a in byAddr {
        assert FirstAddr(items, n + 1, a) == FirstAddr(items, n, a);
      } else {
        assert FirstAddr(items, n + 1, a) == Some(n);
      }
    }
  }

  lemma Unidentified(items: seq<Item>, n: nat, ix: Index)
    requires n < |items| && !items[n].Identified() && Refines(items, n, ix)
    ensures Refines(items, n + 1, ix)
  {
    var leaders := Leaders(items, n);
    assert Leaders(items, n + 1) == leaders;
    SameCodes(items, n, leaders, ix.byCode);
    SameAddrs(items, n, leaders, ix.byAddr);
  }

  lemma SameCodes(items: seq<Item>, n: nat, leaders: seq<nat>, byCode: map<string, nat>)
    requires n < |items| && !items[n].Identified() && CodesOk(items, n, leaders, byCode)
    ensures CodesOk(items, n + 1, leaders, byCode)
  {
    assert forall c :: c != "" ==> FirstCode(items, n + 1, c) == FirstCode(items, n, c);
  }

  lemma SameAddrs(items: seq<Item>, n: nat, leaders: seq<nat>, byAddr: map<string, nat>)
    requires n < |items| && !items[n].Identified() && AddrsOk(items, n, leaders, byAddr)
    ensures AddrsOk(items, n + 1, leaders, byAddr)
  {
    assert forall a :: a != "" ==> FirstAddr(items, n + 1, a) == FirstAddr(items, n, a);
  }

  lemma OutStep(items: seq<Item>, n: nat, leaders: seq<nat>, more: seq<nat>, out: seq<Rec>, g: nat)
    requires n < |items| && OutOk(items, n, leaders, out) && items[n].Identified() && Ascending(more)
    requires (more == leaders && g < |more|) || (more == leaders + [n] && g == |leaders|)
    requires more[g] == Leader(items, n)
    ensures OutOk(items, n + 1, more,
                  if g < |out| then out[g := Merge(out[g], items[n].fields)] else out + [items[n].fields])
  {
    forall h | 0 <= h < |leaders|
      ensures Group(items, n + 1, leaders[h]) ==
              if h == g then Merge(out[h], items[n].fields) else out[h]
    {
      assert out[h] == Group(items, n, leaders[h]);
      assert more[h] == leaders[h];
      assert h != g ==> more[h] != more[g];
    }
  }

  lemma VisitRefines(items: seq<Item>, n: nat, ix: Index, next: Index)
    requires n < |items| && ix.Sound() && Refines(items, n, ix) && next == Visit(ix, items[n])
    ensures Refines(items, n + 1, next)
  {
    var r := items[n];
    if !r.Identified() {
      Unidentified(items, n, ix);
    } else {
      TargetIsLeader(items, n, ix);
      LeadersAscend(items, n + 1);
      OutStep(items, n, Leaders(items, n), Leaders(items, n + 1), ix.out, Target(ix, r));
      CodesStep(items, n, Leaders(items, n), Leaders(items, n + 1), ix.byCode, Target(ix, r));
      AddrsStep(items, n, Leaders(items, n), Leaders(items, n + 1), ix.byAddr, Target(ix, r));
    }
  }

  lemma NothingWalked(items: seq<Item>)
    ensures Refines(items, 0, Walk(items, 0))
  {
  }

  lemma WalkStep(items: seq<Item>, n: nat)
    requires n < |items|
    ensures Walk(items, n + 1) == Visit(Walk(items, n), items[n])
  {
  }

  lemma {:induction false} WalkRefines(items: seq<Item>, n: nat)
    requires n <= |items|
    ensures Refines(items, n, Walk(items, n))
  {
    if n == 0 {
      NothingWalked(items);
    } else {
      var m := n - 1;
      WalkRefines(items, m);
      WalkStep(items, m);
      VisitRefines(items, m, Walk(items, m), Walk(items, m + 1));
    }
  }

  /** The linear walk with two indices computes the quadratic rule. */
  lemma WalkIsGrouping(items: seq<Item>)
    ensures Walk(items, |items|).out == Groups(items)
  {
    WalkRefines(items, |items|);
  }

  // ---------------------------------------------------------------- one step of the walk, in place

  /** A listing dictionary, merged in place. */
  class Record {
    var fields: Rec

    constructor (fields: Rec)
      ensures this.fields == fields
    {
      this.fields := fields;
    }
  }

  method MergeInto(base: Record, extra: Rec)
    modifies base
    ensures base.fields == Merge(old(base.fields), extra)
  {
    ghost var was := base.fields;
    var todo := extra.Keys;
    while todo != {}
      invariant todo <= extra.Keys
      invariant forall k :: k in base.fields <==> k in was || (k in extra.Keys - todo && !Blank(extra[k]))
      invariant forall k :: k in base.fields ==>
        base.fields[k] ==
          if k in extra.Keys - todo && Blank(Get(was, k)) && !Blank(extra[k]) then extra[k] else Get(was, k)
      decreases todo
    {
      var key :| key in todo;
      if !Blank(extra[key]) && Blank(Get(base.fields, key)) {
        base.fields := base.fields[key := extra[key]];
      }
      todo := todo - {key};
    }
    var all := Merge(was, extra);
    assert forall k :: k in all ==> all[k] == Get(all, k);
  }

  /** An index of objects is an index of positions in the output list. */
  ghost predicate Aliases(index: map<string, Record>, positions: map<string, nat>, out: seq<Record>) {
    && (forall k :: k in index <==> k in positions)
    && (forall k :: k in index ==> positions[k] < |out| && index[k] == out[positions[k]])
  }

  /** The output objects are distinct and hold the walk's records; the indices alias them. */
  ghost predicate Represents(out: seq<Record>, byCode: map<string, Record>, byAddr: map<string, Record>, ix: Index)
    reads out
  {
    (forall g, h :: 0 <= g < h < |out| ==> out[g] != out[h]) &&
    |out| == |ix.out| && (forall g :: 0 <= g < |out| ==> out[g].fields == ix.out[g]) &&
    Aliases(byCode, ix.byCode, out) && Aliases(byAddr, ix.byAddr, out)
  }

  lemma AliasesStep(index: map<string, Record>, positions: map<string, nat>, out: seq<Record>,
                    out': seq<Record>, key: string, g: nat)
    requires Aliases(index, positions, out) && out <= out' && g < |out'|
    ensures Aliases(if key == "" || key in index then index else index[key := out'[g]],
                    SetDefault(positions, key, g), out')
  {
  }

  /** `index.setdefault(key, record)`, on objects. */
  function Register(index: map<string, Record>, key: string, r: Record): map<string, Record> {
    if key == "" || key in index then index else index[key := r]
  }

  /** The record a new listing is merged into: found by code, else by address, else opened. */
  method FindOrOpen(item: Item, out: seq<Record>, byCode: map<string, Record>, byAddr: map<string, Record>,
                    ghost ix: Index)
    returns (existing: Record, out': seq<Record>)
    requires ix.Sound() && Represents(out, byCode, byAddr, ix) && item.Identified()
    modifies out
    ensures Target(ix, item) < |out'| && out'[Target(ix, item)] == existing && out <= out'
    ensures |out'| == |Visit(ix, item).out|
    ensures forall g :: 0 <= g < |out'| ==> out'[g].fields == Visit(ix, item).out[g]
    ensures forall g, h :: 0 <= g < h < |out'| ==> out'[g] != out'[h]
    ensures forall g :: |out| <= g < |out'| ==> fresh(out'[g])
  {
    if item.code != "" && item.code in byCode {
      existing, out' := byCode[item.code], out;
      MergeInto(existing, item.fields);
    } else if item.addr != "" && item.addr in byAddr {
      existing, out' := byAddr[item.addr], out;
      MergeInto(existing, item.fields);
    } else {
      existing := new Record(item.fields);
      out' := out + [existing];
    }
  }

  /** The body of the dedupe loop: merge the listing into its record, then register both identities
      unless they are taken. */
  method Absorb(item: Item, out: seq<Record>, byCode: map<string, Record>, byAddr: map<string, Record>, ghost ix: Index)
    returns (out': seq<Record>, byCode': map<string, Record>, byAddr': map<string, Record>)
    requires ix.Sound() && Represents(out, byCode, byAddr, ix)
    modifies out
    ensures Represents(out', byCode', byAddr', Visit(ix, item))
    ensures |out| <= |out'| && forall g :: 0 <= g < |out| ==> out'[g] == out[g]
    ensures forall g :: |out| <= g < |out'| ==> fresh(out'[g])
  {
    if item.code == "" && item.addr == "" {
      return out, byCode, byAddr;
    }
    var existing;
    existing, out' := FindOrOpen(item, out, byCode, byAddr, ix);
    byCode' := Register(byCode, item.code, existing);
    byAddr' := Register(byAddr, item.addr, existing);
    AliasesStep(byCode, ix.byCode, out, out', item.code, Target(ix, item));
    AliasesStep(byAddr, ix.byAddr, out, out', item.addr, Target(ix, item));
  }

  /** The dedupe loop on records whose keys are computed: new, distinct objects that hold the walk's records. */
  method WalkInPlace(items: seq<Item>)
    returns (out: seq<Record>, byCode: map<string, Record>, byAddr: map<string, Record>)
    ensures forall g :: 0 <= g < |out| ==> fresh(out[g])
    ensures Represents(out, byCode, byAddr, Walk(items, |items|))
  {
    out, byCode, byAddr := [], map[], map[];
    for n := 0 to |items|
      invariant forall g :: 0 <= g < |out| ==> fresh(out[g])
      invariant Represents(out, byCode, byAddr, Walk(items, n))
    {
      WalkStep(items, n);
      out, byCode, byAddr := Absorb(items[n], out, byCode, byAddr, Walk(items, n));
    }
  }
}
