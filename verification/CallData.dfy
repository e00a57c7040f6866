/** The caller's screen: the state a call's tool events fold into, one event at a time. */
module CallData {
  import opened Prelude

  datatype Listing = Listing(code: Option<string>, address: Option<string>, details: string)

  datatype Lead = Lead(name: Option<string>, phone: Option<string>)

  datatype Booking = Booking(propertyCode: Option<string>, status: Option<string>, synced: bool)

  datatype ToolEvent =
    | ShortlistEvent(matches: seq<Listing>)
    | PropertyEvent(home: Listing)
    | LeadEvent(lead: Lead)
    | BookingEvent(booking: Booking)
    | OtherEvent

  datatype State = State(
    candidates: seq<Listing>, activeKey: Option<string>, lead: Option<Lead>, booking: Option<Booking>)

  const EMPTY := State([], None, None, None)

  /** `code ?? address ?? ""`: an empty code is a code. */
  function ListingKey(l: Listing): string {
    if l.code.Some? then l.code.value else OrEmpty(l.address)
  }

  /** Two listings are one home exactly when they have one code, else one address, where a missing address is an
      empty one and a code, even an empty one, counts before any address. */
  lemma SameHomeIff(l: Listing, m: Listing)
    ensures ListingKey(l) == ListingKey(m) <==>
      match (l.code, m.code)
      case (Some(c), Some(d)) => c == d
      case (Some(c), None) => c == if m.address.Some? then m.address.value else ""
      case (None, Some(d)) => d == if l.address.Some? then l.address.value else ""
      case (None, None) => (if l.address.Some? then l.address.value else "") ==
                           (if m.address.Some? then m.address.value else "")
  {
  }

  // ---------------------------------------------------------------- the reducer

  function FindIndex(list: seq<Listing>, key: string): (i: nat)
    ensures i <= |list|
    ensures i < |list| ==> ListingKey(list[i]) == key
    ensures forall j :: 0 <= j < i ==> ListingKey(list[j]) != key
  {
    if list == [] then 0
    else
      var i := FindIndex(list[..|list| - 1], key);
      if i < |list| - 1 || ListingKey(list[|list| - 1]) == key then i else |list|
  }

  function Upsert(list: seq<Listing>, item: Listing): seq<Listing> {
    var i := FindIndex(list, ListingKey(item));
    if i == |list| then list + [item] else list[i := item]
  }

  function UpsertAll(list: seq<Listing>, items: seq<Listing>): seq<Listing> {
    if items == [] then list else Upsert(UpsertAll(list, items[..|items| - 1]), items[|items| - 1])
  }

  /** `listingKey(...) || null`: an empty key focuses nothing. */
  function Focus(home: Listing): Option<string> {
    if ListingKey(home) == "" then None else Some(ListingKey(home))
  }

  function Reduce(prev: State, event: ToolEvent): State {
    match event
    case ShortlistEvent(matches) => prev.(candidates := UpsertAll(prev.candidates, matches))
    case PropertyEvent(home) => prev.(candidates := Upsert(prev.candidates, home), activeKey := Focus(home))
    case LeadEvent(lead) => prev.(lead := Some(lead))
    case BookingEvent(booking) => prev.(booking := Some(booking))
    case OtherEvent => prev
  }

  function Fold(events: seq<ToolEvent>): State {
    if events == [] then EMPTY else Reduce(Fold(events[..|events| - 1]), events[|events| - 1])
  }

  // ---------------------------------------------------------------- what the call showed

  /** Every listing shown so far, in the order shown. */
  function Shown(events: seq<ToolEvent>): seq<Listing> {
    if events == [] then []
    else Shown(events[..|events| - 1]) + ShownBy(events[|events| - 1])
  }

  function ShownBy(e: ToolEvent): seq<Listing> {
    match e
    case ShortlistEvent(matches) => matches
    case PropertyEvent(home) => [home]
    case _ => []
  }

  /** The last listing shown under a key. */
  function Latest(log: seq<Listing>, key: string): Option<Listing> {
    if log == [] then None
    else if ListingKey(log[|log| - 1]) == key then Some(log[|log| - 1])
    else Latest(log[..|log| - 1], key)
  }

  ghost predicate HasKey(list: seq<Listing>, key: string) {
    exists i :: 0 <= i < |list| && ListingKey(list[i]) == key
  }

  /** The candidates are the latest listing of each key shown, in the order the keys first appeared. */
  ghost predicate Tracks(list: seq<Listing>, log: seq<Listing>) {
    && (forall i :: 0 <= i < |list| ==> Latest(log, ListingKey(list[i])) == Some(list[i]))
    && (forall i, j :: 0 <= i < j < |list| ==>
          FindIndex(log, ListingKey(list[i])) < FindIndex(log, ListingKey(list[j])))
    && (forall k :: 0 <= k < |log| ==> HasKey(list, ListingKey(log[k])))
  }

  lemma LatestIff(log: seq<Listing>, key: string)
    ensures Latest(log, key).Some? <==> FindIndex(log, key) < |log|
    ensures Latest(log, key).Some? ==> ListingKey(Latest(log, key).value) == key
  {
  }

  lemma SnocLog(log: seq<Listing>, x: Listing, key: string)
    ensures Latest(log + [x], key) == if ListingKey(x) == key then Some(x) else Latest(log, key)
    ensures FindIndex(log, key) < |log| ==> FindIndex(log + [x], key) == FindIndex(log, key)
    ensures FindIndex(log, key) == |log| && ListingKey(x) == key ==> FindIndex(log + [x], key) == |log|
  {
    assert (log + [x])[..|log|] == log;
  }

  lemma KeyShown(list: seq<Listing>, log: seq<Listing>, key: string)
    requires Tracks(list, log)
    ensures FindIndex(log, key) < |log| ==> HasKey(list, key)
  {
    var first := FindIndex(log, key);
    assert first < |log| ==> HasKey(list, ListingKey(log[first]));
  }

  lemma UpsertAtEnd(list: seq<Listing>, log: seq<Listing>, x: Listing)
    requires Tracks(list, log) && !HasKey(list, ListingKey(x))
    ensures Tracks(list + [x], log + [x])
  {
    var key, r, all := ListingKey(x), list + [x], log + [x];
    KeyShown(list, log, key);
    SnocLog(log, x, key);
    forall i | 0 <= i < |list|
      ensures FindIndex(all, ListingKey(list[i])) == FindIndex(log, ListingKey(list[i])) < |log|
      ensures Latest(all, ListingKey(list[i])) == Some(list[i])
    {
      LatestIff(log, ListingKey(list[i]));
      SnocLog(log, x, ListingKey(list[i]));
    }
    assert r[|list|] == x;
    forall k | 0 <= k < |all| ensures HasKey(r, ListingKey(all[k])) {
      if k < |log| {
        assert HasKey(list, ListingKey(log[k]));
        var i :| 0 <= i < |list| && ListingKey(list[i]) == ListingKey(log[k]);
        assert r[i] == list[i];
      }
    }
  }

  lemma PlaceStays(list: seq<Listing>, log: seq<Listing>, x: Listing, at: nat, i: nat)
    requires Tracks(list, log) && at < |list| && at == FindIndex(list, ListingKey(x)) && i < |list|
    ensures ListingKey(list[at := x][i]) == ListingKey(list[i])
    ensures FindIndex(log + [x], ListingKey(list[i])) == FindIndex(log, ListingKey(list[i]))
    ensures Latest(log + [x], ListingKey(list[i])) == Some(list[at := x][i])
  {
    LatestIff(log, ListingKey(list[i]));
    SnocLog(log, x, ListingKey(list[i]));
    if at < i {
      DistinctKeys(list, log, at, i);
    } else if i < at {
      DistinctKeys(list, log, i, at);
    }
  }

  lemma UpsertInPlace(list: seq<Listing>, log: seq<Listing>, x: Listing, at: nat)
    requires Tracks(list, log) && at < |list| && at == FindIndex(list, ListingKey(x))
    ensures Tracks(list[at := x], log + [x])
  {
    var r, all := list[at := x], log + [x];
    forall i | 0 <= i < |list|
      ensures ListingKey(r[i]) == ListingKey(list[i])
      ensures FindIndex(all, ListingKey(r[i])) == FindIndex(log, ListingKey(list[i]))
      ensures Latest(all, ListingKey(r[i])) == Some(r[i])
    {
      PlaceStays(list, log, x, at, i);
    }
    forall k | 0 <= k < |all| ensures HasKey(r, ListingKey(all[k])) {
      if k < |log| {
        assert HasKey(list, ListingKey(log[k]));
        var i :| 0 <= i < |list| && ListingKey(list[i]) == ListingKey(log[k]);
        assert ListingKey(r[i]) == ListingKey(all[k]);
      } else {
        assert ListingKey(r[at]) == ListingKey(all[k]);
      }
    }
  }

  /** One more listing shown, one listing upserted. */
  lemma UpsertTracks(list: seq<Listing>, log: seq<Listing>, x: Listing)
    requires Tracks(list, log)
    ensures Tracks(Upsert(list, x), log + [x])
  {
    var at := FindIndex(list, ListingKey(x));
    if at == |list| {
      UpsertAtEnd(list, log, x);
    } else {
      UpsertInPlace(list, log, x, at);
    }
  }

  lemma {:induction false} UpsertAllTracks(list: seq<Listing>, log: seq<Listing>, items: seq<Listing>)
    requires Tracks(list, log)
    ensures Tracks(UpsertAll(list, items), log + items)
  {
    if items == [] {
      assert log + items == log;
    } else {
      var front, last := items[..|items| - 1], items[|items| - 1];
      UpsertAllTracks(list, log, front);
      var r, shown := UpsertAll(list, front), log + front;
      UpsertTracks(r, shown, last);
      assert shown + [last] == log + items && Upsert(r, last) == UpsertAll(list, items);
    }
  }

  // ---------------------------------------------------------------- main results

  /** After any events the candidates are the latest listing of each key shown, by first appearance: keys are
      distinct, and none is ever evicted. */
  lemma {:induction false} CandidatesTrack(events: seq<ToolEvent>)
    ensures Tracks(Fold(events).candidates, Shown(events))
  {
    if events != [] {
      var front, e := events[..|events| - 1], events[|events| - 1];
      CandidatesTrack(front);
      var list, log := Fold(front).candidates, Shown(front);
      match e {
        case ShortlistEvent(matches) => UpsertAllTracks(list, log, matches);
        case PropertyEvent(home) => UpsertTracks(list, log, home);
        case _ => assert log + [] == log;
      }
    }
  }

  /** The last listing put in focus. */
  function LastFocus(events: seq<ToolEvent>): Option<string> {
    if events == [] then None
    else if events[|events| - 1].PropertyEvent? then
      var home := events[|events| - 1].home;
      if home.code.Some? then (if home.code.value == "" then None else home.code)
      else if home.address.Some? && home.address.value != "" then home.address
      else None
    else LastFocus(events[..|events| - 1])
  }

  /** The focused key is that of the last property event and is among the candidates. */
  lemma {:induction false} FocusIsShown(events: seq<ToolEvent>)
    ensures Fold(events).activeKey == LastFocus(events)
    ensures Fold(events).activeKey.Some? ==> HasKey(Fold(events).candidates, Fold(events).activeKey.value)
  {
    if events != [] {
      var front, e := events[..|events| - 1], events[|events| - 1];
      FocusIsShown(front);
      CandidatesTrack(events);
      var log := Shown(events);
      if e.PropertyEvent? {
        assert log[|log| - 1] == e.home;
      } else if Fold(front).activeKey.Some? {
        var list := Fold(front).candidates;
        var i :| 0 <= i < |list| && ListingKey(list[i]) == Fold(front).activeKey.value;
        if e.ShortlistEvent? {
          KeysStay(list, e.matches);
          assert ListingKey(UpsertAll(list, e.matches)[i]) == ListingKey(list[i]);
        }
      }
    }
  }

  /** Upserting keeps every place and its key. */
  lemma {:induction false} KeysStay(list: seq<Listing>, items: seq<Listing>)
    ensures |UpsertAll(list, items)| >= |list|
    ensures forall i :: 0 <= i < |list| ==> ListingKey(UpsertAll(list, items)[i]) == ListingKey(list[i])
  {
    if items != [] {
      KeysStay(list, items[..|items| - 1]);
    }
  }

  /** No home shown is ever evicted, or moved: later events keep every place and its key. */
  lemma {:induction false} NothingEvicted(events: seq<ToolEvent>, n: nat)
    requires n <= |events|
    ensures var before, after := Fold(events[..n]).candidates, Fold(events).candidates;
      |before| <= |after| && forall i :: 0 <= i < |before| ==> ListingKey(after[i]) == ListingKey(before[i])
  {
    if n == |events| {
      assert events[..n] == events;
    } else {
      var front, e := events[..|events| - 1], events[|events| - 1];
      assert front[..n] == events[..n];
      NothingEvicted(front, n);
      KeysStay(Fold(front).candidates, ShownBy(e));
    }
  }

  predicate SameKind(a: ToolEvent, b: ToolEvent) {
    (a.LeadEvent? && b.LeadEvent?) || (a.BookingEvent? && b.BookingEvent?)
  }

  /** A lead or a booking shown stays until the next of its kind. */
  lemma {:induction false} LastOfItsKindStays(events: seq<ToolEvent>, e: ToolEvent, later: seq<ToolEvent>)
    requires forall i :: 0 <= i < |later| ==> !SameKind(later[i], e)
    ensures e.LeadEvent? ==> Fold(events + [e] + later).lead == Some(e.lead)
    ensures e.BookingEvent? ==> Fold(events + [e] + later).booking == Some(e.booking)
  {
    var all := events + [e] + later;
    if later == [] {
      assert all == events + [e] && all[..|all| - 1] == events;
    } else {
      LastOfItsKindStays(events, e, later[..|later| - 1]);
      assert all[..|all| - 1] == events + [e] + later[..|later| - 1];
    }
  }

  lemma DistinctKeys(list: seq<Listing>, log: seq<Listing>, i: nat, j: nat)
    requires Tracks(list, log) && i < j < |list|
    ensures ListingKey(list[i]) != ListingKey(list[j])
  {
    assert FindIndex(log, ListingKey(list[i])) < FindIndex(log, ListingKey(list[j]));
  }

  // ---------------------------------------------------------------- redelivery

  lemma {:induction false} ConcatLog(a: seq<Listing>, b: seq<Listing>, key: string)
    ensures Latest(a + b, key) == if Latest(b, key).Some? then Latest(b, key) else Latest(a, key)
    ensures FindIndex(a, key) < |a| ==> FindIndex(a + b, key) == FindIndex(a, key)
  {
    if b == [] {
      assert a + b == a;
    } else {
      var front, last := b[..|b| - 1], b[|b| - 1];
      assert a + b == (a + front) + [last];
      ConcatLog(a, front, key);
      SnocLog(a + front, last, key);
    }
  }

  /** Two lists that track one log are one list. */
  lemma TracksOnce(c: seq<Listing>, d: seq<Listing>, log: seq<Listing>)
    requires Tracks(c, log) && Tracks(d, log)
    ensures c == d
  {
    forall x ensures x in c <==> x in d {
      if x in c { Carries(c, d, log, x); }
      if x in d { Carries(d, c, log, x); }
    }
    SameOrder(c, d, log);
  }

  lemma Carries(c: seq<Listing>, d: seq<Listing>, log: seq<Listing>, x: Listing)
    requires Tracks(c, log) && Tracks(d, log) && x in c
    ensures x in d
  {
    LatestIff(log, ListingKey(x));
    var k := FindIndex(log, ListingKey(x));
    assert HasKey(d, ListingKey(log[k]));
  }

  ghost predicate Ascending(list: seq<Listing>, log: seq<Listing>) {
    forall i, j :: 0 <= i < j < |list| ==> FindIndex(log, ListingKey(list[i])) < FindIndex(log, ListingKey(list[j]))
  }

  ghost predicate SameMembers(c: seq<Listing>, d: seq<Listing>) {
    forall x :: x in c <==> x in d
  }

  /** The last of an ascending list comes after every other member. */
  lemma LastIsLast(c: seq<Listing>, log: seq<Listing>, x: Listing)
    requires Ascending(c, log) && x in c
    ensures var last := c[|c| - 1];
      && FindIndex(log, ListingKey(x)) <= FindIndex(log, ListingKey(last))
      && (FindIndex(log, ListingKey(x)) == FindIndex(log, ListingKey(last)) ==> x == last)
      && (x in c[..|c| - 1] <==> x != last)
  {
  }

  lemma WithoutLast(c: seq<Listing>, d: seq<Listing>, log: seq<Listing>)
    requires Ascending(c, log) && Ascending(d, log) && SameMembers(c, d)
    requires c != [] && d != [] && c[|c| - 1] == d[|d| - 1]
    ensures SameMembers(c[..|c| - 1], d[..|d| - 1])
  {
    var c0, d0 := c[..|c| - 1], d[..|d| - 1];
    forall x ensures x in c0 <==> x in d0 {
      if x in c {
        LastIsLast(c, log, x);
        LastIsLast(d, log, x);
      }
    }
  }

  lemma BothEmpty(c: seq<Listing>, d: seq<Listing>)
    requires SameMembers(c, d)
    ensures c == [] <==> d == []
  {
    assert (c != [] ==> c[0] in c) && (d != [] ==> d[0] in d);
  }

  lemma SameLast(c: seq<Listing>, d: seq<Listing>, log: seq<Listing>)
    requires Ascending(c, log) && Ascending(d, log) && SameMembers(c, d) && c != [] && d != []
    ensures c[|c| - 1] == d[|d| - 1]
  {
    var a, b := c[|c| - 1], d[|d| - 1];
    assert a in c && b in d;
    LastIsLast(c, log, b);
    LastIsLast(d, log, a);
  }

  lemma AscendingPrefix(c: seq<Listing>, log: seq<Listing>)
    requires Ascending(c, log) && c != []
    ensures Ascending(c[..|c| - 1], log)
  {
  }

  lemma {:induction false} SameOrder(c: seq<Listing>, d: seq<Listing>, log: seq<Listing>)
    requires Ascending(c, log) && Ascending(d, log) && SameMembers(c, d)
    ensures c == d
    decreases |c|
  {
    BothEmpty(c, d);
    if c != [] {
      SameLast(c, d, log);
      WithoutLast(c, d, log);
      AscendingPrefix(c, log);
      AscendingPrefix(d, log);
      var c0, d0 := c[..|c| - 1], d[..|d| - 1];
      SameOrder(c0, d0, log);
      assert c == c0 + [c[|c| - 1]] && d == d0 + [d[|d| - 1]];
    }
  }

  /** An event delivered twice leaves the state it left the first time. */
  lemma RedeliveryChangesNothing(events: seq<ToolEvent>, e: ToolEvent)
    ensures Fold(events + [e, e]) == Fold(events + [e])
  {
    var once, twice := events + [e], events + [e, e];
    assert once[..|events|] == events && twice[..|once|] == once;
    if e.ShortlistEvent? || e.PropertyEvent? {
      CandidatesTrack(once);
      CandidatesTrack(twice);
      assert Shown(twice) == Shown(once) + ShownBy(e);
      assert Shown(once) == Shown(events) + ShownBy(e);
      SameTracks(Fold(twice).candidates, Shown(events), ShownBy(e));
      TracksOnce(Fold(twice).candidates, Fold(once).candidates, Shown(once));
    }
  }

  lemma SameTracks(list: seq<Listing>, log: seq<Listing>, more: seq<Listing>)
    requires Tracks(list, (log + more) + more)
    ensures Tracks(list, log + more)
  {
    var once, twice := log + more, (log + more) + more;
    forall i | 0 <= i < |list|
      ensures Latest(once, ListingKey(list[i])) == Some(list[i])
      ensures FindIndex(once, ListingKey(list[i])) == FindIndex(twice, ListingKey(list[i]))
    {
      var key := ListingKey(list[i]);
      ConcatLog(log, more, key);
      ConcatLog(once, more, key);
      LatestIff(once, key);
    }
    forall k | 0 <= k < |once| ensures HasKey(list, ListingKey(once[k])) {
      assert twice[k] == once[k];
    }
  }
}
