/**
 The registry of live calls: which specialist holds each call, and the handoffs of the call, dropped
 after a time to live. Values and the refinement of the event log come first, the mutable registry with
 its subscribers' queues last.
 */
module LiveAgents {
  import opened Prelude

  const AGENTS: seq<string> := ["concierge", "property", "scheduling"]

  type Edge = (string, string)

  datatype Call = Call(
    tenant: string,
    room: string,
    active: string,
    action: string,
    edges: set<Edge>,
    startedAt: real,
    updatedAt: real)

  datatype Key = Key(tenant: string, room: string)

  function KeyOf(c: Call): Key {
    Key(c.tenant, c.room)
  }

  /** What the registry is told: a call's state, or a read by some tenant, which sweeps every tenant. */
  datatype Op =
    | Report(now: real, key: Key, active: string, action: string, from: Option<string>)
    | Read(now: real, reader: string)

  /** The handoff a report records, if any. */
  function HandoffOf(active: string, from: Option<string>): set<Edge> {
    if Truthy(from) && from.value in AGENTS && from.value != active then {(from.value, active)} else {}
  }

  /** A report of specialist `active` naming `from` hands over along `e`: from one known specialist to another. */
  predicate HandsOver(active: string, from: Option<string>, e: Edge) {
    from == Some(e.0) && active == e.1 && e.0 != e.1 && e.0 in {"concierge", "property", "scheduling"}
  }

  lemma HandoffIff(active: string, from: Option<string>, e: Edge)
    ensures e in HandoffOf(active, from) <==> HandsOver(active, from, e)
  {
    assert e.0 in AGENTS <==> e.0 in {"concierge", "property", "scheduling"} by {
      assert AGENTS[0] == "concierge" && AGENTS[1] == "property" && AGENTS[2] == "scheduling";
    }
    assert "" !in {"concierge", "property", "scheduling"} by {
      assert |""| == 0 && |"concierge"| > 0 && |"property"| > 0 && |"scheduling"| > 0;
    }
  }

  function NewCall(key: Key, active: string, action: string, from: Option<string>, now: real): Call {
    Call(key.tenant, key.room, active, action, HandoffOf(active, from), now, now)
  }

  function Refreshed(c: Call, active: string, action: string, from: Option<string>, now: real): Call {
    c.(active := active, action := action, edges := c.edges + HandoffOf(active, from), updatedAt := now)
  }

  // ---------------------------------------------------------------- the table of calls

  /** The position of a key, the table's length when it is absent. */
  function IndexOf(calls: seq<Call>, key: Key): (i: nat)
    ensures i <= |calls|
    ensures i < |calls| ==> KeyOf(calls[i]) == key
    ensures forall j :: 0 <= j < i ==> KeyOf(calls[j]) != key
  {
    if calls == [] then 0
    else
      var front := IndexOf(calls[..|calls| - 1], key);
      if front < |calls| - 1 then front
      else if KeyOf(calls[|calls| - 1]) == key then |calls| - 1
      else |calls|
  }

  function Update(calls: seq<Call>, key: Key, active: string, action: string, from: Option<string>, now: real)
    : seq<Call>
  {
    var i := IndexOf(calls, key);
    if i < |calls| then calls[i := Refreshed(calls[i], active, action, from, now)]
    else calls + [NewCall(key, active, action, from, now)]
  }

  predicate Live(c: Call, now: real, ttl: real) {
    c.updatedAt > now - ttl
  }

  /** Drops every call whose last update is at or past the time to live. */
  function Sweep(calls: seq<Call>, now: real, ttl: real): (r: seq<Call>)
    ensures |r| <= |calls|
  {
    if calls == [] then []
    else
      var front, last := Sweep(calls[..|calls| - 1], now, ttl), calls[|calls| - 1];
      if Live(last, now, ttl) then front + [last] else front
  }

  function OfTenant(calls: seq<Call>, tenant: string): (r: seq<Call>)
    ensures |r| <= |calls|
  {
    if calls == [] then []
    else
      var front, last := OfTenant(calls[..|calls| - 1], tenant), calls[|calls| - 1];
      if last.tenant == tenant then front + [last] else front
  }

  function Snapshot(calls: seq<Call>, tenant: string, now: real, ttl: real): seq<Call> {
    OfTenant(Sweep(calls, now, ttl), tenant)
  }

  function Apply(calls: seq<Call>, op: Op, ttl: real): seq<Call> {
    match op
    case Report(now, key, active, action, from) => Update(calls, key, active, action, from, now)
    case Read(now, _) => Sweep(calls, now, ttl)
  }

  function Replay(ops: seq<Op>, ttl: real): seq<Call> {
    if ops == [] then [] else Apply(Replay(ops[..|ops| - 1], ttl), ops[|ops| - 1], ttl)
  }

  predicate UniqueKeys(calls: seq<Call>) {
    forall i, j :: 0 <= i < j < |calls| ==> KeyOf(calls[i]) != KeyOf(calls[j])
  }

  /** The entry of a key. */
  function Lookup(calls: seq<Call>, key: Key): Option<Call> {
    var i := IndexOf(calls, key);
    if i < |calls| then Some(calls[i]) else None
  }

  // ---------------------------------------------------------------- one key at a time

  /** What an operation does to the entry of one key. */
  function Track(entry: Option<Call>, op: Op, key: Key, ttl: real): Option<Call> {
    match op
    case Report(now, k, active, action, from) =>
      if k != key then entry
      else if entry.None? then Some(NewCall(key, active, action, from, now))
      else Some(Refreshed(entry.value, active, action, from, now))
    case Read(now, _) => if entry.Some? && Live(entry.value, now, ttl) then entry else None
  }

  function TrackAll(ops: seq<Op>, key: Key, ttl: real): Option<Call> {
    if ops == [] then None else Track(TrackAll(ops[..|ops| - 1], key, ttl), ops[|ops| - 1], key, ttl)
  }

  lemma {:induction false} LookupSnoc(calls: seq<Call>, c: Call, key: Key)
    ensures Lookup(calls + [c], key) ==
            if Lookup(calls, key).Some? then Lookup(calls, key) else if KeyOf(c) == key then Some(c) else None
  {
    assert (calls + [c])[..|calls|] == calls;
  }

  lemma {:induction false} LookupSweep(calls: seq<Call>, now: real, ttl: real, key: Key)
    requires UniqueKeys(calls)
    ensures Lookup(Sweep(calls, now, ttl), key) ==
            if Lookup(calls, key).Some? && Live(Lookup(calls, key).value, now, ttl) then Lookup(calls, key) else None
  {
    if calls != [] {
      var front, last := calls[..|calls| - 1], calls[|calls| - 1];
      LookupSweep(front, now, ttl, key);
      assert calls == front + [last];
      LookupSnoc(front, last, key);
      LookupSnoc(Sweep(front, now, ttl), last, key);
      if KeyOf(last) == key {
        assert Lookup(front, key).None?;
      }
    }
  }

  lemma {:induction false} SweepUnique(calls: seq<Call>, now: real, ttl: real)
    requires UniqueKeys(calls)
    ensures UniqueKeys(Sweep(calls, now, ttl))
  {
    if calls != [] {
      var front, last := calls[..|calls| - 1], calls[|calls| - 1];
      SweepUnique(front, now, ttl);
      var swept := Sweep(front, now, ttl);
      forall i | 0 <= i < |swept|
        ensures KeyOf(swept[i]) != KeyOf(last)
      {
        SweptIsLive(front, now, ttl, i);
        var j :| 0 <= j < |front| && front[j] == swept[i];
        assert KeyOf(calls[j]) != KeyOf(calls[|calls| - 1]);
      }
    }
  }

  lemma {:induction false} SweptIsLive(calls: seq<Call>, now: real, ttl: real, i: nat)
    requires i < |Sweep(calls, now, ttl)|
    ensures Live(Sweep(calls, now, ttl)[i], now, ttl)
    ensures exists j :: 0 <= j < |calls| && calls[j] == Sweep(calls, now, ttl)[i]
  {
    var front, last := calls[..|calls| - 1], calls[|calls| - 1];
    if i < |Sweep(front, now, ttl)| {
      SweptIsLive(front, now, ttl, i);
      var j :| 0 <= j < |front| && front[j] == Sweep(front, now, ttl)[i];
      assert calls[j] == Sweep(calls, now, ttl)[i];
    } else {
      assert calls[|calls| - 1] == Sweep(calls, now, ttl)[i];
    }
  }

  lemma LookupUpdate(calls: seq<Call>, k: Key, active: string, action: string, from: Option<string>, now: real,
                     key: Key)
    requires UniqueKeys(calls)
    ensures var next := Update(calls, k, active, action, from, now);
      UniqueKeys(next) &&
      Lookup(next, key) == Track(Lookup(calls, key), Report(now, k, active, action, from), key, 0.0)
  {
    var i := IndexOf(calls, k);
    if i < |calls| {
      var next := calls[i := Refreshed(calls[i], active, action, from, now)];
      assert forall j :: 0 <= j < |calls| ==> KeyOf(next[j]) == KeyOf(calls[j]);
      SameIndex(calls, next, key);
    } else {
      LookupSnoc(calls, NewCall(k, active, action, from, now), key);
    }
  }

  lemma SameIndex(calls: seq<Call>, next: seq<Call>, key: Key)
    requires |calls| == |next| && forall j :: 0 <= j < |calls| ==> KeyOf(next[j]) == KeyOf(calls[j])
    ensures IndexOf(calls, key) == IndexOf(next, key)
  {
  }

  /** The table is the per-key histories side by side. */
  lemma {:induction false} ReplayTracks(ops: seq<Op>, ttl: real, key: Key)
    ensures UniqueKeys(Replay(ops, ttl))
    ensures Lookup(Replay(ops, ttl), key) == TrackAll(ops, key, ttl)
  {
    if ops != [] {
      var before, op := ops[..|ops| - 1], ops[|ops| - 1];
      ReplayTracks(before, ttl, key);
      match op {
        case Report(now, k, active, action, from) =>
          LookupUpdate(Replay(before, ttl), k, active, action, from, now, key);
        case Read(now, _) =>
          LookupSweep(Replay(before, ttl), now, ttl, key);
          SweepUnique(Replay(before, ttl), now, ttl);
      }
    }
  }

  // ---------------------------------------------------------------- what the log says

  ghost predicate Monotone(ops: seq<Op>) {
    forall i, j :: 0 <= i < j < |ops| ==> ops[i].now <= ops[j].now
  }

  predicate Reports(op: Op, key: Key) {
    op.Report? && op.key == key
  }

  /** The last report of a call in the log. */
  function LastReport(ops: seq<Op>, key: Key): (r: Option<nat>)
    ensures r.Some? ==> r.value < |ops| && Reports(ops[r.value], key)
    ensures forall j :: (if r.Some? then r.value + 1 else 0) <= j < |ops| ==> !Reports(ops[j], key)
  {
    if ops == [] then None
    else if Reports(ops[|ops| - 1], key) then Some(|ops| - 1)
    else LastReport(ops[..|ops| - 1], key)
  }

  /** At read `r`, some report of the call since `i` is newer than the time to live. */
  ghost predicate FreshAt(ops: seq<Op>, key: Key, i: nat, r: nat, ttl: real)
    requires r < |ops|
  {
    exists u :: i <= u < r && Reports(ops[u], key) && ops[u].now > ops[r].now - ttl
  }

  /** The entry that report `i` wrote to is still the same entry: no read since dropped it. */
  ghost predicate Survives(ops: seq<Op>, key: Key, i: nat, ttl: real) {
    forall r :: i < r < |ops| && ops[r].Read? ==> FreshAt(ops, key, i, r, ttl)
  }

  /** Handoff `e` was reported at `i`, and the entry has not been dropped since. */
  ghost predicate Recorded(ops: seq<Op>, key: Key, e: Edge, i: nat, ttl: real) {
    i < |ops| && Reports(ops[i], key) && HandsOver(ops[i].active, ops[i].from, e) && Survives(ops, key, i, ttl)
  }

  lemma FreshAtPrefix(ops: seq<Op>, op: Op, key: Key, i: nat, r: nat, ttl: real)
    requires r < |ops|
    ensures FreshAt(ops + [op], key, i, r, ttl) <==> FreshAt(ops, key, i, r, ttl)
  {
    var more := ops + [op];
    assert forall u :: 0 <= u < |ops| ==> more[u] == ops[u];
    if u :| i <= u < r && Reports(ops[u], key) && ops[u].now > ops[r].now - ttl {
      assert Reports(more[u], key) && more[u].now > more[r].now - ttl;
    }
    if u :| i <= u < r && Reports(more[u], key) && more[u].now > more[r].now - ttl {
      assert Reports(ops[u], key) && ops[u].now > ops[r].now - ttl;
    }
  }

  lemma SurvivesSnoc(ops: seq<Op>, op: Op, key: Key, i: nat, ttl: real)
    requires i < |ops|
    ensures Survives(ops + [op], key, i, ttl) <==>
            Survives(ops, key, i, ttl) && (op.Read? ==> FreshAt(ops + [op], key, i, |ops|, ttl))
  {
    var more := ops + [op];
    assert forall u :: 0 <= u < |ops| ==> more[u] == ops[u];
    assert more[|ops|] == op;
    forall r | i < r < |ops|
      ensures FreshAt(more, key, i, r, ttl) <==> FreshAt(ops, key, i, r, ttl)
    {
      FreshAtPrefix(ops, op, key, i, r, ttl);
    }
  }

  /** With a monotone clock only the last report matters at a read. */
  lemma FreshIffLast(ops: seq<Op>, op: Op, key: Key, i: nat, ttl: real)
    requires Monotone(ops + [op]) && i < |ops| && Reports(ops[i], key)
    ensures LastReport(ops, key).Some? && LastReport(ops, key).value >= i
    ensures FreshAt(ops + [op], key, i, |ops|, ttl) <==> ops[LastReport(ops, key).value].now > op.now - ttl
  {
    var more := ops + [op];
    var last := LastReport(ops, key).value;
    assert more[|ops|] == op && more[last] == ops[last];
    if u :| i <= u < |ops| && Reports(more[u], key) && more[u].now > more[|ops|].now - ttl {
      assert more[u].now <= more[last].now;
    }
  }

  /** The entry of a call agrees with its last report, or that report has expired. */
  ghost predicate EntryMatches(ops: seq<Op>, key: Key, entry: Option<Call>, ttl: real) {
    var u := LastReport(ops, key);
    match entry
    case Some(c) => u.Some? && c.tenant == key.tenant && c.room == key.room &&
      c.active == ops[u.value].active && c.action == ops[u.value].action && c.updatedAt == ops[u.value].now
    case None => u.Some? ==> ops[u.value].now <= ops[|ops| - 1].now - ttl
  }

  lemma LastReportSnoc(ops: seq<Op>, op: Op, key: Key)
    ensures LastReport(ops + [op], key) == if Reports(op, key) then Some(|ops|) else LastReport(ops, key)
  {
    assert (ops + [op])[..|ops|] == ops;
  }

  lemma {:induction false} TrackMatches(ops: seq<Op>, key: Key, ttl: real)
    requires Monotone(ops)
    ensures EntryMatches(ops, key, TrackAll(ops, key, ttl), ttl)
  {
    if ops != [] {
      var before, op := ops[..|ops| - 1], ops[|ops| - 1];
      assert ops == before + [op];
      TrackMatches(before, key, ttl);
      LastReportSnoc(before, op, key);
    }
  }

  /** A read expires the call: its last report is at or past the time to live. */
  predicate Expires(ops: seq<Op>, op: Op, key: Key, ttl: real) {
    op.Read? && LastReport(ops, key).Some? && ops[LastReport(ops, key).value].now <= op.now - ttl
  }

  lemma SurvivesStep(ops: seq<Op>, op: Op, key: Key, i: nat, ttl: real)
    requires Monotone(ops + [op]) && i < |ops| && Reports(ops[i], key)
    ensures Survives(ops + [op], key, i, ttl) <==> Survives(ops, key, i, ttl) && !Expires(ops, op, key, ttl)
  {
    SurvivesSnoc(ops, op, key, i, ttl);
    FreshIffLast(ops, op, key, i, ttl);
  }

  ghost predicate EverRecorded(ops: seq<Op>, key: Key, e: Edge, ttl: real) {
    exists i: nat :: Recorded(ops, key, e, i, ttl)
  }

  lemma RecordedStep(ops: seq<Op>, op: Op, key: Key, e: Edge, ttl: real)
    requires Monotone(ops + [op])
    ensures EverRecorded(ops + [op], key, e, ttl) <==>
      (Reports(op, key) && HandsOver(op.active, op.from, e)) ||
      (EverRecorded(ops, key, e, ttl) && !Expires(ops, op, key, ttl))
  {
    var more := ops + [op];
    assert more[|ops|] == op && forall u :: 0 <= u < |ops| ==> more[u] == ops[u];
    if i: nat :| Recorded(more, key, e, i, ttl) {
      if i < |ops| {
        SurvivesStep(ops, op, key, i, ttl);
        assert Recorded(ops, key, e, i, ttl);
      }
    }
    if EverRecorded(ops, key, e, ttl) && !Expires(ops, op, key, ttl) {
      var i: nat :| Recorded(ops, key, e, i, ttl);
      SurvivesStep(ops, op, key, i, ttl);
      assert Recorded(more, key, e, i, ttl);
    }
    if Reports(op, key) && HandsOver(op.active, op.from, e) {
      assert Recorded(more, key, e, |ops|, ttl);
    }
  }

  ghost predicate SomeSurvives(ops: seq<Op>, key: Key, ttl: real) {
    exists i :: 0 <= i < |ops| && Reports(ops[i], key) && Survives(ops, key, i, ttl)
  }

  lemma SomeSurvivesStep(ops: seq<Op>, op: Op, key: Key, ttl: real)
    requires Monotone(ops + [op])
    ensures SomeSurvives(ops + [op], key, ttl) <==>
            Reports(op, key) || (SomeSurvives(ops, key, ttl) && !Expires(ops, op, key, ttl))
  {
    var more := ops + [op];
    assert more[|ops|] == op && forall u :: 0 <= u < |ops| ==> more[u] == ops[u];
    if i :| 0 <= i < |more| && Reports(more[i], key) && Survives(more, key, i, ttl) {
      if i < |ops| {
        SurvivesStep(ops, op, key, i, ttl);
      }
    }
    if SomeSurvives(ops, key, ttl) && !Expires(ops, op, key, ttl) {
      var i :| 0 <= i < |ops| && Reports(ops[i], key) && Survives(ops, key, i, ttl);
      SurvivesStep(ops, op, key, i, ttl);
      assert Survives(more, key, i, ttl) && Reports(more[i], key);
    }
    if Reports(op, key) {
      assert Survives(more, key, |ops|, ttl) && Reports(more[|ops|], key);
    }
  }

  /** An entry with its handoffs, as the log has them. */
  ghost predicate EdgesMatch(ops: seq<Op>, key: Key, entry: Option<Call>, ttl: real, e: Edge) {
    (entry.Some? <==> SomeSurvives(ops, key, ttl)) &&
    (entry.Some? ==> (e in entry.value.edges <==> EverRecorded(ops, key, e, ttl)))
  }

  lemma RecordedSurvives(ops: seq<Op>, key: Key, e: Edge, ttl: real)
    ensures EverRecorded(ops, key, e, ttl) ==> SomeSurvives(ops, key, ttl)
  {
    if i: nat :| Recorded(ops, key, e, i, ttl) {
      assert Reports(ops[i], key) && Survives(ops, key, i, ttl);
    }
  }

  lemma TrackEdgesStep(ops: seq<Op>, op: Op, key: Key, entry: Option<Call>, ttl: real, e: Edge)
    requires Monotone(ops + [op]) && EdgesMatch(ops, key, entry, ttl, e)
    requires entry.Some? ==> LastReport(ops, key).Some? && entry.value.updatedAt == ops[LastReport(ops, key).value].now
    ensures EdgesMatch(ops + [op], key, Track(entry, op, key, ttl), ttl, e)
  {
    if op.Report? {
      HandoffIff(op.active, op.from, e);
    }
    RecordedStep(ops, op, key, e, ttl);
    SomeSurvivesStep(ops, op, key, ttl);
    RecordedSurvives(ops, key, e, ttl);
  }

  /** The handoffs of an entry are the recorded ones, and there is an entry exactly while some report
      of it survives. */
  lemma {:induction false} TrackEdges(ops: seq<Op>, key: Key, ttl: real, e: Edge)
    requires Monotone(ops)
    ensures EdgesMatch(ops, key, TrackAll(ops, key, ttl), ttl, e)
  {
    if ops != [] {
      var before, op := ops[..|ops| - 1], ops[|ops| - 1];
      assert ops == before + [op];
      TrackEdges(before, key, ttl, e);
      TrackMatches(before, key, ttl);
      TrackEdgesStep(before, op, key, TrackAll(before, key, ttl), ttl, e);
    }
  }

  /** For every run with a monotone clock, a tenant's snapshot refines the whole event log: a room is in
      it exactly when its last report is newer than the time to live, with the specialist and action
      of that report, and exactly the handoffs reported since its entry was last created. */
  lemma SnapshotRefinesLog(ops: seq<Op>, key: Key, now: real, ttl: real, e: Edge)
    requires Monotone(ops) && (ops != [] ==> ops[|ops| - 1].now <= now)
    ensures var entry := Lookup(Snapshot(Replay(ops, ttl), key.tenant, now, ttl), key);
      var u := LastReport(ops, key);
      (entry.Some? <==> u.Some? && ops[u.value].now > now - ttl) &&
      (entry.Some? ==>
        entry.value.active == ops[u.value].active && entry.value.action == ops[u.value].action &&
        (e in entry.value.edges <==> EverRecorded(ops, key, e, ttl)))
  {
    ReplayTracks(ops, ttl, key);
    TrackMatches(ops, key, ttl);
    TrackEdges(ops, key, ttl, e);
    LookupSweep(Replay(ops, ttl), now, ttl, key);
    LookupOfTenant(Sweep(Replay(ops, ttl), now, ttl), key);
  }

  lemma {:induction false} LookupOfTenant(calls: seq<Call>, key: Key)
    ensures Lookup(OfTenant(calls, key.tenant), key) == Lookup(calls, key)
  {
    if calls != [] {
      var front, last := calls[..|calls| - 1], calls[|calls| - 1];
      LookupOfTenant(front, key);
      assert calls == front + [last];
      LookupSnoc(front, last, key);
      LookupSnoc(OfTenant(front, key.tenant), last, key);
    }
  }

  /** A snapshot lists only calls of its tenant, each room once. */
  lemma SnapshotIsScoped(ops: seq<Op>, tenant: string, now: real, ttl: real)
    ensures var snap := Snapshot(Replay(ops, ttl), tenant, now, ttl);
      UniqueKeys(snap) && forall i :: 0 <= i < |snap| ==> snap[i].tenant == tenant && snap[i].updatedAt > now - ttl
  {
    ReplayTracks(ops, ttl, Key("", ""));
    SweepUnique(Replay(ops, ttl), now, ttl);
    OfTenantScoped(Sweep(Replay(ops, ttl), now, ttl), tenant);
    var swept := Sweep(Replay(ops, ttl), now, ttl);
    forall i | 0 <= i < |swept|
      ensures Live(swept[i], now, ttl)
    {
      SweptIsLive(Replay(ops, ttl), now, ttl, i);
    }
  }

  lemma {:induction false} OfTenantScoped(calls: seq<Call>, tenant: string)
    requires UniqueKeys(calls)
    ensures UniqueKeys(OfTenant(calls, tenant))
    ensures forall i :: 0 <= i < |OfTenant(calls, tenant)| ==>
      OfTenant(calls, tenant)[i].tenant == tenant && OfTenant(calls, tenant)[i] in calls
  {
    if calls != [] {
      var front, last := calls[..|calls| - 1], calls[|calls| - 1];
      OfTenantScoped(front, tenant);
      assert calls == front + [last];
      NoneHasItsKey(front, last, OfTenant(front, tenant));
      KeepOneMore(OfTenant(front, tenant), last);
    }
  }

  lemma NoneHasItsKey(front: seq<Call>, last: Call, kept: seq<Call>)
    requires UniqueKeys(front + [last]) && forall i :: 0 <= i < |kept| ==> kept[i] in front
    ensures forall i :: 0 <= i < |kept| ==> KeyOf(kept[i]) != KeyOf(last)
  {
    var calls := front + [last];
    forall i | 0 <= i < |kept| ensures KeyOf(kept[i]) != KeyOf(last) {
      var j :| 0 <= j < |front| && front[j] == kept[i];
      assert KeyOf(calls[j]) != KeyOf(calls[|front|]);
    }
  }

  lemma KeepOneMore(kept: seq<Call>, last: Call)
    requires UniqueKeys(kept) && forall i :: 0 <= i < |kept| ==> KeyOf(kept[i]) != KeyOf(last)
    ensures UniqueKeys(kept + [last])
  {
  }

  /** A report makes its call's entry say it, keeps the call's start and earlier handoffs, and leaves every other
      entry and every place as they are; a new call goes to the end. */
  lemma ReportedEntry(calls: seq<Call>, key: Key, active: string, action: string, from: Option<string>, now: real)
    requires UniqueKeys(calls)
    ensures var next, was := Update(calls, key, active, action, from, now), Lookup(calls, key);
      && |next| == |calls| + (if was.Some? then 0 else 1)
      && (forall i :: 0 <= i < |calls| ==> KeyOf(next[i]) == KeyOf(calls[i]))
      && (forall i :: 0 <= i < |calls| && KeyOf(calls[i]) != key ==> next[i] == calls[i])
      && Lookup(next, key).Some?
      && var c := Lookup(next, key).value;
         && c.tenant == key.tenant && c.room == key.room && c.active == active && c.action == action
         && c.updatedAt == now && c.startedAt == (if was.Some? then was.value.startedAt else now)
         && forall e :: e in c.edges <==> (was.Some? && e in was.value.edges) || HandsOver(active, from, e)
  {
    LookupUpdate(calls, key, active, action, from, now, key);
    forall e ensures e in HandoffOf(active, from) <==> HandsOver(active, from, e) {
      HandoffIff(active, from, e);
    }
  }

  ghost predicate Before(calls: seq<Call>, c: Call, d: Call) {
    exists a, b :: 0 <= a < b < |calls| && calls[a] == c && calls[b] == d
  }

  /** `s` lists some of `t`, in the order of `t`. */
  ghost predicate InOrder(s: seq<Call>, t: seq<Call>) {
    forall i, j :: 0 <= i < j < |s| ==> Before(t, s[i], s[j])
  }

  lemma BeforeSnoc(t: seq<Call>, last: Call, c: Call, d: Call)
    ensures Before(t, c, d) || (c in t && d == last) ==> Before(t + [last], c, d)
  {
    var u := t + [last];
    assert u[|t|] == last && forall a :: 0 <= a < |t| ==> u[a] == t[a];
    if Before(t, c, d) {
      var a, b :| 0 <= a < b < |t| && t[a] == c && t[b] == d;
      assert u[a] == c && u[b] == d;
    } else if c in t && d == last {
      var a :| 0 <= a < |t| && t[a] == c;
      assert u[a] == c;
    }
  }

  lemma InOrderSnoc(s: seq<Call>, t: seq<Call>, c: Call)
    requires InOrder(s, t) && forall i :: 0 <= i < |s| ==> s[i] in t
    ensures InOrder(s, t + [c]) && InOrder(s + [c], t + [c])
  {
    var r := s + [c];
    forall i, j | 0 <= i < j < |r| ensures Before(t + [c], r[i], r[j]) {
      assert j < |s| ==> Before(t, s[i], s[j]);
      BeforeSnoc(t, c, r[i], r[j]);
    }
    assert forall i :: 0 <= i < |s| ==> r[i] == s[i];
  }

  lemma {:induction false} SweepInOrder(calls: seq<Call>, now: real, ttl: real)
    ensures InOrder(Sweep(calls, now, ttl), calls)
    ensures forall i :: 0 <= i < |Sweep(calls, now, ttl)| ==> Sweep(calls, now, ttl)[i] in calls
  {
    if calls != [] {
      var front, last := calls[..|calls| - 1], calls[|calls| - 1];
      assert calls == front + [last];
      SweepInOrder(front, now, ttl);
      InOrderSnoc(Sweep(front, now, ttl), front, last);
    }
  }

  lemma {:induction false} TenantInOrder(calls: seq<Call>, tenant: string)
    ensures InOrder(OfTenant(calls, tenant), calls)
    ensures forall i :: 0 <= i < |OfTenant(calls, tenant)| ==> OfTenant(calls, tenant)[i] in calls
  {
    if calls != [] {
      var front, last := calls[..|calls| - 1], calls[|calls| - 1];
      assert calls == front + [last];
      TenantInOrder(front, tenant);
      InOrderSnoc(OfTenant(front, tenant), front, last);
    }
  }

  /** A snapshot lists its calls in the order the registry first heard of them. */
  lemma SnapshotInOrder(calls: seq<Call>, tenant: string, now: real, ttl: real)
    ensures InOrder(Snapshot(calls, tenant, now, ttl), calls)
  {
    var swept, snap := Sweep(calls, now, ttl), Snapshot(calls, tenant, now, ttl);
    SweepInOrder(calls, now, ttl);
    TenantInOrder(swept, tenant);
    forall i, j | 0 <= i < j < |snap| ensures Before(calls, snap[i], snap[j]) {
      assert Before(swept, snap[i], snap[j]);
      BeforeThrough(swept, calls, snap[i], snap[j]);
    }
  }

  lemma BeforeThrough(s: seq<Call>, t: seq<Call>, c: Call, d: Call)
    requires InOrder(s, t) && Before(s, c, d)
    ensures Before(t, c, d)
  {
    var a, b :| 0 <= a < b < |s| && s[a] == c && s[b] == d;
    assert Before(t, s[a], s[b]);
  }

  // ---------------------------------------------------------------- what other tenants can influence

  /** The operations of one tenant, in order. */
  function Own(ops: seq<Op>, tenant: string): seq<Op> {
    if ops == [] then []
    else
      var front, op := Own(ops[..|ops| - 1], tenant), ops[|ops| - 1];
      if IsOwn(op, tenant) then front + [op] else front
  }

  predicate IsOwn(op: Op, tenant: string) {
    (if op.Report? then op.key.tenant else op.reader) == tenant
  }

  function LastOp(ops: seq<Op>, key: Key): Option<Op> {
    if LastReport(ops, key).Some? then Some(ops[LastReport(ops, key).value]) else None
  }

  lemma {:induction false} LastOpIsOwn(ops: seq<Op>, key: Key)
    ensures LastOp(ops, key) == LastOp(Own(ops, key.tenant), key)
  {
    if ops != [] {
      var before, op := ops[..|ops| - 1], ops[|ops| - 1];
      LastOpIsOwn(before, key);
      assert ops == before + [op];
      LastReportSnoc(before, op, key);
      LastReportSnoc(Own(before, key.tenant), op, key);
    }
  }

  ghost predicate EndsBy(ops: seq<Op>, now: real) {
    Monotone(ops) && (ops != [] ==> ops[|ops| - 1].now <= now)
  }

  function SnapshotEntry(ops: seq<Op>, key: Key, now: real, ttl: real): Option<Call> {
    Lookup(Snapshot(Replay(ops, ttl), key.tenant, now, ttl), key)
  }

  /** Rooms, active specialist and action never depend on other tenants' operations. */
  lemma SnapshotIsIndependent(ops: seq<Op>, other: seq<Op>, key: Key, now: real, ttl: real)
    requires EndsBy(ops, now) && EndsBy(other, now) && Own(ops, key.tenant) == Own(other, key.tenant)
    ensures var a, b := SnapshotEntry(ops, key, now, ttl), SnapshotEntry(other, key, now, ttl);
      a.Some? == b.Some? && (a.Some? ==> a.value.active == b.value.active && a.value.action == b.value.action)
  {
    LastOpIsOwn(ops, key);
    LastOpIsOwn(other, key);
    SnapshotRefinesLog(ops, key, now, ttl, ("", ""));
    SnapshotRefinesLog(other, key, now, ttl, ("", ""));
  }

  /** The entry of a key when some other tenant reads just before each of its reports. */
  function TrackSwept(ops: seq<Op>, key: Key, ttl: real): Option<Call> {
    if ops == [] then None
    else
      SweptTrack(TrackSwept(ops[..|ops| - 1], key, ttl), ops[|ops| - 1], key, ttl)
  }

  function SweptTrack(entry: Option<Call>, op: Op, key: Key, ttl: real): Option<Call> {
    Track(if op.Report? && entry.Some? && !Live(entry.value, op.now, ttl) then None else entry, op, key, ttl)
  }

  /** `a` has at most the handoffs of `b`. */
  predicate Within(a: Option<Call>, b: Option<Call>) {
    a.Some? && b.Some? && a.value.updatedAt == b.value.updatedAt && a.value.edges <= b.value.edges
  }

  /** A real entry lies between the one swept at every report and the one never swept by others. */
  ghost predicate Between(low: Option<Call>, entry: Option<Call>, high: Option<Call>, now: real, ttl: real) {
    (low.Some? && Live(low.value, now, ttl) ==> Within(low, entry)) &&
    (entry.Some? ==> Within(entry, high))
  }

  lemma {:induction false} TrackBetween(ops: seq<Op>, key: Key, ttl: real)
    requires Monotone(ops) && ops != []
    ensures var own := Own(ops, key.tenant);
      Between(TrackSwept(own, key, ttl), TrackAll(ops, key, ttl), TrackAll(own, key, ttl), ops[|ops| - 1].now, ttl)
  {
    var before, op := ops[..|ops| - 1], ops[|ops| - 1];
    if before != [] {
      assert before[|before| - 1] == ops[|before| - 1];
      TrackBetween(before, key, ttl);
    }
    var own := Own(before, key.tenant);
    if Own(ops, key.tenant) != own {
      assert Own(ops, key.tenant)[..|own|] == own;
    }
    if before != [] {
      BetweenStep(TrackSwept(own, key, ttl), TrackAll(before, key, ttl), TrackAll(own, key, ttl),
                  before[|before| - 1].now, op, key, ttl);
    }
  }

  /** One more operation keeps the bounds; of other tenants' only the sweep matters. */
  lemma BetweenStep(low: Option<Call>, entry: Option<Call>, high: Option<Call>, now: real, op: Op, key: Key, ttl: real)
    requires Between(low, entry, high, now, ttl) && now <= op.now
    ensures var more := Track(entry, op, key, ttl);
      if IsOwn(op, key.tenant)
      then Between(SweptTrack(low, op, key, ttl), more, Track(high, op, key, ttl), op.now, ttl)
      else Between(low, more, high, op.now, ttl)
  {
  }

  /** The same operations with another tenant reading just before each report. */
  function Interleaved(ops: seq<Op>, other: string): seq<Op> {
    if ops == [] then []
    else
      var front, op := Interleaved(ops[..|ops| - 1], other), ops[|ops| - 1];
      if op.Report? then front + [Read(op.now, other)] + [op] else front + [op]
  }

  lemma OwnSnoc(ops: seq<Op>, op: Op, tenant: string)
    ensures Own(ops + [op], tenant) ==
            if (if op.Report? then op.key.tenant else op.reader) == tenant
            then Own(ops, tenant) + [op] else Own(ops, tenant)
  {
    assert (ops + [op])[..|ops|] == ops;
  }

  lemma TrackSnoc(ops: seq<Op>, op: Op, key: Key, ttl: real)
    ensures TrackAll(ops + [op], key, ttl) == Track(TrackAll(ops, key, ttl), op, key, ttl)
  {
    assert (ops + [op])[..|ops|] == ops;
  }

  lemma {:induction false} InterleavedMonotone(ops: seq<Op>, other: string)
    requires Monotone(ops)
    ensures Monotone(Interleaved(ops, other))
    ensures ops != [] ==> Interleaved(ops, other) != []
    ensures ops != [] ==> Interleaved(ops, other)[|Interleaved(ops, other)| - 1] == ops[|ops| - 1]
  {
    if ops != [] {
      var before, op := ops[..|ops| - 1], ops[|ops| - 1];
      InterleavedMonotone(before, other);
      var front := Interleaved(before, other);
      if before != [] {
        assert before[|before| - 1] == ops[|before| - 1];
        assert front[|front| - 1].now <= op.now;
      }
    }
  }

  lemma {:induction false} InterleavedOwn(ops: seq<Op>, other: string, tenant: string)
    requires other != tenant && Own(ops, tenant) == ops
    ensures Own(Interleaved(ops, other), tenant) == ops
  {
    if ops != [] {
      var before, op := ops[..|ops| - 1], ops[|ops| - 1];
      OwnLength(before, tenant);
      assert ops == before + [op];
      InterleavedOwn(before, other, tenant);
      var front := Interleaved(before, other);
      if op.Report? {
        OwnSnoc(front, Read(op.now, other), tenant);
        OwnSnoc(front + [Read(op.now, other)], op, tenant);
      } else {
        OwnSnoc(front, op, tenant);
      }
    }
  }

  lemma {:induction false} OwnLength(ops: seq<Op>, tenant: string)
    ensures |Own(ops, tenant)| <= |ops|
    ensures |Own(ops, tenant)| == |ops| ==> Own(ops, tenant) == ops
  {
    if ops != [] {
      OwnLength(ops[..|ops| - 1], tenant);
    }
  }

  lemma {:induction false} InterleavedIsSwept(ops: seq<Op>, other: string, key: Key, ttl: real)
    ensures TrackAll(Interleaved(ops, other), key, ttl) == TrackSwept(ops, key, ttl)
  {
    if ops != [] {
      var before, op := ops[..|ops| - 1], ops[|ops| - 1];
      InterleavedIsSwept(before, other, key, ttl);
      var front := Interleaved(before, other);
      if op.Report? {
        TrackSnoc(front, Read(op.now, other), key, ttl);
        TrackSnoc(front + [Read(op.now, other)], op, key, ttl);
      } else {
        TrackSnoc(front, op, key, ttl);
      }
    }
  }

  lemma SnapshotTracks(ops: seq<Op>, key: Key, now: real, ttl: real)
    ensures SnapshotEntry(ops, key, now, ttl) ==
      var entry := TrackAll(ops, key, ttl);
      if entry.Some? && Live(entry.value, now, ttl) then entry else None
  {
    ReplayTracks(ops, ttl, key);
    LookupSweep(Replay(ops, ttl), now, ttl, key);
    LookupOfTenant(Sweep(Replay(ops, ttl), now, ttl), key);
  }

  /** A real entry lies between two bounds that are both reached: the run with no other tenant in it, and the run
      with another tenant reading just before each report. */
  lemma IndependentIffBoundsMeet(own: seq<Op>, key: Key, now: real, ttl: real, other: string)
    requires EndsBy(own, now) && Own(own, key.tenant) == own && other != key.tenant
    requires SnapshotEntry(own, key, now, ttl).Some?
    ensures TrackSwept(own, key, ttl).Some?
    ensures
      (forall ops :: EndsBy(ops, now) && Own(ops, key.tenant) == own ==>
        SnapshotEntry(ops, key, now, ttl).Some? &&
        SnapshotEntry(ops, key, now, ttl).value.edges == SnapshotEntry(own, key, now, ttl).value.edges)
      <==> TrackSwept(own, key, ttl).value.edges == SnapshotEntry(own, key, now, ttl).value.edges
  {
    SnapshotTracks(own, key, now, ttl);
    var worst := Interleaved(own, other);
    InterleavedMonotone(own, other);
    InterleavedOwn(own, other, key.tenant);
    InterleavedIsSwept(own, other, key, ttl);
    SnapshotTracks(worst, key, now, ttl);
    SnapshotIsIndependent(own, worst, key, now, ttl);
    var low, high := TrackSwept(own, key, ttl), TrackAll(own, key, ttl);
    forall ops | EndsBy(ops, now) && Own(ops, key.tenant) == own
      ensures SnapshotEntry(ops, key, now, ttl).Some?
      ensures low.value.edges <= SnapshotEntry(ops, key, now, ttl).value.edges <= high.value.edges
    {
      SnapshotTracks(ops, key, now, ttl);
      SnapshotIsIndependent(own, ops, key, now, ttl);
      TrackBetween(ops, key, ttl);
    }
  }

  /** From report `i` on, each report of the call came less than a time to live after the one before it. */
  ghost predicate SteadySince(ops: seq<Op>, key: Key, i: nat, ttl: real) {
    forall k :: i < k < |ops| && Reports(ops[k], key) ==>
      var last := LastReport(ops[..k], key); last.Some? && ops[k].now - ops[last.value].now < ttl
  }

  /** Report `i` recorded handoff `e`, and the call has reported steadily since. */
  ghost predicate SteadilyRecorded(ops: seq<Op>, key: Key, e: Edge, i: nat, ttl: real) {
    i < |ops| && Reports(ops[i], key) && HandsOver(ops[i].active, ops[i].from, e) && SteadySince(ops, key, i, ttl)
  }

  ghost predicate EverSteady(ops: seq<Op>, key: Key, e: Edge, ttl: real) {
    exists i: nat :: SteadilyRecorded(ops, key, e, i, ttl)
  }

  /** A report of the call that comes a time to live or more after its last one. */
  predicate Late(ops: seq<Op>, op: Op, key: Key, ttl: real) {
    Reports(op, key) && LastReport(ops, key).Some? && op.now - ops[LastReport(ops, key).value].now >= ttl
  }

  lemma SteadySnoc(ops: seq<Op>, op: Op, key: Key, i: nat, ttl: real)
    requires i < |ops| && Reports(ops[i], key)
    ensures SteadySince(ops + [op], key, i, ttl) <==> SteadySince(ops, key, i, ttl) && !Late(ops, op, key, ttl)
  {
    var more := ops + [op];
    assert more[|ops|] == op && more[..|ops|] == ops;
    forall k | 0 <= k < |ops| ensures more[k] == ops[k] && more[..k] == ops[..k] {
    }
    assert LastReport(ops, key).Some?;
    if SteadySince(more, key, i, ttl) && Reports(op, key) {
      assert Reports(more[|ops|], key);
    }
  }

  lemma EverSteadySnoc(ops: seq<Op>, op: Op, key: Key, e: Edge, ttl: real)
    ensures EverSteady(ops + [op], key, e, ttl) <==>
      (Reports(op, key) && HandsOver(op.active, op.from, e)) ||
      (EverSteady(ops, key, e, ttl) && !Late(ops, op, key, ttl))
  {
    var more := ops + [op];
    assert more[|ops|] == op && forall k :: 0 <= k < |ops| ==> more[k] == ops[k];
    if i: nat :| SteadilyRecorded(more, key, e, i, ttl) {
      if i < |ops| {
        SteadySnoc(ops, op, key, i, ttl);
        assert SteadilyRecorded(ops, key, e, i, ttl);
      }
    }
    if EverSteady(ops, key, e, ttl) && !Late(ops, op, key, ttl) {
      var i: nat :| SteadilyRecorded(ops, key, e, i, ttl);
      SteadySnoc(ops, op, key, i, ttl);
      assert SteadilyRecorded(more, key, e, i, ttl);
    }
    if Reports(op, key) && HandsOver(op.active, op.from, e) {
      assert SteadilyRecorded(more, key, e, |ops|, ttl);
    }
  }

  /** An entry of the fully interleaved run: its last report, and the handoffs recorded steadily. */
  ghost predicate SweptMatches(ops: seq<Op>, key: Key, entry: Option<Call>, ttl: real, e: Edge) {
    var u := LastReport(ops, key);
    && (entry.Some? ==> u.Some? && entry.value.updatedAt == ops[u.value].now)
    && (entry.Some? ==> (e in entry.value.edges <==> EverSteady(ops, key, e, ttl)))
    && (entry.None? && u.Some? ==> ops[u.value].now <= ops[|ops| - 1].now - ttl)
    && (u.None? ==> !EverSteady(ops, key, e, ttl))
  }

  lemma SweptStep(ops: seq<Op>, op: Op, key: Key, entry: Option<Call>, ttl: real, e: Edge)
    requires Monotone(ops + [op]) && SweptMatches(ops, key, entry, ttl, e)
    ensures var kept := if op.Report? && entry.Some? && !Live(entry.value, op.now, ttl) then None else entry;
      SweptMatches(ops + [op], key, Track(kept, op, key, ttl), ttl, e)
  {
    var more := ops + [op];
    assert more[|ops|] == op && forall k :: 0 <= k < |ops| ==> more[k] == ops[k];
    if op.Report? {
      HandoffIff(op.active, op.from, e);
    }
    LastReportSnoc(ops, op, key);
    EverSteadySnoc(ops, op, key, e, ttl);
    if ops != [] {
      assert more[|ops| - 1].now <= more[|ops|].now;
    }
  }

  lemma {:induction false} SweptEdges(ops: seq<Op>, key: Key, ttl: real, e: Edge)
    requires Monotone(ops)
    ensures SweptMatches(ops, key, TrackSwept(ops, key, ttl), ttl, e)
  {
    if ops != [] {
      var before, op := ops[..|ops| - 1], ops[|ops| - 1];
      assert ops == before + [op];
      SweptEdges(before, key, ttl, e);
      SweptStep(before, op, key, TrackSwept(before, key, ttl), ttl, e);
    }
  }

  /** Recorded handoffs can depend on other tenants, because every read sweeps every tenant. For a call that is live
      after the tenant's own operations `own` they never do exactly when each handoff still recorded was reported
      at some report since which every next report of the call came within a time to live. */
  lemma EdgesIndependentIff(own: seq<Op>, key: Key, now: real, ttl: real, other: string)
    requires EndsBy(own, now) && Own(own, key.tenant) == own && other != key.tenant
    requires SnapshotEntry(own, key, now, ttl).Some?
    ensures
      (forall ops :: EndsBy(ops, now) && Own(ops, key.tenant) == own ==>
        SnapshotEntry(ops, key, now, ttl).Some? &&
        SnapshotEntry(ops, key, now, ttl).value.edges == SnapshotEntry(own, key, now, ttl).value.edges)
      <==> (forall e :: EverRecorded(own, key, e, ttl) ==> EverSteady(own, key, e, ttl))
  {
    IndependentIffBoundsMeet(own, key, now, ttl, other);
    var low, high := TrackSwept(own, key, ttl).value.edges, SnapshotEntry(own, key, now, ttl).value.edges;
    forall e
      ensures e in low <==> EverSteady(own, key, e, ttl)
      ensures e in high <==> EverRecorded(own, key, e, ttl)
    {
      SweptEdges(own, key, ttl, e);
      SnapshotRefinesLog(own, key, now, ttl, e);
    }
    LowWithinHigh(own, key, now, ttl, other);
  }

  lemma LowWithinHigh(own: seq<Op>, key: Key, now: real, ttl: real, other: string)
    requires EndsBy(own, now) && Own(own, key.tenant) == own && other != key.tenant
    requires SnapshotEntry(own, key, now, ttl).Some? && TrackSwept(own, key, ttl).Some?
    ensures TrackSwept(own, key, ttl).value.edges <= SnapshotEntry(own, key, now, ttl).value.edges
  {
    var worst := Interleaved(own, other);
    InterleavedMonotone(own, other);
    InterleavedOwn(own, other, key.tenant);
    InterleavedIsSwept(own, other, key, ttl);
    SnapshotTracks(own, key, now, ttl);
    if own != [] {
      TrackBetween(worst, key, ttl);
    }
  }

  /** The entry that a last report at `now` left behind is the one a snapshot at `now` shows. */
  lemma EntryAfterReport(ops: seq<Op>, op: Op, key: Key, ttl: real)
    requires Reports(op, key) && ttl > 0.0
    ensures SnapshotEntry(ops + [op], key, op.now, ttl) == Track(TrackAll(ops, key, ttl), op, key, ttl)
  {
    TrackSnoc(ops, op, key, ttl);
    SnapshotTracks(ops + [op], key, op.now, ttl);
  }

  /** When a call reports again a time to live or more after its last report, it keeps its handoffs, unless another
      tenant reads just before: then only the new report's handoff is left, and the others are lost exactly when
      there were others. The call is shown either way, with the same specialist and action. */
  lemma AnotherTenantErasesHandoffs(ops: seq<Op>, op: Op, key: Key, ttl: real, other: string)
    requires Reports(op, key) && ttl > 0.0 && other != key.tenant
    requires TrackAll(ops, key, ttl).Some? && TrackAll(ops, key, ttl).value.updatedAt <= op.now - ttl
    ensures Own(ops + [op], key.tenant) == Own(ops + [Read(op.now, other)] + [op], key.tenant)
    ensures var before := TrackAll(ops, key, ttl).value;
      var alone := SnapshotEntry(ops + [op], key, op.now, ttl);
      var seen := SnapshotEntry(ops + [Read(op.now, other)] + [op], key, op.now, ttl);
      && alone == Some(Refreshed(before, op.active, op.action, op.from, op.now))
      && seen == Some(NewCall(key, op.active, op.action, op.from, op.now))
      && (alone.value.edges != seen.value.edges <==>
          exists e :: e in before.edges && !HandsOver(op.active, op.from, e))
  {
    var read := Read(op.now, other);
    OwnSnoc(ops, op, key.tenant);
    OwnSnoc(ops, read, key.tenant);
    OwnSnoc(ops + [read], op, key.tenant);
    TrackSnoc(ops, read, key, ttl);
    EntryAfterReport(ops, op, key, ttl);
    EntryAfterReport(ops + [read], op, key, ttl);
    forall e ensures e in HandoffOf(op.active, op.from) <==> HandsOver(op.active, op.from, e) {
      HandoffIff(op.active, op.from, e);
    }
  }

  /** It happens: a handoff reported at 0 and a plain report a time to live later leave the handoff on screen, and
      leave none when another tenant looked in between. */
  lemma ErasureExample(key: Key, ttl: real, other: string)
    requires ttl > 0.0 && other != key.tenant
    ensures var first := Report(0.0, key, "property", "search", Some("concierge"));
      var later := Report(ttl, key, "property", "search", None);
      var alone := SnapshotEntry([first, later], key, ttl, ttl);
      var seen := SnapshotEntry([first, Read(ttl, other), later], key, ttl, ttl);
      && Own([first, later], key.tenant) == Own([first, Read(ttl, other), later], key.tenant)
      && alone.Some? && alone.value.edges == {("concierge", "property")} && seen.Some? && seen.value.edges == {}
  {
    var first := Report(0.0, key, "property", "search", Some("concierge"));
    var later := Report(ttl, key, "property", "search", None);
    var edges := {("concierge", "property")};
    assert HandoffOf("property", Some("concierge")) == edges by {
      assert AGENTS[0] == "concierge" != "property";
    }
    ErasedBetween(first, later, key, ttl, other, edges);
    assert [first] + [later] == [first, later];
    assert [first] + [Read(ttl, other)] + [later] == [first, Read(ttl, other), later];
  }

  lemma ErasedBetween(first: Op, later: Op, key: Key, ttl: real, other: string, edges: set<Edge>)
    requires ttl > 0.0 && other != key.tenant && Reports(first, key) && Reports(later, key)
    requires first.now <= later.now - ttl && later.from == None && HandoffOf(first.active, first.from) == edges
    ensures var alone := SnapshotEntry([first] + [later], key, later.now, ttl);
      var seen := SnapshotEntry([first] + [Read(later.now, other)] + [later], key, later.now, ttl);
      && Own([first] + [later], key.tenant) == Own([first] + [Read(later.now, other)] + [later], key.tenant)
      && alone.Some? && alone.value.edges == edges && seen.Some? && seen.value.edges == {}
  {
    FirstTrack(first, key, ttl);
    AnotherTenantErasesHandoffs([first], later, key, ttl, other);
  }

  lemma FirstTrack(op: Op, key: Key, ttl: real)
    requires Reports(op, key)
    ensures TrackAll([op], key, ttl) == Some(NewCall(key, op.active, op.action, op.from, op.now))
  {
    TrackSnoc([], op, key, ttl);
    assert [] + [op] == [op];
  }

  // ---------------------------------------------------------------- the registry object

  /** What is published: a tenant's calls at the moment of publishing. */
  type Frame = seq<Call>

  class CallState {
    const tenant: string
    const room: string
    var active: string
    var action: string
    var edges: set<Edge>
    const startedAt: real
    var updatedAt: real

    constructor (key: Key, active: string, action: string, now: real)
      ensures Value() == Call(key.tenant, key.room, active, action, {}, now, now)
    {
      tenant, room, this.active, this.action, edges := key.tenant, key.room, active, action, {};
      startedAt, updatedAt := now, now;
    }

    function Value(): Call
      reads this
    {
      Call(tenant, room, active, action, edges, startedAt, updatedAt)
    }

    /** A handoff to the active specialist from another known one is recorded. */
    method RecordHandoff(from: Option<string>)
      modifies this`edges
      ensures edges == old(edges) + HandoffOf(active, from)
      ensures forall e :: e in edges <==> e in old(edges) || HandsOver(active, from, e)
    {
      forall e ensures e in HandoffOf(active, from) <==> HandsOver(active, from, e) {
        HandoffIff(active, from, e);
      }
      if from.Some? && from.value != "" && from.value in AGENTS && from.value != active {
        edges := edges + {(from.value, active)};
      }
    }
  }

  class EventQueue {
    var items: seq<Frame>

    constructor ()
      ensures items == []
    {
      items := [];
    }
  }

  function Values(states: seq<CallState>): (r: seq<Call>)
    reads states
    ensures |r| == |states| && forall i :: 0 <= i < |states| ==> r[i] == states[i].Value()
  {
    seq(|states|, i requires 0 <= i < |states| reads states => states[i].Value())
  }

  class Registry {
    const ttl: real
    var calls: seq<CallState>
    var queues: map<string, set<EventQueue>>

    constructor (ttl: real)
      ensures this.ttl == ttl && calls == [] && queues == map[]
    {
      this.ttl, calls, queues := ttl, [], map[];
    }

    ghost predicate Valid()
      reads this
    {
      forall i, j :: 0 <= i < j < |calls| ==> calls[i] != calls[j]
    }

    /** `update`: the entry's own fields change in place, or a new entry goes to the end. */
    method Report(key: Key, active: string, action: string, from: Option<string>, now: real)
      requires Valid()
      modifies this`calls, calls
      ensures Valid() && Values(calls) == Update(old(Values(calls)), key, active, action, from, now)
    {
      var i := 0;
      while i < |calls| && Key(calls[i].tenant, calls[i].room) != key
        invariant i <= |calls| && forall j :: 0 <= j < i ==> KeyOf(Values(calls)[j]) != key
      {
        i := i + 1;
      }
      ghost var was := old(Values(calls));
      assert i == IndexOf(was, key);
      var state;
      if i == |calls| {
        state := new CallState(key, active, action, now);
        calls := calls + [state];
      } else {
        state := calls[i];
        state.active, state.action, state.updatedAt := active, action, now;
      }
      state.RecordHandoff(from);
      if i == |was| {
        assert state.Value() == NewCall(key, active, action, from, now);
        assert Values(calls) == was + [state.Value()];
      } else {
        assert state.Value() == Refreshed(was[i], active, action, from, now);
        assert forall j :: 0 <= j < |calls| && j != i ==> calls[j].Value() == was[j];
      }
    }

    /** `_sweep`: every tenant's expired calls are dropped. */
    method DropExpired(now: real)
      requires Valid()
      modifies this`calls
      ensures Valid() && Values(calls) == Sweep(old(Values(calls)), now, ttl)
      ensures forall c :: c in calls ==> c in old(calls)
    {
      var kept: seq<CallState> := [];
      for i := 0 to |calls|
        invariant calls == old(calls)
        invariant Values(kept) == Sweep(Values(calls)[..i], now, ttl)
        invariant forall a, b :: 0 <= a < b < |kept| ==> kept[a] != kept[b]
        invariant forall c :: c in kept ==> c in calls[..i]
      {
        assert Values(calls)[..i + 1][..i] == Values(calls)[..i];
        assert calls[i] !in calls[..i];
        if calls[i].updatedAt > now - ttl {
          kept := kept + [calls[i]];
        }
      }
      assert Values(calls)[..|calls|] == Values(calls);
      calls := kept;
    }

    /** `snapshot_calls`: sweep, then one tenant's calls in insertion order. */
    method SnapshotCalls(tenant: string, now: real) returns (snapshot: seq<CallState>)
      requires Valid()
      modifies this`calls
      ensures Valid() && Values(calls) == Sweep(old(Values(calls)), now, ttl)
      ensures Values(snapshot) == Snapshot(old(Values(calls)), tenant, now, ttl)
    {
      DropExpired(now);
      snapshot := [];
      for i := 0 to |calls|
        invariant Values(snapshot) == OfTenant(Values(calls)[..i], tenant)
      {
        assert Values(calls)[..i + 1][..i] == Values(calls)[..i];
        if calls[i].tenant == tenant {
          snapshot := snapshot + [calls[i]];
        }
      }
      assert Values(calls)[..|calls|] == Values(calls);
    }

    function Subscribers(tenant: string): set<EventQueue>
      reads this
    {
      if tenant in queues then queues[tenant] else {}
    }

    method Subscribe(tenant: string) returns (q: EventQueue)
      modifies this`queues
      ensures fresh(q) && q.items == []
      ensures Subscribers(tenant) == old(Subscribers(tenant)) + {q}
      ensures forall t :: t != tenant ==> Subscribers(t) == old(Subscribers(t))
    {
      q := new EventQueue();
      queues := queues[tenant := Subscribers(tenant) + {q}];
    }

    /** A tenant's last unsubscription removes its entry. */
    method Unsubscribe(tenant: string, q: EventQueue)
      modifies this`queues
      ensures Subscribers(tenant) == old(Subscribers(tenant)) - {q}
      ensures forall t :: t != tenant ==> Subscribers(t) == old(Subscribers(t))
      ensures (forall t :: t in old(queues) ==> old(queues)[t] != {}) ==> forall t :: t in queues ==> queues[t] != {}
    {
      var subs := Subscribers(tenant);
      if subs != {} {
        subs := subs - {q};
        queues := if subs == {} then queues - {tenant} else queues[tenant := subs];
      }
    }

    /** `publish`: every queue of the tenant gets the payload once, no other queue changes. */
    method Publish(tenant: string, payload: Frame)
      modifies Subscribers(tenant)
      ensures forall q :: q in Subscribers(tenant) ==> q.items == old(q.items) + [payload]
    {
      var todo := Subscribers(tenant);
      while todo != {}
        invariant todo <= Subscribers(tenant)
        invariant forall q :: q in Subscribers(tenant) - todo ==> q.items == old(q.items) + [payload]
        invariant forall q :: q in todo ==> q.items == old(q.items)
        decreases todo
      {
        var q :| q in todo;
        q.items := q.items + [payload];
        todo := todo - {q};
      }
    }
  }
}
