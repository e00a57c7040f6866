/**
 The onboarding review buffer, twice: per-tenant dictionaries keyed by draft id, local to a process, and
 one table row per tenant holding a list of drafts, shared by all. They are meant to be interchangeable;
 module StagingEquality proves when they are.
 */
module Staging {
  import opened Prelude
  import opened Grouping

  const ID := "id"

  /** One dictionary entry: the key it was staged under and the draft. */
  datatype Entry = Entry(key: Value, draft: Rec)

  /** The in-memory store; a bucket lists its entries in insertion order. */
  datatype Mem = Mem(buckets: map<string, seq<Entry>>, profiles: map<string, Rec>)

  datatype Row = Row(drafts: seq<Rec>, profile: Option<Rec>)

  /** The staged_onboards table, by tenant. */
  type Db = map<string, Row>

  /** `ids` are the generated draft ids. */
  datatype Op =
    | Stage(tenant: string, listings: seq<Rec>, ids: seq<string>)
    | List(tenant: string)
    | Patch(tenant: string, id: string, changes: Rec)
    | Remove(tenant: string, id: string)
    | StageProfile(tenant: string, staged: Option<Rec>)
    | GetProfile(tenant: string)
    | Clear(only: Option<string>)

  datatype Answer =
    | Drafts(drafts: seq<Rec>)
    | Draft(draft: Option<Rec>)
    | Removed(ok: bool)
    | Profile(profile: Option<Rec>)
    | Done

  /** `{"id": generated, **item}` for each item. */
  function NewDrafts(listings: seq<Rec>, ids: seq<string>): (r: seq<Rec>)
    requires |ids| == |listings|
    ensures |r| == |listings|
  {
    seq(|listings|, i requires 0 <= i < |listings| => map[ID := Str(ids[i])] + listings[i])
  }

  /** The non-null changes over a draft. */
  function Patched(draft: Rec, changes: Rec): (r: Rec)
    ensures Get(changes, ID) == Null ==> Get(r, ID) == Get(draft, ID)
  {
    draft + (map k | k in changes && changes[k] != Null :: changes[k])
  }

  /** A staged draft has the item's fields, its own id included, and the generated id when it brings none; a patched
      one has the patch's values for what the patch sets to something, and its own for the rest. */
  lemma DraftsAre(listings: seq<Rec>, ids: seq<string>, i: nat, changes: Rec, field: string)
    requires |ids| == |listings| && i < |listings|
    ensures var item, draft := listings[i], NewDrafts(listings, ids)[i];
      && (field in draft <==> field in item || field == "id")
      && (field in item ==> draft[field] == item[field])
      && (field !in item && field == "id" ==> draft[field] == Str(ids[i]))
      && var patched := Patched(draft, changes);
         var sets := field in changes && changes[field] != Null;
         && (field in patched <==> field in draft || sets)
         && (field in patched ==> patched[field] == if sets then changes[field] else draft[field])
  {
  }

  // ---------------------------------------------------------------- in memory

  function Bucket(m: Mem, tenant: string): seq<Entry> {
    if tenant in m.buckets then m.buckets[tenant] else []
  }

  /** The position of a key, the length when absent. */
  function KeyIndex(b: seq<Entry>, key: Value): (i: nat)
    ensures i <= |b|
    ensures i < |b| ==> b[i].key == key
    ensures forall j :: 0 <= j < i ==> b[j].key != key
  {
    if b == [] then 0 else if b[0].key == key then 0 else 1 + KeyIndex(b[1..], key)
  }

  /** `bucket[key] = draft`: an existing key keeps its place. */
  function Put(b: seq<Entry>, draft: Rec): seq<Entry> {
    var i := KeyIndex(b, Get(draft, ID));
    if i < |b| then b[i := b[i].(draft := draft)] else b + [Entry(Get(draft, ID), draft)]
  }

  /** A dictionary write: the draft is found under its key, a key written before keeps its place, a new one goes to
      the end, and no other entry changes. */
  lemma PutIs(b: seq<Entry>, draft: Rec)
    ensures var r, id := Put(b, draft), Get(draft, ID);
      && |r| == |b| + (if exists j :: 0 <= j < |b| && b[j].key == id then 0 else 1)
      && (forall j :: 0 <= j < |b| ==> r[j].key == b[j].key && (b[j].key != id ==> r[j] == b[j]))
      && KeyIndex(r, id) < |r| && r[KeyIndex(r, id)].draft == draft
  {
    var r, id, i := Put(b, draft), Get(draft, ID), KeyIndex(b, Get(draft, ID));
    assert r[i].key == id && r[i].draft == draft;
    assert forall j :: 0 <= j < i ==> r[j].key != id;
    assert KeyIndex(r, id) == i;
  }

  function PutAll(b: seq<Entry>, drafts: seq<Rec>): seq<Entry> {
    if drafts == [] then b else Put(PutAll(b, drafts[..|drafts| - 1]), drafts[|drafts| - 1])
  }

  function DraftsOf(b: seq<Entry>): (r: seq<Rec>)
    ensures |r| == |b| && forall i :: 0 <= i < |b| ==> r[i] == b[i].draft
  {
    seq(|b|, i requires 0 <= i < |b| => b[i].draft)
  }

  function MemStep(m: Mem, op: Op): (Answer, Mem)
    requires op.Stage? ==> |op.ids| == |op.listings|
  {
    match op
    case Stage(t, listings, ids) =>
      var drafts := NewDrafts(listings, ids);
      (Drafts(drafts), m.(buckets := m.buckets[t := PutAll(Bucket(m, t), drafts)]))
    case List(t) => (Drafts(DraftsOf(Bucket(m, t))), m)
    case Patch(t, id, changes) =>
      var b := Bucket(m, t);
      var i := KeyIndex(b, Str(id));
      if i == |b| then (Draft(None), m)
      else
        var draft := Patched(b[i].draft, changes);
        (Draft(Some(draft)), m.(buckets := m.buckets[t := b[i := b[i].(draft := draft)]]))
    case Remove(t, id) =>
      var b := Bucket(m, t);
      var i := KeyIndex(b, Str(id));
      if i == |b| then (Removed(false), m)
      else (Removed(true), m.(buckets := m.buckets[t := b[..i] + b[i + 1..]]))
    case StageProfile(t, staged) =>
      if staged.None? || staged.value == map[] then (Done, m) else (Done, m.(profiles := m.profiles[t := staged.value]))
    case GetProfile(t) => (Profile(if t in m.profiles then Some(m.profiles[t]) else None), m)
    case Clear(only) =>
      (Done, match only
             case None => Mem(map[], map[])
             case Some(t) => Mem(m.buckets - {t}, m.profiles - {t}))
  }

  class InMemoryStagingStore {
    var buckets: map<string, seq<Entry>>
    var profiles: map<string, Rec>

    function View(): Mem
      reads this
    {
      Mem(buckets, profiles)
    }

    constructor ()
      ensures View() == Mem(map[], map[])
    {
      buckets, profiles := map[], map[];
    }

    method StageListings(t: string, listings: seq<Rec>, ids: seq<string>) returns (out: seq<Rec>)
      requires |ids| == |listings|
      modifies this
      ensures (Drafts(out), View()) == MemStep(old(View()), Stage(t, listings, ids))
    {
      var bucket := if t in buckets then buckets[t] else [];
      ghost var before := bucket;
      out := NewDrafts(listings, ids);
      for n := 0 to |out|
        invariant bucket == PutAll(before, out[..n])
      {
        assert out[..n + 1][..n] == out[..n];
        bucket := Put(bucket, out[n]);
      }
      assert out[..|out|] == out;
      buckets := buckets[t := bucket];
    }

    method PatchDraft(t: string, id: string, changes: Rec) returns (draft: Option<Rec>)
      modifies this
      ensures (Draft(draft), View()) == MemStep(old(View()), Patch(t, id, changes))
    {
      var bucket := if t in buckets then buckets[t] else [];
      var i := KeyIndex(bucket, Str(id));
      if i == |bucket| {
        return None;
      }
      draft := Some(Patched(bucket[i].draft, changes));
      buckets := buckets[t := bucket[i := bucket[i].(draft := draft.value)]];
    }

    method RemoveDraft(t: string, id: string) returns (ok: bool)
      modifies this
      ensures (Removed(ok), View()) == MemStep(old(View()), Remove(t, id))
    {
      var bucket := if t in buckets then buckets[t] else [];
      var i := KeyIndex(bucket, Str(id));
      ok := i < |bucket|;
      if ok {
        buckets := buckets[t := bucket[..i] + bucket[i + 1..]];
      }
    }

    method SaveProfile(t: string, staged: Option<Rec>)
      modifies this
      ensures (Done, View()) == MemStep(old(View()), StageProfile(t, staged))
    {
      if staged.Some? && staged.value != map[] {
        profiles := profiles[t := staged.value];
      }
    }

    method ClearAll(only: Option<string>)
      modifies this
      ensures (Done, View()) == MemStep(old(View()), Clear(only))
    {
      if only.None? {
        buckets, profiles := map[], map[];
      } else {
        buckets, profiles := buckets - {only.value}, profiles - {only.value};
      }
    }
  }

  // ---------------------------------------------------------------- one row per tenant

  function RowDrafts(db: Db, tenant: string): seq<Rec> {
    if tenant in db then db[tenant].drafts else []
  }

  function RowProfile(db: Db, tenant: string): Option<Rec> {
    if tenant in db then db[tenant].profile else None
  }

  /** `_append_or_create`. */
  function Append(db: Db, tenant: string, drafts: seq<Rec>): Db {
    if tenant in db then db[tenant := db[tenant].(drafts := db[tenant].drafts + drafts)]
    else db[tenant := Row(drafts, None)]
  }

  /** The position of the first draft with this id, the length when there is none. */
  function DraftIndex(drafts: seq<Rec>, id: string): (i: nat)
    ensures i <= |drafts|
    ensures i < |drafts| ==> Get(drafts[i], ID) == Str(id)
    ensures forall j :: 0 <= j < i ==> Get(drafts[j], ID) != Str(id)
  {
    if drafts == [] then 0 else if Get(drafts[0], ID) == Str(id) then 0 else 1 + DraftIndex(drafts[1..], id)
  }

  /** The drafts with another id. */
  function Others(drafts: seq<Rec>, id: string): (r: seq<Rec>)
    ensures |r| <= |drafts|
  {
    if drafts == [] then []
    else if Get(drafts[0], ID) == Str(id) then Others(drafts[1..], id)
    else [drafts[0]] + Others(drafts[1..], id)
  }

  function DbStep(db: Db, op: Op): (Answer, Db)
    requires op.Stage? ==> |op.ids| == |op.listings|
  {
    match op
    case Stage(t, listings, ids) => (Drafts(NewDrafts(listings, ids)), Append(db, t, NewDrafts(listings, ids)))
    case List(t) => (Drafts(RowDrafts(db, t)), db)
    case Patch(t, id, changes) =>
      var drafts := RowDrafts(db, t);
      var i := DraftIndex(drafts, id);
      if i == |drafts| then (Draft(None), db)
      else
        var draft := Patched(drafts[i], changes);
        (Draft(Some(draft)), db[t := db[t].(drafts := drafts[i := draft])])
    case Remove(t, id) =>
      var drafts := RowDrafts(db, t);
      var rest := Others(drafts, id);
      if |rest| == |drafts| then (Removed(false), db) else (Removed(true), db[t := db[t].(drafts := rest)])
    case StageProfile(t, staged) =>
      if staged.None? || staged.value == map[] then (Done, db)
      else (Done, db[t := Row(RowDrafts(db, t), staged)])
    case GetProfile(t) => (Profile(RowProfile(db, t)), db)
    case Clear(only) => (Done, match only case None => map[] case Some(t) => db - {t})
  }

  // ---------------------------------------------------------------- staging while others write

  /** How a commit ends: it goes through, it breaks the unique tenant, or it fails in another way. */
  datatype Outcome = Committed | Duplicate | Failed

  /** What a transaction does to the row it read, or to the new row it makes. */
  datatype Change = Extend(more: seq<Rec>) | Replace(drafts: seq<Rec>) | SetProfile(profile: Rec)

  function Applied(row: Row, change: Change): Row {
    match change
    case Extend(more) => row.(drafts := row.drafts + more)
    case Replace(drafts) => row.(drafts := drafts)
    case SetProfile(profile) => row.(profile := Some(profile))
  }

  /** Only the column the change is about is written. */
  function Written(now: Row, row: Row, change: Change): Row {
    if change.SetProfile? then now.(profile := row.profile) else now.(drafts := row.drafts)
  }

  /** Committing a change of the tenant's row as read in `read`, when the table is `now`. A row inserted since
      breaks the unique tenant. A change to an equal value writes nothing. Else a row deleted since leaves the
      update nothing to match, and a row changed since is overwritten, or refused by a database that serializes
      strictly. */
  function Commit(read: Db, now: Db, t: string, change: Change, strict: bool): (Outcome, Db) {
    if t !in read then
      if t in now then (Duplicate, now) else (Committed, now[t := Applied(Row([], None), change)])
    else
      var row := Applied(read[t], change);
      if row == read[t] then (Committed, now)
      else if t !in now || (strict && now[t] != read[t]) then (Failed, now)
      else (Committed, now[t := Written(now[t], row, change)])
  }

  /** The table other workers leave, if they write at all. */
  function Left(db: Db, meanwhile: Option<Db>): Db {
    if meanwhile.Some? then meanwhile.value else db
  }

  /** One attempt, with what other workers leave between its read and its commit. */
  function Attempt(db: Db, t: string, change: Change, meanwhile: Option<Db>, strict: bool): (Outcome, Db) {
    Commit(db, Left(db, meanwhile), t, change, strict)
  }

  /** `stage` and `stage_profile` try once more when they lose an insert race: whether the call returns, and the
      table it leaves. */
  function Raced(db: Db, t: string, change: Change, first: Option<Db>, second: Option<Db>, strict: bool): (bool, Db) {
    var (outcome, after) := Attempt(db, t, change, first, strict);
    if outcome == Duplicate then
      var (again, last) := Attempt(after, t, change, second, strict);
      (again == Committed, last)
    else (outcome == Committed, after)
  }

  /** `patch` and `remove` of a draft do not: their answer, if they return, and the table they leave. */
  function EditRaced(db: Db, op: Op, meanwhile: Option<Db>, strict: bool): (Option<Answer>, Db)
    requires op.Patch? || op.Remove?
  {
    var (answer, next) := DbStep(db, op);
    if op.tenant !in db then (Some(answer), Left(db, meanwhile))
    else
      var (outcome, after) := Attempt(db, op.tenant, Replace(RowDrafts(next, op.tenant)), meanwhile, strict);
      (if outcome == Committed then Some(answer) else None, after)
  }

  /** Undisturbed, each is the store's own step. */
  lemma UndisturbedStages(db: Db, t: string, listings: seq<Rec>, ids: seq<string>, strict: bool)
    requires |ids| == |listings|
    ensures Raced(db, t, Extend(NewDrafts(listings, ids)), None, None, strict) ==
            (true, DbStep(db, Stage(t, listings, ids)).1)
  {
    var more := NewDrafts(listings, ids);
    if t in db {
      assert db[t].drafts + [] == db[t].drafts && db[t := db[t]] == db;
    } else {
      assert [] + more == more;
    }
  }

  lemma UndisturbedProfiles(db: Db, t: string, staged: Rec, strict: bool)
    requires staged != map[]
    ensures Raced(db, t, SetProfile(staged), None, None, strict) == (true, DbStep(db, StageProfile(t, Some(staged))).1)
  {
    if t in db {
      assert db[t].(profile := Some(staged)) == Row(db[t].drafts, Some(staged));
      assert db[t := db[t]] == db;
    }
  }

  lemma UndisturbedEdits(db: Db, op: Op, strict: bool)
    requires op.Patch? || op.Remove?
    ensures EditRaced(db, op, None, strict) == (Some(DbStep(db, op).0), DbStep(db, op).1)
  {
    if op.tenant in db {
      var row, drafts := db[op.tenant], RowDrafts(DbStep(db, op).1, op.tenant);
      OthersDropsNone(row.drafts, op.id);
      assert row.(drafts := row.drafts) == row && db[op.tenant := row] == db;
    }
  }

  /** A lost insert race ends as if the other worker had staged first. */
  lemma LostInsertAppends(db: Db, t: string, drafts: seq<Rec>, other: seq<Rec>, strict: bool)
    requires t !in db
    ensures Raced(db, t, Extend(drafts), Some(Append(db, t, other)), None, strict) ==
            (true, Append(Append(db, t, other), t, drafts))
  {
    var now := Append(db, t, other);
    assert now[t] == Row(other, None) && now[t := now[t]] == now;
    if drafts == [] {
      assert other + drafts == other;
    }
  }

  ghost predicate Kept(drafts: seq<Rec>, all: seq<Rec>) {
    forall i :: 0 <= i < |drafts| ==> drafts[i] in all
  }

  /** Two workers stage for one tenant, the other's commit falling between this one's read and commit, with drafts
      of its own: unless the database refuses the later commit, the other's drafts survive exactly when the tenant
      had no row at the read or this worker stages nothing. Else they are overwritten, though both calls succeed. */
  lemma OtherStageKeptIff(db: Db, t: string, drafts: seq<Rec>, other: seq<Rec>, strict: bool)
    requires exists i :: 0 <= i < |other| && other[i] !in RowDrafts(db, t) && other[i] !in drafts
    ensures var (ok, after) := Raced(db, t, Extend(drafts), Some(Append(db, t, other)), None, strict);
      && (ok <==> t !in db || drafts == [] || !strict)
      && (Kept(other, RowDrafts(after, t)) <==> t !in db || drafts == [] || strict)
      && (Kept(drafts, RowDrafts(after, t)) || !ok)
  {
    var i :| 0 <= i < |other| && other[i] !in RowDrafts(db, t) && other[i] !in drafts;
    var now := Append(db, t, other);
    if t in db {
      var row := Applied(db[t], Extend(drafts));
      assert |row.drafts| == |db[t].drafts| + |drafts| && |now[t].drafts| == |db[t].drafts| + |other|;
      if drafts == [] {
        assert row == db[t] && RowDrafts(now, t) == db[t].drafts + other;
      } else if !strict {
        var after := Raced(db, t, Extend(drafts), Some(now), None, strict).1;
        assert RowDrafts(after, t) == RowDrafts(db, t) + drafts;
        assert other[i] !in RowDrafts(after, t);
      }
    } else {
      LostInsertAppends(db, t, drafts, other, strict);
      assert RowDrafts(Append(now, t, drafts), t) == other + drafts;
    }
  }

  /** The edit finds a draft under the id, and a patch changes it. */
  predicate Edits(drafts: seq<Rec>, op: Op)
    requires op.Patch? || op.Remove?
  {
    var i := DraftIndex(drafts, op.id);
    i < |drafts| && (op.Patch? ==> Patched(drafts[i], op.changes) != drafts[i])
  }

  lemma {:induction false} OthersDropsNone(drafts: seq<Rec>, id: string)
    ensures |Others(drafts, id)| == |drafts| <==> DraftIndex(drafts, id) == |drafts|
    ensures |Others(drafts, id)| == |drafts| ==> Others(drafts, id) == drafts
  {
    if drafts != [] {
      OthersDropsNone(drafts[1..], id);
    }
  }

  lemma EditsIff(db: Db, op: Op)
    requires (op.Patch? || op.Remove?) && op.tenant in db
    ensures RowDrafts(DbStep(db, op).1, op.tenant) != db[op.tenant].drafts <==> Edits(db[op.tenant].drafts, op)
  {
    var drafts := db[op.tenant].drafts;
    if op.Remove? {
      OthersDropsNone(drafts, op.id);
    } else {
      var i := DraftIndex(drafts, op.id);
      if i < |drafts| {
        assert drafts[i := Patched(drafts[i], op.changes)][i] == Patched(drafts[i], op.changes);
      }
    }
  }

  /** While one worker edits a draft of a row another commits to the same row. A draft the other wrote survives, and
      one the other took away stays away, exactly when the edit changed nothing or fails: because the other deleted
      the row, or because the database serializes strictly. */
  lemma OtherEditKeptIff(db: Db, op: Op, now: Db, strict: bool, x: Rec)
    requires (op.Patch? || op.Remove?) && op.tenant in db
    requires (x in RowDrafts(now, op.tenant)) != (x in RowDrafts(db, op.tenant))
    requires x in RowDrafts(db, op.tenant) <==> x in RowDrafts(DbStep(db, op).1, op.tenant)
    ensures var (answer, after) := EditRaced(db, op, Some(now), strict);
      && (answer.Some? <==> !Edits(db[op.tenant].drafts, op) || (!strict && op.tenant in now))
      && ((x in RowDrafts(after, op.tenant) <==> x in RowDrafts(now, op.tenant)) <==>
          !Edits(db[op.tenant].drafts, op) || strict || op.tenant !in now)
  {
    EditsIff(db, op);
  }

  /** A profile is written without touching anyone's drafts, whatever other workers do meanwhile; it is there after
      a call that returns, unless the row read had it already and nothing was written. */
  lemma ProfileKeepsDrafts(db: Db, t: string, staged: Rec, first: Option<Db>, second: Option<Db>, strict: bool)
    ensures var (ok, after) := Raced(db, t, SetProfile(staged), first, second, strict);
      var lost := t !in db && t in Left(db, first);
      var (read, last) := if lost then (Left(db, first), Left(Left(db, first), second)) else (db, Left(db, first));
      && RowDrafts(after, t) == RowDrafts(last, t)
      && (ok && RowProfile(read, t) != Some(staged) ==> RowProfile(after, t) == Some(staged))
  {
  }

  class DbStagingStore {
    var rows: Db

    constructor ()
      ensures rows == map[]
    {
      rows := map[];
    }

    /** `session.commit()` for a row read before. */
    method CommitRow(t: string, read: Row, change: Change, strict: bool) returns (outcome: Outcome)
      modifies this
      ensures forall db: Db :: t in db && db[t] == read ==> (outcome, rows) == Commit(db, old(rows), t, change, strict)
    {
      var row := Applied(read, change);
      if row == read {
        return Committed;
      }
      if t !in rows || (strict && rows[t] != read) {
        return Failed;
      }
      rows := rows[t := Written(rows[t], row, change)];
      return Committed;
    }

    /** `_append_or_create` and `_set_profile`: the row is read, other workers leave the table as `meanwhile` says,
        and what was read is committed with the change. */
    method CreateOrChange(t: string, change: Change, meanwhile: Option<Db>, strict: bool) returns (outcome: Outcome)
      modifies this
      ensures (outcome, rows) == Attempt(old(rows), t, change, meanwhile, strict)
    {
      var row := if t in rows then Some(rows[t]) else None;
      if meanwhile.Some? {
        rows := meanwhile.value;
      }
      if row.Some? {
        outcome := CommitRow(t, row.value, change, strict);
      } else if t in rows {
        return Duplicate;
      } else {
        rows := rows[t := Applied(Row([], None), change)];
        return Committed;
      }
    }

    /** `stage`: one more attempt after a lost insert race; no result is a raised error. */
    method StageListings(t: string, listings: seq<Rec>, ids: seq<string>, first: Option<Db>, second: Option<Db>,
                         strict: bool)
      returns (out: Option<seq<Rec>>)
      requires |ids| == |listings|
      modifies this
      ensures (out.Some?, rows) == Raced(old(rows), t, Extend(NewDrafts(listings, ids)), first, second, strict)
      ensures out.Some? ==> out.value == NewDrafts(listings, ids)
    {
      var drafts := NewDrafts(listings, ids);
      var outcome := CreateOrChange(t, Extend(drafts), first, strict);
      if outcome == Duplicate {
        outcome := CreateOrChange(t, Extend(drafts), second, strict);
      }
      out := if outcome == Committed then Some(drafts) else None;
    }

    /** `stage_profile`, likewise; an empty profile is ignored. */
    method SaveProfile(t: string, staged: Option<Rec>, first: Option<Db>, second: Option<Db>, strict: bool)
      returns (ok: bool)
      modifies this
      ensures if staged.None? || staged.value == map[] then ok && rows == old(rows)
              else (ok, rows) == Raced(old(rows), t, SetProfile(staged.value), first, second, strict)
    {
      if staged.None? || staged.value == map[] {
        return true;
      }
      var outcome := CreateOrChange(t, SetProfile(staged.value), first, strict);
      if outcome == Duplicate {
        outcome := CreateOrChange(t, SetProfile(staged.value), second, strict);
      }
      ok := outcome == Committed;
    }

    /** `patch`: the first draft with the id is replaced in the list as it was read. */
    method PatchDraft(t: string, id: string, changes: Rec, meanwhile: Option<Db>, strict: bool)
      returns (ok: bool, draft: Option<Rec>)
      modifies this
      ensures (if ok then Some(Draft(draft)) else None, rows) ==
              EditRaced(old(rows), Patch(t, id, changes), meanwhile, strict)
    {
      ok, draft := true, None;
      var row := if t in rows then Some(rows[t]) else None;
      if meanwhile.Some? {
        rows := meanwhile.value;
      }
      if row.None? {
        return;
      }
      var drafts := row.value.drafts;
      for i := 0 to |drafts|
        invariant draft.None? && drafts == row.value.drafts
        invariant forall j :: 0 <= j < i ==> Get(drafts[j], ID) != Str(id)
      {
        if Get(drafts[i], ID) == Str(id) {
          assert DraftIndex(drafts, id) == i;
          draft := Some(Patched(drafts[i], changes));
          drafts := drafts[i := draft.value];
          break;
        }
      }
      if draft.None? {
        return;
      }
      var outcome := CommitRow(t, row.value, Replace(drafts), strict);
      ok := outcome == Committed;
    }

    /** `remove`: every draft with the id is left out of the list as it was read. */
    method RemoveDraft(t: string, id: string, meanwhile: Option<Db>, strict: bool) returns (ok: bool, removed: bool)
      modifies this
      ensures (if ok then Some(Removed(removed)) else None, rows) ==
              EditRaced(old(rows), Remove(t, id), meanwhile, strict)
    {
      var row := if t in rows then Some(rows[t]) else None;
      if meanwhile.Some? {
        rows := meanwhile.value;
      }
      if row.None? {
        return true, false;
      }
      var drafts := Others(row.value.drafts, id);
      if |drafts| == |row.value.drafts| {
        return true, false;
      }
      var outcome := CommitRow(t, row.value, Replace(drafts), strict);
      ok, removed := outcome == Committed, true;
    }

    method ClearAll(only: Option<string>)
      modifies this
      ensures (Done, rows) == DbStep(old(rows), Clear(only))
    {
      rows := if only.None? then map[] else rows - {only.value};
    }
  }
}

/** When the two stores cannot be told apart. */
module StagingEquality {
  import opened Prelude
  import opened Grouping
  import opened Staging

  predicate UniqueKeys(b: seq<Entry>) {
    forall i, j :: 0 <= i < j < |b| ==> b[i].key != b[j].key
  }

  predicate KeyedById(b: seq<Entry>) {
    forall i :: 0 <= i < |b| ==> b[i].key == Get(b[i].draft, ID)
  }

  /** One tenant's bucket and list of drafts hold the same, under the drafts' own, distinct ids. */
  ghost predicate SameDrafts(b: seq<Entry>, drafts: seq<Rec>) {
    UniqueKeys(b) && KeyedById(b) && DraftsOf(b) == drafts
  }

  ghost predicate Related(m: Mem, db: Db) {
    forall t :: SameDrafts(Bucket(m, t), RowDrafts(db, t)) &&
      RowProfile(db, t) == (if t in m.profiles then Some(m.profiles[t]) else None)
  }

  /** Generated ids are new to the bucket and distinct, items carry no id of their own, and a patch
      leaves the id alone. */
  ghost predicate Admissible(m: Mem, op: Op) {
    match op
    case Stage(t, listings, ids) => |ids| == |listings| && NewIds(Bucket(m, t), listings, ids)
    case Patch(_, id, changes) => Get(changes, ID) in {Null, Str(id)}
    case _ => true
  }

  ghost predicate NewIds(b: seq<Entry>, listings: seq<Rec>, ids: seq<string>) {
    (forall i :: 0 <= i < |listings| ==> ID !in listings[i]) &&
    (forall i, j :: 0 <= i < j < |ids| ==> ids[i] != ids[j]) &&
    (forall i, k :: 0 <= i < |ids| && 0 <= k < |b| ==> b[k].key != Str(ids[i]))
  }

  lemma SameIndex(b: seq<Entry>, drafts: seq<Rec>, id: string)
    requires KeyedById(b) && DraftsOf(b) == drafts
    ensures KeyIndex(b, Str(id)) == DraftIndex(drafts, id)
  {
    assert forall k :: 0 <= k < |b| ==> b[k].key == Get(drafts[k], ID);
  }

  lemma PutNew(p: seq<Entry>, draft: Rec, id: string)
    requires Get(draft, ID) == Str(id) && UniqueKeys(p) && KeyedById(p)
    requires forall k :: 0 <= k < |p| ==> p[k].key != Str(id)
    ensures Put(p, draft) == p + [Entry(Str(id), draft)]
    ensures UniqueKeys(p + [Entry(Str(id), draft)]) && KeyedById(p + [Entry(Str(id), draft)])
  {
  }

  /** The bucket `p` is `b` with the first `n` new drafts behind it. */
  ghost predicate Appended(p: seq<Entry>, b: seq<Entry>, drafts: seq<Rec>, ids: seq<string>, n: nat)
    requires n <= |ids| == |drafts|
  {
    && |p| == |b| + n
    && (forall k :: 0 <= k < |b| ==> p[k] == b[k])
    && (forall k :: |b| <= k < |p| ==> p[k] == Entry(Str(ids[k - |b|]), drafts[k - |b|]))
  }

  lemma NotYet(p: seq<Entry>, b: seq<Entry>, drafts: seq<Rec>, listings: seq<Rec>, ids: seq<string>, n: nat)
    requires n < |ids| == |drafts| && NewIds(b, listings, ids) && Appended(p, b, drafts, ids, n)
    ensures forall k :: 0 <= k < |p| ==> p[k].key != Str(ids[n])
  {
    forall k | 0 <= k < |p| ensures p[k].key != Str(ids[n]) {
      assert p[k] == if k < |b| then b[k] else Entry(Str(ids[k - |b|]), drafts[k - |b|]);
    }
  }

  lemma {:induction false} PutAllAppends(b: seq<Entry>, listings: seq<Rec>, ids: seq<string>, n: nat)
    requires |ids| == |listings| && NewIds(b, listings, ids) && UniqueKeys(b) && KeyedById(b) && n <= |ids|
    ensures var p := PutAll(b, NewDrafts(listings, ids)[..n]);
      UniqueKeys(p) && KeyedById(p) && Appended(p, b, NewDrafts(listings, ids), ids, n)
  {
    var drafts := NewDrafts(listings, ids);
    if n > 0 {
      PutAllAppends(b, listings, ids, n - 1);
      var p := PutAll(b, drafts[..n - 1]);
      assert drafts[..n][..n - 1] == drafts[..n - 1];
      assert Get(drafts[n - 1], ID) == Str(ids[n - 1]);
      NotYet(p, b, drafts, listings, ids, n - 1);
      PutNew(p, drafts[n - 1], ids[n - 1]);
    }
  }

  lemma StageSame(b: seq<Entry>, drafts: seq<Rec>, listings: seq<Rec>, ids: seq<string>)
    requires |ids| == |listings| && NewIds(b, listings, ids) && SameDrafts(b, drafts)
    ensures SameDrafts(PutAll(b, NewDrafts(listings, ids)), drafts + NewDrafts(listings, ids))
  {
    var all := NewDrafts(listings, ids);
    PutAllAppends(b, listings, ids, |ids|);
    assert all[..|ids|] == all;
    var p := PutAll(b, all);
    forall i | 0 <= i < |p|
      ensures DraftsOf(p)[i] == (drafts + all)[i]
    {
      assert p[i] == if i < |b| then b[i] else Entry(Str(ids[i - |b|]), all[i - |b|]);
    }
  }

  lemma PatchSame(b: seq<Entry>, drafts: seq<Rec>, i: nat, changes: Rec)
    requires SameDrafts(b, drafts) && i < |b| && b[i].key.Str? && Get(changes, ID) in {Null, b[i].key}
    ensures SameDrafts(b[i := b[i].(draft := Patched(b[i].draft, changes))], drafts[i := Patched(drafts[i], changes)])
  {
    var next := b[i := b[i].(draft := Patched(b[i].draft, changes))];
    assert Get(next[i].draft, ID) == next[i].key;
  }

  lemma {:induction false} OthersDropsOne(drafts: seq<Rec>, id: string)
    requires forall i, j :: 0 <= i < j < |drafts| ==> Get(drafts[i], ID) != Get(drafts[j], ID)
    ensures var i := DraftIndex(drafts, id);
      Others(drafts, id) == if i == |drafts| then drafts else drafts[..i] + drafts[i + 1..]
  {
    if drafts != [] {
      OthersDropsOne(drafts[1..], id);
      if Get(drafts[0], ID) == Str(id) {
        assert forall i :: 0 <= i < |drafts[1..]| ==> drafts[1..][i] == drafts[i + 1];
        assert DraftIndex(drafts[1..], id) == |drafts[1..]|;
      } else {
        var i := DraftIndex(drafts[1..], id);
        assert [drafts[0]] + drafts[1..] == drafts;
        if i < |drafts[1..]| {
          assert [drafts[0]] + (drafts[1..][..i] + drafts[1..][i + 1..]) == drafts[..i + 1] + drafts[i + 2..];
        }
      }
    }
  }

  lemma DistinctIds(b: seq<Entry>, drafts: seq<Rec>)
    requires SameDrafts(b, drafts)
    ensures forall i, j :: 0 <= i < j < |drafts| ==> Get(drafts[i], ID) != Get(drafts[j], ID)
  {
    forall j, k | 0 <= j < k < |drafts|
      ensures Get(drafts[j], ID) != Get(drafts[k], ID)
    {
      assert b[j].key != b[k].key;
    }
  }

  lemma CutSame(b: seq<Entry>, drafts: seq<Rec>, i: nat)
    requires SameDrafts(b, drafts) && i < |b|
    ensures SameDrafts(b[..i] + b[i + 1..], drafts[..i] + drafts[i + 1..])
  {
    var cut := b[..i] + b[i + 1..];
    assert forall k :: 0 <= k < |cut| ==> cut[k] == if k < i then b[k] else b[k + 1];
  }

  lemma RemoveSame(b: seq<Entry>, drafts: seq<Rec>, id: string)
    requires SameDrafts(b, drafts)
    ensures var i := KeyIndex(b, Str(id));
      (i == |b| <==> |Others(drafts, id)| == |drafts|) &&
      (i < |b| ==> SameDrafts(b[..i] + b[i + 1..], Others(drafts, id)))
  {
    SameIndex(b, drafts, id);
    DistinctIds(b, drafts);
    OthersDropsOne(drafts, id);
    if KeyIndex(b, Str(id)) < |b| {
      CutSame(b, drafts, KeyIndex(b, Str(id)));
    }
  }

  /** Changing one tenant's drafts alike on both sides. */
  lemma UpdateRelated(m: Mem, db: Db, t: string, b: seq<Entry>, drafts: seq<Rec>, next: Db)
    requires Related(m, db) && SameDrafts(b, drafts)
    requires next == db[t := Row(drafts, RowProfile(db, t))]
    ensures Related(m.(buckets := m.buckets[t := b]), next)
  {
    var m' := m.(buckets := m.buckets[t := b]);
    forall u
      ensures SameDrafts(Bucket(m', u), RowDrafts(next, u)) &&
        RowProfile(next, u) == (if u in m'.profiles then Some(m'.profiles[u]) else None)
    {
      assert SameDrafts(Bucket(m, u), RowDrafts(db, u)) &&
        RowProfile(db, u) == (if u in m.profiles then Some(m.profiles[u]) else None);
    }
  }

  ghost predicate Agrees(m: Mem, db: Db, op: Op)
    requires op.Stage? ==> |op.ids| == |op.listings|
  {
    MemStep(m, op).0 == DbStep(db, op).0 && Related(MemStep(m, op).1, DbStep(db, op).1)
  }

  lemma AppendIsUpdate(db: Db, t: string, all: seq<Rec>)
    ensures Append(db, t, all) == db[t := Row(RowDrafts(db, t) + all, RowProfile(db, t))]
  {
    assert [] + all == all;
  }

  lemma StageAgrees(m: Mem, db: Db, t: string, listings: seq<Rec>, ids: seq<string>)
    requires Related(m, db) && |ids| == |listings| && NewIds(Bucket(m, t), listings, ids)
    ensures Agrees(m, db, Stage(t, listings, ids))
  {
    var all := NewDrafts(listings, ids);
    var b, drafts := PutAll(Bucket(m, t), all), RowDrafts(db, t) + all;
    assert SameDrafts(b, drafts) by {
      assert SameDrafts(Bucket(m, t), RowDrafts(db, t));
      StageSame(Bucket(m, t), RowDrafts(db, t), listings, ids);
    }
    AppendIsUpdate(db, t, all);
    UpdateRelated(m, db, t, b, drafts, Append(db, t, all));
  }

  lemma PatchAgrees(m: Mem, db: Db, t: string, id: string, changes: Rec)
    requires Related(m, db) && Admissible(m, Patch(t, id, changes))
    ensures Agrees(m, db, Patch(t, id, changes))
  {
    var b, drafts := Bucket(m, t), RowDrafts(db, t);
    assert SameDrafts(b, drafts);
    SameIndex(b, drafts, id);
    var i := KeyIndex(b, Str(id));
    if i < |b| {
      PatchSame(b, drafts, i, changes);
      UpdateRelated(m, db, t, b[i := b[i].(draft := Patched(b[i].draft, changes))],
                    drafts[i := Patched(drafts[i], changes)], DbStep(db, Patch(t, id, changes)).1);
    }
  }

  lemma RemoveAgrees(m: Mem, db: Db, t: string, id: string)
    requires Related(m, db)
    ensures Agrees(m, db, Remove(t, id))
  {
    var b, drafts := Bucket(m, t), RowDrafts(db, t);
    assert SameDrafts(b, drafts);
    RemoveSame(b, drafts, id);
    var i := KeyIndex(b, Str(id));
    if i < |b| {
      UpdateRelated(m, db, t, b[..i] + b[i + 1..], Others(drafts, id), DbStep(db, Remove(t, id)).1);
    }
  }

  /** An admissible operation gets the same answer from related stores and leaves them related. */
  lemma StepAgrees(m: Mem, db: Db, op: Op)
    requires Related(m, db) && Admissible(m, op)
    ensures Agrees(m, db, op)
  {
    match op
    case Stage(t, listings, ids) => StageAgrees(m, db, t, listings, ids);
    case Patch(t, id, changes) => PatchAgrees(m, db, t, id, changes);
    case Remove(t, id) => RemoveAgrees(m, db, t, id);
    case StageProfile(_, _) => ProfileAgrees(m, db, op);
    case Clear(_) => ClearAgrees(m, db, op);
    case List(t) => assert SameDrafts(Bucket(m, t), RowDrafts(db, t));
    case GetProfile(t) => assert SameDrafts(Bucket(m, t), RowDrafts(db, t));
  }

  lemma ProfileAgrees(m: Mem, db: Db, op: Op)
    requires Related(m, db) && op.StageProfile?
    ensures Related(MemStep(m, op).1, DbStep(db, op).1)
  {
    var m', db' := MemStep(m, op).1, DbStep(db, op).1;
    forall u
      ensures SameDrafts(Bucket(m', u), RowDrafts(db', u)) &&
        RowProfile(db', u) == (if u in m'.profiles then Some(m'.profiles[u]) else None)
    {
      assert SameDrafts(Bucket(m, u), RowDrafts(db, u)) &&
        RowProfile(db, u) == (if u in m.profiles then Some(m.profiles[u]) else None);
    }
  }

  lemma ClearAgrees(m: Mem, db: Db, op: Op)
    requires Related(m, db) && op.Clear?
    ensures Related(MemStep(m, op).1, DbStep(db, op).1)
  {
    var m', db' := MemStep(m, op).1, DbStep(db, op).1;
    assert SameDrafts([], []);
    forall u
      ensures SameDrafts(Bucket(m', u), RowDrafts(db', u)) &&
        RowProfile(db', u) == (if u in m'.profiles then Some(m'.profiles[u]) else None)
    {
      assert SameDrafts(Bucket(m, u), RowDrafts(db, u)) &&
        RowProfile(db, u) == (if u in m.profiles then Some(m.profiles[u]) else None);
    }
  }

  // ---------------------------------------------------------------- whole runs

  /** The ids generated so far. */
  function Generated(ops: seq<Op>): set<string> {
    if ops == [] then {}
    else
      var op := ops[|ops| - 1];
      Generated(ops[..|ops| - 1]) + (if op.Stage? then set i | 0 <= i < |op.ids| :: op.ids[i] else {})
  }

  /** Every generated id is new, no item brings an id, and no patch touches one. */
  ghost predicate FreshRun(ops: seq<Op>) {
    ops == [] ||
    (var before, op := ops[..|ops| - 1], ops[|ops| - 1];
     FreshRun(before) &&
     match op
     case Stage(_, listings, ids) =>
       |ids| == |listings| && (forall i :: 0 <= i < |listings| ==> ID !in listings[i]) &&
       (forall i, j :: 0 <= i < j < |ids| ==> ids[i] != ids[j]) &&
       (forall i :: 0 <= i < |ids| ==> ids[i] !in Generated(before))
     case Patch(_, _, changes) => Get(changes, ID) == Null
     case _ => true)
  }

  function MemRun(ops: seq<Op>): (seq<Answer>, Mem)
    requires FreshRun(ops)
  {
    if ops == [] then ([], Mem(map[], map[]))
    else
      var (answers, m) := MemRun(ops[..|ops| - 1]);
      var (answer, next) := MemStep(m, ops[|ops| - 1]);
      (answers + [answer], next)
  }

  function DbRun(ops: seq<Op>): (seq<Answer>, Db)
    requires FreshRun(ops)
  {
    if ops == [] then ([], map[])
    else
      var (answers, db) := DbRun(ops[..|ops| - 1]);
      var (answer, next) := DbStep(db, ops[|ops| - 1]);
      (answers + [answer], next)
  }

  /** All keys in the store were generated. */
  ghost predicate KeysFrom(m: Mem, used: set<string>) {
    forall t :: t in m.buckets ==> BucketFrom(m.buckets[t], used)
  }

  predicate KeyFrom(e: Entry, used: set<string>) {
    e.key.Str? && e.key.s in used
  }

  ghost predicate BucketFrom(b: seq<Entry>, used: set<string>) {
    forall i :: 0 <= i < |b| ==> KeyFrom(b[i], used)
  }

  lemma StagedFrom(b: seq<Entry>, listings: seq<Rec>, ids: seq<string>, used: set<string>, more: set<string>)
    requires |ids| == |listings| && NewIds(b, listings, ids) && UniqueKeys(b) && KeyedById(b) && BucketFrom(b, used)
    requires used <= more && forall i :: 0 <= i < |ids| ==> ids[i] in more
    ensures BucketFrom(PutAll(b, NewDrafts(listings, ids)), more)
  {
    var all := NewDrafts(listings, ids);
    PutAllAppends(b, listings, ids, |ids|);
    assert all[..|ids|] == all;
    var p := PutAll(b, all);
    forall i | 0 <= i < |p| ensures KeyFrom(p[i], more) {
      assert p[i] == if i < |b| then b[i] else Entry(Str(ids[i - |b|]), all[i - |b|]);
    }
  }

  lemma StepKeysFrom(m: Mem, op: Op, used: set<string>, more: set<string>)
    requires KeysFrom(m, used) && Admissible(m, op) && used <= more
    requires op.Stage? ==> UniqueKeys(Bucket(m, op.tenant)) && KeyedById(Bucket(m, op.tenant))
    requires op.Stage? ==> forall i :: 0 <= i < |op.ids| ==> op.ids[i] in more
    ensures KeysFrom(MemStep(m, op).1, more)
  {
    if op.Stage? {
      StagedFrom(Bucket(m, op.tenant), op.listings, op.ids, used, more);
    }
    var next := MemStep(m, op).1;
    forall t | t in next.buckets ensures BucketFrom(next.buckets[t], more) {
      if t in m.buckets {
        assert BucketFrom(m.buckets[t], used);
      }
    }
  }

  lemma {:induction false} RunAgrees(ops: seq<Op>)
    requires FreshRun(ops)
    ensures MemRun(ops).0 == DbRun(ops).0 && Related(MemRun(ops).1, DbRun(ops).1)
    ensures KeysFrom(MemRun(ops).1, Generated(ops))
  {
    if ops == [] {
      assert SameDrafts([], []);
    } else {
      var before, op := ops[..|ops| - 1], ops[|ops| - 1];
      RunAgrees(before);
      var m := MemRun(before).1;
      if op.Stage? {
        assert SameDrafts(Bucket(m, op.tenant), RowDrafts(DbRun(before).1, op.tenant));
        forall i, k | 0 <= i < |op.ids| && 0 <= k < |Bucket(m, op.tenant)|
          ensures Bucket(m, op.tenant)[k].key != Str(op.ids[i])
        {
          assert KeyFrom(m.buckets[op.tenant][k], Generated(before));
        }
      }
      StepAgrees(m, DbRun(before).1, op);
      StepKeysFrom(m, op, Generated(before), Generated(ops));
    }
  }

  /** For every sequence of operations over any tenants, with fresh draft ids and patches that leave
      the id alone, the two stores answer every operation alike. */
  lemma StoresAgree(ops: seq<Op>)
    requires FreshRun(ops)
    ensures MemRun(ops).0 == DbRun(ops).0
  {
    RunAgrees(ops);
  }

  /** A patched id leaves the bucket's key behind, and no draft under the old id. */
  lemma IdPatchParts(b: seq<Entry>, drafts: seq<Rec>, id: string, changes: Rec)
    requires SameDrafts(b, drafts) && KeyIndex(b, Str(id)) < |b| && Get(changes, ID) !in {Null, Str(id)}
    ensures var i := KeyIndex(b, Str(id));
      var b', drafts' := b[i := b[i].(draft := Patched(b[i].draft, changes))], drafts[i := Patched(drafts[i], changes)];
      !KeyedById(b') && KeyIndex(b', Str(id)) < |b'| && Others(drafts', id) == drafts'
  {
    var i := KeyIndex(b, Str(id));
    var b', drafts' := b[i := b[i].(draft := Patched(b[i].draft, changes))], drafts[i := Patched(drafts[i], changes)];
    assert b'[i].key == Str(id) && Get(b'[i].draft, ID) == Get(changes, ID);
    assert KeyIndex(b', Str(id)) <= i;
    forall j | 0 <= j < |drafts'| ensures Get(drafts'[j], ID) != Str(id) {
      if j != i {
        assert b[j].key != b[i].key;
      }
    }
    OthersAll(drafts', id);
  }

  lemma MemPatched(m: Mem, t: string, id: string, changes: Rec)
    requires KeyIndex(Bucket(m, t), Str(id)) < |Bucket(m, t)|
    ensures var b, i := Bucket(m, t), KeyIndex(Bucket(m, t), Str(id));
      Bucket(MemStep(m, Patch(t, id, changes)).1, t) == b[i := b[i].(draft := Patched(b[i].draft, changes))]
  {
  }

  lemma DbPatched(db: Db, t: string, id: string, changes: Rec)
    requires DraftIndex(RowDrafts(db, t), id) < |RowDrafts(db, t)|
    ensures var drafts, i := RowDrafts(db, t), DraftIndex(RowDrafts(db, t), id);
      RowDrafts(DbStep(db, Patch(t, id, changes)).1, t) == drafts[i := Patched(drafts[i], changes)]
  {
  }

  lemma IdPatchUnrelates(m: Mem, db: Db, t: string, id: string, changes: Rec)
    requires Related(m, db) && KeyIndex(Bucket(m, t), Str(id)) < |Bucket(m, t)| && Get(changes, ID) !in {Null, Str(id)}
    ensures !Related(MemStep(m, Patch(t, id, changes)).1, DbStep(db, Patch(t, id, changes)).1)
  {
    var m', db' := MemStep(m, Patch(t, id, changes)).1, DbStep(db, Patch(t, id, changes)).1;
    assert SameDrafts(Bucket(m, t), RowDrafts(db, t));
    IdPatchParts(Bucket(m, t), RowDrafts(db, t), id, changes);
    MemPatched(m, t, id, changes);
    assert !SameDrafts(Bucket(m', t), RowDrafts(db', t));
  }

  lemma OldIdInMemory(m: Mem, db: Db, t: string, id: string, changes: Rec)
    requires Related(m, db) && KeyIndex(Bucket(m, t), Str(id)) < |Bucket(m, t)| && Get(changes, ID) !in {Null, Str(id)}
    ensures MemStep(MemStep(m, Patch(t, id, changes)).1, Remove(t, id)).0 == Removed(true)
  {
    assert SameDrafts(Bucket(m, t), RowDrafts(db, t));
    IdPatchParts(Bucket(m, t), RowDrafts(db, t), id, changes);
    MemPatched(m, t, id, changes);
  }

  lemma OldIdInRow(m: Mem, db: Db, t: string, id: string, changes: Rec)
    requires Related(m, db) && KeyIndex(Bucket(m, t), Str(id)) < |Bucket(m, t)| && Get(changes, ID) !in {Null, Str(id)}
    ensures DbStep(DbStep(db, Patch(t, id, changes)).1, Remove(t, id)).0 == Removed(false)
  {
    assert SameDrafts(Bucket(m, t), RowDrafts(db, t));
    SameIndex(Bucket(m, t), RowDrafts(db, t), id);
    IdPatchParts(Bucket(m, t), RowDrafts(db, t), id, changes);
    DbPatched(db, t, id, changes);
  }

  /** The fields the listings endpoint lets a patch set. */
  const PATCH_FIELDS: set<string> :=
    {"code", "address", "price", "beds", "baths", "sqft", "description", "image_url", "area"}

  /** No patch from the endpoint can tell the stores apart: its schema has no id to set. */
  lemma EndpointPatchAgrees(m: Mem, db: Db, t: string, id: string, changes: Rec)
    requires Related(m, db) && changes.Keys <= PATCH_FIELDS
    ensures Get(changes, ID) == Null && Agrees(m, db, Patch(t, id, changes))
  {
    assert ID !in PATCH_FIELDS by {
      assert |ID| == 2 && forall f :: f in PATCH_FIELDS ==> |f| > 2;
    }
    PatchAgrees(m, db, t, id, changes);
  }

  /** A direct caller of the stores could: a patch of an existing draft leaves them related exactly when it sets no
      other id; otherwise removing the old id succeeds in one store and fails in the other. */
  lemma PatchKeepsRelatedIff(m: Mem, db: Db, t: string, id: string, changes: Rec)
    requires Related(m, db) && KeyIndex(Bucket(m, t), Str(id)) < |Bucket(m, t)|
    ensures var patch := Patch(t, id, changes);
      var m', db' := MemStep(m, patch).1, DbStep(db, patch).1;
      (Related(m', db') <==> Get(changes, ID) in {Null, Str(id)}) &&
      (Get(changes, ID) !in {Null, Str(id)} ==>
        MemStep(m', Remove(t, id)).0 == Removed(true) && DbStep(db', Remove(t, id)).0 == Removed(false))
  {
    if Get(changes, ID) in {Null, Str(id)} {
      StepAgrees(m, db, Patch(t, id, changes));
    } else {
      IdPatchUnrelates(m, db, t, id, changes);
      OldIdInMemory(m, db, t, id, changes);
      OldIdInRow(m, db, t, id, changes);
    }
  }

  lemma {:induction false} OthersAll(drafts: seq<Rec>, id: string)
    requires forall j :: 0 <= j < |drafts| ==> Get(drafts[j], ID) != Str(id)
    ensures Others(drafts, id) == drafts
  {
    if drafts != [] {
      OthersAll(drafts[1..], id);
    }
  }
}
