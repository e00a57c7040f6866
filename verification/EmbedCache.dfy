/**
 The embedding cache: an ordered dictionary under a lock that is released during the network call.
 Any number of lookups run concurrently; each is a locked lookup, an unlocked request and a locked
 insert, and inserts may come late, twice or never. The cache must still be the most recently touched
 distinct keys of the log of touches.
 */
module EmbedCache {
  import opened Prelude
  import opened Text

  /** The digest of a model name and a text. */
  datatype Key = Key(digest: string)

  type Vec = seq<real>

  datatype Entry = Entry(key: Key, vec: Vec)

  const LIMIT := 1024

  // ---------------------------------------------------------------- recency lists

  function Remove(s: seq<Key>, k: Key): (r: seq<Key>)
    ensures |r| <= |s|
  {
    if s == [] then []
    else if s[|s| - 1] == k then Remove(s[..|s| - 1], k)
    else Remove(s[..|s| - 1], k) + [s[|s| - 1]]
  }

  /** The distinct keys of a touch log, least recently touched first. */
  function Recency(log: seq<Key>): seq<Key> {
    if log == [] then [] else Remove(Recency(log[..|log| - 1]), log[|log| - 1]) + [log[|log| - 1]]
  }

  /** The last `n` elements, all of them if there are fewer. */
  function LastN(s: seq<Key>, n: nat): (r: seq<Key>)
    ensures |r| == if |s| <= n then |s| else n
  {
    if |s| <= n then s else s[|s| - n..]
  }

  predicate Unique(s: seq<Key>) {
    forall i, j :: 0 <= i < j < |s| ==> s[i] != s[j]
  }

  lemma {:induction false} RemoveMembers(s: seq<Key>, k: Key, x: Key)
    ensures x in Remove(s, k) <==> x in s && x != k
  {
    if s != [] {
      RemoveMembers(s[..|s| - 1], k, x);
      assert s == s[..|s| - 1] + [s[|s| - 1]];
    }
  }

  lemma {:induction false} RemoveAbsent(s: seq<Key>, k: Key)
    requires k !in s
    ensures Remove(s, k) == s
  {
    if s != [] {
      RemoveAbsent(s[..|s| - 1], k);
    }
  }

  lemma {:induction false} RemoveUnique(s: seq<Key>, k: Key)
    requires Unique(s)
    ensures Unique(Remove(s, k))
    ensures |Remove(s, k)| == if k in s then |s| - 1 else |s|
  {
    if s != [] {
      var front, last := s[..|s| - 1], s[|s| - 1];
      assert s == front + [last];
      RemoveUnique(front, k);
      if last == k {
        assert k !in front;
      } else {
        RemoveMembers(front, k, last);
      }
    }
  }

  lemma {:induction false} RecencyMembers(log: seq<Key>, x: Key)
    ensures x in Recency(log) <==> x in log
  {
    if log != [] {
      var before, last := log[..|log| - 1], log[|log| - 1];
      RecencyMembers(before, x);
      RemoveMembers(Recency(before), last, x);
      assert log == before + [last];
    }
  }

  lemma {:induction false} RecencyUnique(log: seq<Key>)
    ensures Unique(Recency(log))
  {
    if log != [] {
      var before, last := log[..|log| - 1], log[|log| - 1];
      RecencyUnique(before);
      RemoveUnique(Recency(before), last);
      RemoveMembers(Recency(before), last, last);
    }
  }

  lemma {:induction false} RemoveConcat(a: seq<Key>, b: seq<Key>, k: Key)
    ensures Remove(a + b, k) == Remove(a, k) + Remove(b, k)
  {
    if b == [] {
      assert a + b == a;
    } else {
      RemoveConcat(a, b[..|b| - 1], k);
      assert (a + b)[..|a + b| - 1] == a + b[..|b| - 1];
    }
  }

  lemma SplitLast(s: seq<Key>, n: nat)
    requires Unique(s)
    ensures var kept := LastN(s, n); var older := s[..|s| - |kept|];
      s == older + kept && Unique(kept) && Unique(older) && (forall k :: k in kept ==> k !in older)
  {
    var m := |s| - |LastN(s, n)|;
    assert LastN(s, n) == s[m..];
    HalvesApart(s, m);
  }

  lemma HalvesApart(s: seq<Key>, m: nat)
    requires Unique(s) && m <= |s|
    ensures s == s[..m] + s[m..] && Unique(s[m..]) && Unique(s[..m]) && (forall k :: k in s[m..] ==> k !in s[..m])
  {
    forall i, j | 0 <= i < |s| - m && 0 <= j < m
      ensures s[m..][i] != s[..m][j]
    {
      assert s[m..][i] == s[m + i] && s[..m][j] == s[j];
    }
  }

  /** Touching a key of the last `n` reorders them and admits no older key. */
  lemma TouchKept(s: seq<Key>, n: nat, k: Key)
    requires Unique(s) && k in LastN(s, n)
    ensures LastN(Remove(s, k) + [k], n) == Remove(LastN(s, n), k) + [k]
  {
    if |s| <= n {
      TouchKeptAll(s, n, k);
    } else {
      var older, kept := s[..|s| - n], LastN(s, n);
      SplitLast(s, n);
      RemoveUnique(kept, k);
      TouchKeptFull(older, kept, k);
    }
  }

  lemma TouchKeptAll(s: seq<Key>, n: nat, k: Key)
    requires Unique(s) && |s| <= n && k in s
    ensures LastN(Remove(s, k) + [k], n) == Remove(s, k) + [k]
  {
    RemoveUnique(s, k);
  }

  lemma TouchKeptFull(older: seq<Key>, kept: seq<Key>, k: Key)
    requires k !in older && |Remove(kept, k)| == |kept| - 1
    ensures LastN(Remove(older + kept, k) + [k], |kept|) == Remove(kept, k) + [k]
  {
    RemoveConcat(older, kept, k);
    RemoveAbsent(older, k);
    assert Remove(older + kept, k) + [k] == older + (Remove(kept, k) + [k]);
    LastOfConcat(older, Remove(kept, k) + [k], |kept|);
  }

  lemma LastOfConcat(a: seq<Key>, b: seq<Key>, n: nat)
    requires |b| == n || (a == [] && |b| <= n)
    ensures LastN(a + b, n) == b
  {
  }

  lemma LastOfLast(a: seq<Key>, b: seq<Key>, n: nat)
    requires |b| >= n || a == []
    ensures LastN(a + b, n) == LastN(b, n)
  {
    if |b| > n {
      assert (a + b)[|a + b| - n..] == b[|b| - n..];
    } else if a == [] {
      assert a + b == b;
    }
  }

  /** Touching any other key drops the oldest when the list is full. */
  lemma TouchNew(s: seq<Key>, n: nat, k: Key)
    requires Unique(s) && k !in LastN(s, n)
    ensures LastN(Remove(s, k) + [k], n) == LastN(LastN(s, n) + [k], n)
  {
    var kept := LastN(s, n);
    SplitLast(s, n);
    TouchNewFull(s[..|s| - |kept|], kept, k, n);
  }

  lemma TouchNewFull(older: seq<Key>, kept: seq<Key>, k: Key, n: nat)
    requires k !in kept && (|kept| == n || older == [])
    ensures LastN(Remove(older + kept, k) + [k], n) == LastN(kept + [k], n)
  {
    RemoveConcat(older, kept, k);
    RemoveAbsent(kept, k);
    assert Remove(older + kept, k) + [k] == Remove(older, k) + (kept + [k]);
    LastOfLast(Remove(older, k), kept + [k], n);
  }

  // ---------------------------------------------------------------- an independent reading

  /** The keys touched after the last touch of `k`. */
  function TouchedSince(log: seq<Key>, k: Key): set<Key> {
    if log == [] || log[|log| - 1] == k then {}
    else TouchedSince(log[..|log| - 1], k) + {log[|log| - 1]}
  }

  function Elements(s: seq<Key>): set<Key> {
    set i | 0 <= i < |s| :: s[i]
  }

  lemma ElementsIn(s: seq<Key>, x: Key)
    ensures x in Elements(s) <==> x in s
  {
  }

  lemma RecencySplit(log: seq<Key>, last: Key, f: seq<Key>, k: Key, b: seq<Key>)
    requires Recency(log) == f + [k] + b && k != last
    ensures Recency(log + [last]) == Remove(f, last) + [k] + (Remove(b, last) + [last])
  {
    assert (log + [last])[..|log|] == log;
    RemoveConcat(f + [k], b, last);
    RemoveConcat(f, [k], last);
    assert Remove([k], last) == [k];
  }

  lemma SplitAt(s: seq<Key>, i: nat)
    requires i < |s|
    ensures s == s[..i] + [s[i]] + s[i + 1..]
  {
  }

  lemma BehindStep(b: seq<Key>, last: Key)
    ensures Elements(Remove(b, last) + [last]) == Elements(b) + {last}
  {
    forall x
      ensures x in Elements(Remove(b, last) + [last]) <==> x in Elements(b) + {last}
    {
      ElementsIn(Remove(b, last) + [last], x);
      ElementsIn(b, x);
      RemoveMembers(b, last, x);
    }
  }

  /** Where a key stands in the recency list. */
  lemma PlaceOf(log: seq<Key>, k: Key) returns (f: seq<Key>, b: seq<Key>)
    requires k in log
    ensures Recency(log) == f + [k] + b
  {
    RecencyMembers(log, k);
    var j :| 0 <= j < |Recency(log)| && Recency(log)[j] == k;
    SplitAt(Recency(log), j);
    f, b := Recency(log)[..j], Recency(log)[j + 1..];
  }

  /** Touching another key puts it behind `k`. */
  lemma NextBehind(before: seq<Key>, last: Key, f: seq<Key>, k: Key, b: seq<Key>, front: seq<Key>, behind: seq<Key>)
    requires k != last && Recency(before) == f + [k] + b && Recency(before + [last]) == front + [k] + behind
    ensures Elements(behind) == Elements(b) + {last}
  {
    RecencyUnique(before + [last]);
    RecencySplit(before, last, f, k, b);
    SamePlace(Recency(before + [last]), front, behind, Remove(f, last), Remove(b, last) + [last], k);
    BehindStep(b, last);
  }

  /** In the recency list, the keys behind `k` are exactly those touched since `k`. */
  lemma {:induction false} BehindIsTouchedSince(log: seq<Key>, front: seq<Key>, k: Key, behind: seq<Key>)
    requires Recency(log) == front + [k] + behind
    ensures Elements(behind) == TouchedSince(log, k)
  {
    assert log != [];
    var before, last := log[..|log| - 1], log[|log| - 1];
    assert log == before + [last];
    if k == last {
      RecencyUnique(log);
      SamePlace(Recency(log), front, behind, Remove(Recency(before), last), [], k);
    } else {
      assert k in Recency(log) by {
        assert Recency(log)[|front|] == k;
      }
      RecencyMembers(log, k);
      var f, b := PlaceOf(before, k);
      BehindIsTouchedSince(before, f, k, b);
      NextBehind(before, last, f, k, b, front, behind);
    }
  }

  /** A key has one place in a list without repetitions. */
  lemma SamePlace(s: seq<Key>, a: seq<Key>, b: seq<Key>, c: seq<Key>, d: seq<Key>, k: Key)
    requires Unique(s) && s == a + [k] + b && s == c + [k] + d
    ensures a == c && b == d
  {
    assert s[|a|] == k && s[|c|] == k;
    assert |a| == |c|;
    assert a == s[..|a|] && b == s[|a| + 1..];
  }

  lemma {:induction false} UniqueCount(s: seq<Key>)
    requires Unique(s)
    ensures |Elements(s)| == |s|
  {
    if s != [] {
      var front := s[..|s| - 1];
      UniqueCount(front);
      assert Elements(s) == Elements(front) + {s[|s| - 1]};
      assert s[|s| - 1] !in Elements(front);
    }
  }

  lemma InLast(s: seq<Key>, n: nat, i: nat)
    requires Unique(s) && i < |s|
    ensures s[i] in LastN(s, n) <==> |s| - i <= n
  {
    if |s| > n && i >= |s| - n {
      assert s[|s| - n..][i - (|s| - n)] == s[i];
    }
  }

  lemma CountSince(log: seq<Key>, i: nat)
    requires i < |Recency(log)|
    ensures |TouchedSince(log, Recency(log)[i])| == |Recency(log)| - 1 - i
  {
    RecencyUnique(log);
    SplitAt(Recency(log), i);
    BehindIsTouchedSince(log, Recency(log)[..i], Recency(log)[i], Recency(log)[i + 1..]);
    UniqueCount(Recency(log)[i + 1..]);
  }

  /** A key is among the `n` most recently touched distinct keys exactly when it was touched and fewer
      than `n` other keys were touched since. */
  lemma RecentIff(log: seq<Key>, n: nat, k: Key)
    ensures k in LastN(Recency(log), n) <==> k in log && |TouchedSince(log, k)| < n
  {
    RecencyUnique(log);
    RecencyMembers(log, k);
    if k in Recency(log) {
      var i :| 0 <= i < |Recency(log)| && Recency(log)[i] == k;
      CountSince(log, i);
      InLast(Recency(log), n, i);
    }
  }

  // ---------------------------------------------------------------- the ordered dictionary

  function Keys(entries: seq<Entry>): (r: seq<Key>)
    ensures |r| == |entries|
  {
    seq(|entries|, i requires 0 <= i < |entries| => entries[i].key)
  }

  function Find(entries: seq<Entry>, k: Key): (r: Option<Vec>)
    ensures r.Some? ==> Entry(k, r.value) in entries
    ensures r.Some? <==> k in Keys(entries)
  {
    if entries == [] then None
    else
      var last := entries[|entries| - 1];
      assert Keys(entries) == Keys(entries[..|entries| - 1]) + [last.key];
      if last.key == k then Some(last.vec) else Find(entries[..|entries| - 1], k)
  }

  function RemoveEntry(entries: seq<Entry>, k: Key): (r: seq<Entry>)
    ensures Keys(r) == Remove(Keys(entries), k)
    ensures forall e :: e in r ==> e in entries
  {
    if entries == [] then []
    else
      var front, last := entries[..|entries| - 1], entries[|entries| - 1];
      assert Keys(entries)[..|entries| - 1] == Keys(front);
      assert Keys(RemoveEntry(front, k) + [last]) == Keys(RemoveEntry(front, k)) + [last.key];
      if last.key == k then RemoveEntry(front, k) else RemoveEntry(front, k) + [last]
  }

  /** Setting a key and moving it to the end. */
  function Refresh(entries: seq<Entry>, k: Key, v: Vec): seq<Entry> {
    RemoveEntry(entries, k) + [Entry(k, v)]
  }

  function Evict(entries: seq<Entry>): seq<Entry> {
    if |entries| <= LIMIT then entries else entries[|entries| - LIMIT..]
  }

  lemma RefreshKeys(entries: seq<Entry>, k: Key, v: Vec)
    ensures Keys(Refresh(entries, k, v)) == Remove(Keys(entries), k) + [k]
  {
  }

  lemma EvictKeys(entries: seq<Entry>)
    ensures Keys(Evict(entries)) == LastN(Keys(entries), LIMIT)
  {
  }

  /** The cache holds exactly the most recently touched distinct keys, in order of last touch. */
  ghost predicate Recent(entries: seq<Entry>, touched: seq<Key>) {
    Keys(entries) == LastN(Recency(touched), LIMIT)
  }

  lemma HitKeepsRecent(entries: seq<Entry>, touched: seq<Key>, k: Key, v: Vec)
    requires Recent(entries, touched) && k in Keys(entries)
    ensures Recent(Refresh(entries, k, v), touched + [k])
  {
    RecencyUnique(touched);
    RefreshKeys(entries, k, v);
    assert (touched + [k])[..|touched|] == touched;
    TouchKept(Recency(touched), LIMIT, k);
  }

  lemma InsertKeepsRecent(entries: seq<Entry>, touched: seq<Key>, k: Key, v: Vec)
    requires Recent(entries, touched)
    ensures Recent(Evict(Refresh(entries, k, v)), touched + [k])
  {
    RecencyUnique(touched);
    RefreshKeys(entries, k, v);
    EvictKeys(Refresh(entries, k, v));
    assert (touched + [k])[..|touched|] == touched;
    if k in Keys(entries) {
      TouchKept(Recency(touched), LIMIT, k);
      LastBounds(Recency(touched + [k]));
    } else {
      TouchNew(Recency(touched), LIMIT, k);
      RemoveAbsent(Keys(entries), k);
    }
  }

  lemma LastBounds(s: seq<Key>)
    ensures LastN(LastN(s, LIMIT), LIMIT) == LastN(s, LIMIT)
  {
  }

  /** The cache behind the lock: each method is one critical section. */
  class Cache {
    var entries: seq<Entry>
    ghost var touched: seq<Key>

    constructor ()
      ensures entries == [] && touched == [] && Recent(entries, touched)
    {
      entries, touched := [], [];
    }

    method Lookup(k: Key) returns (hit: Option<Vec>)
      requires Recent(entries, touched)
      modifies this
      ensures Recent(entries, touched) && hit == Find(old(entries), k)
      ensures hit.Some? ==> entries == Refresh(old(entries), k, hit.value) && touched == old(touched) + [k]
      ensures hit.None? ==> entries == old(entries) && touched == old(touched)
    {
      hit := Find(entries, k);
      if hit.Some? {
        HitKeepsRecent(entries, touched, k, hit.value);
        entries := Refresh(entries, k, hit.value);
        touched := touched + [k];
      }
    }

    method Insert(k: Key, v: Vec)
      requires Recent(entries, touched)
      modifies this
      ensures Recent(entries, touched) && touched == old(touched) + [k]
      ensures entries == Evict(Refresh(old(entries), k, v)) && |entries| <= LIMIT
    {
      InsertKeepsRecent(entries, touched, k, v);
      entries := Refresh(entries, k, v);
      touched := touched + [k];
      while |entries| > LIMIT
        invariant touched == old(touched) + [k] && Evict(entries) == Evict(Refresh(old(entries), k, v))
      {
        entries := entries[1..];
      }
    }
  }

  // ---------------------------------------------------------------- concurrent lookups

  /** One `_embed` call asks, and either hits or waits for the service; the service replies or fails. */
  datatype Action = Ask(pid: nat, text: string) | Reply(pid: nat) | Fail(pid: nat)

  datatype Returned = Returned(text: string, vec: Vec)

  /** `touched` is the history of touches, `returned` of answers. */
  datatype State = State(entries: seq<Entry>, touched: seq<Key>, waiting: map<nat, string>, returned: seq<Returned>)

  const INIT := State([], [], map[], [])

  function Step(s: State, a: Action, digest: string -> Key, embed: string -> Vec): State {
    match a
    case Ask(pid, text) =>
      if pid in s.waiting || Strip(text) == "" then s
      else
        var k := digest(text);
        (match Find(s.entries, k)
         case Some(v) =>
           State(Refresh(s.entries, k, v), s.touched + [k], s.waiting, s.returned + [Returned(text, v)])
         case None => s.(waiting := s.waiting[pid := text]))
    case Reply(pid) =>
      if pid !in s.waiting then s
      else
        var text := s.waiting[pid];
        var k, v := digest(text), embed(text);
        State(Evict(Refresh(s.entries, k, v)), s.touched + [k], s.waiting - {pid}, s.returned + [Returned(text, v)])
    case Fail(pid) => s.(waiting := s.waiting - {pid})
  }

  function Exec(acts: seq<Action>, digest: string -> Key, embed: string -> Vec): State {
    if acts == [] then INIT else Step(Exec(acts[..|acts| - 1], digest, embed), acts[|acts| - 1], digest, embed)
  }

  ghost predicate Embeds(e: Entry, digest: string -> Key, embed: string -> Vec) {
    exists text :: digest(text) == e.key && embed(text) == e.vec
  }

  ghost predicate Inv(s: State, digest: string -> Key, embed: string -> Vec) {
    Recent(s.entries, s.touched) &&
    (forall i :: 0 <= i < |s.entries| ==> Embeds(s.entries[i], digest, embed)) &&
    (forall i :: 0 <= i < |s.returned| ==> s.returned[i].vec == embed(s.returned[i].text))
  }

  /** No two texts have the same digest. */
  ghost predicate Injective(digest: string -> Key) {
    forall s, t :: digest(s) == digest(t) ==> s == t
  }

  lemma RefreshEmbeds(entries: seq<Entry>, text: string, digest: string -> Key, embed: string -> Vec)
    requires forall i :: 0 <= i < |entries| ==> Embeds(entries[i], digest, embed)
    ensures var r := Refresh(entries, digest(text), embed(text));
      (forall i :: 0 <= i < |r| ==> Embeds(r[i], digest, embed)) &&
      (forall i :: 0 <= i < |Evict(r)| ==> Embeds(Evict(r)[i], digest, embed))
  {
    var r := Refresh(entries, digest(text), embed(text));
    forall i | 0 <= i < |r|
      ensures Embeds(r[i], digest, embed)
    {
      if i < |r| - 1 {
        assert RemoveEntry(entries, digest(text))[i] in entries;
      }
    }
  }

  lemma StepKeeps(s: State, a: Action, digest: string -> Key, embed: string -> Vec)
    requires Injective(digest) && Inv(s, digest, embed)
    ensures Inv(Step(s, a, digest, embed), digest, embed)
  {
    if a.Ask? && a.pid !in s.waiting && Strip(a.text) != "" {
      var k := digest(a.text);
      var hit := Find(s.entries, k);
      if hit.Some? {
        assert Embeds(Entry(k, hit.value), digest, embed);
        assert hit.value == embed(a.text);
        HitKeepsRecent(s.entries, s.touched, k, hit.value);
        RefreshEmbeds(s.entries, a.text, digest, embed);
      }
    } else if a.Reply? && a.pid in s.waiting {
      var text := s.waiting[a.pid];
      InsertKeepsRecent(s.entries, s.touched, digest(text), embed(text));
      RefreshEmbeds(s.entries, text, digest, embed);
    }
  }

  lemma {:induction false} ExecKeeps(acts: seq<Action>, digest: string -> Key, embed: string -> Vec)
    requires Injective(digest)
    ensures Inv(Exec(acts, digest, embed), digest, embed)
  {
    if acts != [] {
      ExecKeeps(acts[..|acts| - 1], digest, embed);
      StepKeeps(Exec(acts[..|acts| - 1], digest, embed), acts[|acts| - 1], digest, embed);
    }
  }

  // ---------------------------------------------------------------- the log read off the actions

  /** The key was touched, and fewer than 1024 other keys were since. */
  predicate Fresh(log: seq<Key>, k: Key) {
    k in log && |TouchedSince(log, k)| < 1024
  }

  /** What the actions alone say was touched, and who waits for which text: a lookup of non-blank text by an idle
      caller touches its key when the key is fresh and waits otherwise; every reply to a waiting caller touches. */
  datatype Reading = Reading(touched: seq<Key>, waiting: map<nat, string>)

  function Next(r: Reading, a: Action, digest: string -> Key): Reading {
    match a
    case Ask(pid, text) =>
      if pid in r.waiting || AllBlank(text) then r
      else if Fresh(r.touched, digest(text)) then r.(touched := r.touched + [digest(text)])
      else r.(waiting := r.waiting[pid := text])
    case Reply(pid) =>
      if pid in r.waiting then Reading(r.touched + [digest(r.waiting[pid])], r.waiting - {pid}) else r
    case Fail(pid) => r.(waiting := r.waiting - {pid})
  }

  function ReadOff(acts: seq<Action>, digest: string -> Key): Reading {
    if acts == [] then Reading([], map[]) else Next(ReadOff(acts[..|acts| - 1], digest), acts[|acts| - 1], digest)
  }

  lemma HitIffFresh(entries: seq<Entry>, touched: seq<Key>, k: Key)
    requires Recent(entries, touched)
    ensures Find(entries, k).Some? <==> Fresh(touched, k)
  {
    RecentIff(touched, LIMIT, k);
  }

  /** The touches and the waiting callers are those the actions say. */
  lemma {:induction false} TouchedIsReadOff(acts: seq<Action>, digest: string -> Key, embed: string -> Vec)
    requires Injective(digest)
    ensures var s, r := Exec(acts, digest, embed), ReadOff(acts, digest);
      s.touched == r.touched && s.waiting == r.waiting
  {
    if acts != [] {
      var before, a := acts[..|acts| - 1], acts[|acts| - 1];
      TouchedIsReadOff(before, digest, embed);
      ExecKeeps(before, digest, embed);
      if a.Ask? {
        BlankStrips(a.text);
        var s := Exec(before, digest, embed);
        HitIffFresh(s.entries, s.touched, digest(a.text));
      }
    }
  }

  /** For every interleaving of lookups and late inserts, the cached keys in recency order are the 1024 most recently
      touched distinct keys of the log read off the actions; so a key is cached exactly when fewer than 1024 other
      keys were touched since its last touch, and eviction is least recently used. */
  lemma CacheIsTheRecentKeys(acts: seq<Action>, digest: string -> Key, embed: string -> Vec, k: Key)
    requires Injective(digest)
    ensures var s, log := Exec(acts, digest, embed), ReadOff(acts, digest).touched;
      Keys(s.entries) == LastN(Recency(log), 1024) && |s.entries| <= 1024 &&
      (k in Keys(s.entries) <==> k in log && |TouchedSince(log, k)| < 1024)
  {
    ExecKeeps(acts, digest, embed);
    TouchedIsReadOff(acts, digest, embed);
    RecentIff(Exec(acts, digest, embed).touched, LIMIT, k);
  }

  // ---------------------------------------------------------------- the steps, over the cache object

  /** The locked lookup of an idle caller is the step machine's. */
  method AskCache(cache: Cache, pid: nat, text: string, digest: string -> Key, ghost embed: string -> Vec,
                  ghost s: State)
    returns (hit: Option<Vec>)
    requires Recent(cache.entries, cache.touched) && pid !in s.waiting && Strip(text) != ""
    requires s.entries == cache.entries && s.touched == cache.touched
    modifies cache
    ensures var t := Step(s, Ask(pid, text), digest, embed);
      && Recent(cache.entries, cache.touched) && cache.entries == t.entries && cache.touched == t.touched
      && t.waiting == (if hit.None? then s.waiting[pid := text] else s.waiting)
      && t.returned == (if hit.Some? then s.returned + [Returned(text, hit.value)] else s.returned)
  {
    hit := cache.Lookup(digest(text));
  }

  /** So is the locked insert of a caller the service has replied to. */
  method ReplyToCache(cache: Cache, pid: nat, text: string, vec: Vec, digest: string -> Key,
                      ghost embed: string -> Vec, ghost s: State)
    requires Recent(cache.entries, cache.touched) && pid in s.waiting && s.waiting[pid] == text && vec == embed(text)
    requires s.entries == cache.entries && s.touched == cache.touched
    modifies cache
    ensures var t := Step(s, Reply(pid), digest, embed);
      && Recent(cache.entries, cache.touched) && cache.entries == t.entries && cache.touched == t.touched
      && t.returned == s.returned + [Returned(text, vec)] && t.waiting == s.waiting - {pid}
  {
    cache.Insert(digest(text), vec);
  }

  /** Every vector any lookup returns, cached or not, is the embedding of the text it asked for. */
  lemma ReturnedVectorsAreRight(acts: seq<Action>, digest: string -> Key, embed: string -> Vec, i: nat)
    requires Injective(digest) && i < |Exec(acts, digest, embed).returned|
    ensures var r := Exec(acts, digest, embed).returned[i]; r.vec == embed(r.text)
  {
    ExecKeeps(acts, digest, embed);
  }
}
