/**
 The voice agent's side of booking: per-call state shared by the three specialists, the guards of the
 scheduling tool, and any number of calls talking to one booking backend. A timed-out booking request
 may still be running at the backend when the tool is called again.
 */
module Calls {
  import opened Prelude
  import opened Text
  import B = Booking

  /** A booking attempt past the slot guard, waiting for the catalog; `catalog` is what the call had cached. */
  datatype Attempt = Attempt(code: string, start: string, email: string, phone: string, catalog: Option<seq<B.Listing>>)

  /** What the per-call context remembers between tool calls and across handoffs, and the attempts under way. */
  datatype Ctx = Ctx(
    tenant: string,
    active: string,
    offered: set<string>,
    key: Option<string>,
    phone: Option<string>,
    catalog: Option<seq<B.Listing>>,
    pending: map<nat, Attempt>)

  datatype World = World(calls: map<nat, Ctx>, backend: B.State)

  /** The slots of one day; an absent or empty id is not offered. */
  type Day = seq<Option<string>>

  datatype Event =
    | Dial(cid: nat, tenant: string, callerPhone: Option<string>)
    | Handoff(cid: nat, to: string)
    | Capture(cid: nat, leadPhone: Option<string>)
    | Availability(cid: nat, answer: Option<seq<Day>>)
    | Attempted(cid: nat, aid: nat, code: string, start: string, email: string, phone: string)
    | Resumed(cid: nat, aid: nat, pid: nat, fetched: Option<seq<B.Listing>>, newKey: string)
    | Backend(action: B.Action)

  const INIT := World(map[], B.INIT)

  function Slots(days: seq<Day>): set<string> {
    set d, s | d in days && s in d && Truthy(s) :: s.value
  }

  // ---------------------------------------------------------------- the scheduling tool

  predicate HasCode(h: B.Listing, needle: string) {
    needle != "" && Lower(h.code) == needle
  }

  predicate HasAddress(h: B.Listing, needle: string) {
    needle != "" && Contains(if h.address.Some? then Lower(h.address.value) else "", needle)
  }

  /** The first home with the code, or with the fragment in its address. */
  ghost predicate IsFirst(catalog: seq<B.Listing>, needle: string, byCode: bool, i: nat) {
    && i < |catalog| && (if byCode then HasCode(catalog[i], needle) else HasAddress(catalog[i], needle))
    && forall j :: 0 <= j < i ==> !if byCode then HasCode(catalog[j], needle) else HasAddress(catalog[j], needle)
  }

  lemma FirstBehind(catalog: seq<B.Listing>, needle: string, byCode: bool)
    requires catalog != [] && !if byCode then HasCode(catalog[0], needle) else HasAddress(catalog[0], needle)
    ensures forall i: nat :: IsFirst(catalog[1..], needle, byCode, i) ==> IsFirst(catalog, needle, byCode, i + 1)
  {
    forall i: nat | IsFirst(catalog[1..], needle, byCode, i) ensures IsFirst(catalog, needle, byCode, i + 1) {
      assert forall j :: 0 < j <= i ==> catalog[j] == catalog[1..][j - 1];
    }
  }

  function FirstByCode(catalog: seq<B.Listing>, needle: string): (r: Option<B.Listing>)
    ensures r.Some? ==> exists i: nat :: IsFirst(catalog, needle, true, i) && r.value == catalog[i]
    ensures r.None? ==> forall i :: 0 <= i < |catalog| ==> !HasCode(catalog[i], needle)
  {
    if catalog == [] then None
    else if needle != "" && needle == Lower(catalog[0].code) then
      assert IsFirst(catalog, needle, true, 0);
      Some(catalog[0])
    else
      var r := FirstByCode(catalog[1..], needle);
      FirstBehind(catalog, needle, true);
      r
  }

  function FirstByAddress(catalog: seq<B.Listing>, needle: string): (r: Option<B.Listing>)
    ensures r.Some? ==> exists i: nat :: IsFirst(catalog, needle, false, i) && r.value == catalog[i]
    ensures r.None? ==> forall i :: 0 <= i < |catalog| ==> !HasAddress(catalog[i], needle)
  {
    if catalog == [] then None
    else if needle != "" && Contains(Lower(OrEmpty(catalog[0].address)), needle) then
      assert IsFirst(catalog, needle, false, 0);
      Some(catalog[0])
    else
      var r := FirstByAddress(catalog[1..], needle);
      FirstBehind(catalog, needle, false);
      r
  }

  /** `_find_listing`: a home by code, else by a fragment of its address. */
  function FindHome(catalog: seq<B.Listing>, home: string): Option<B.Listing> {
    var needle := Lower(Strip(home));
    match FirstByCode(catalog, needle)
    case Some(h) => Some(h)
    case None => FirstByAddress(catalog, needle)
  }

  /** `ensure_catalog`: the cached catalog, else the fetched one; a failed fetch is an empty catalog. */
  function Catalog(a: Attempt, fetched: Option<seq<B.Listing>>): seq<B.Listing> {
    if a.catalog.Some? then a.catalog.value else if fetched.Some? then fetched.value else []
  }

  /** The home guard: a home the agent can match. */
  predicate Admits(a: Attempt, fetched: Option<seq<B.Listing>>) {
    FindHome(Catalog(a, fetched), a.code).Some?
  }

  /** The first half of `book_showing`: the slot guard, up to the catalog. */
  function Begin(c: Ctx, aid: nat, a: Attempt): Ctx {
    if aid in c.pending || a.start !in c.offered then c else c.(pending := c.pending[aid := a])
  }

  /** The second half, up to the request: a fetch that succeeded is remembered, a failed one is not. */
  function Prepare(c: Ctx, aid: nat, fetched: Option<seq<B.Listing>>, newKey: string): Ctx
    requires aid in c.pending
  {
    var a := c.pending[aid];
    var c1 := c.(pending := c.pending - {aid},
                 catalog := if a.catalog.None? && fetched.Some? then fetched else c.catalog);
    if !Admits(a, fetched) then c1
    else
      var c2 := if a.phone != "" then c1.(phone := Some(a.phone)) else c1;
      if c.key.None? then c2.(key := Some(newKey)) else c2
  }

  /** The request the tool sends. */
  function RequestOf(c: Ctx, a: Attempt, fetched: Option<seq<B.Listing>>, newKey: string): B.Request
    requires Admits(a, fetched)
  {
    B.Request(if c.key.Some? then c.key.value else newKey, c.tenant, Some(a.code),
              FindHome(Catalog(a, fetched), a.code).value.address, a.start, a.email,
              if a.phone != "" then Some(a.phone) else if Truthy(c.phone) then c.phone else Some(""))
  }

  /** A generated key is new: no call and no request in the system uses it. */
  predicate Unused(w: World, key: string) {
    (forall cid :: cid in w.calls ==> w.calls[cid].key != Some(key)) &&
    (forall pid :: pid in w.backend.procs ==> w.backend.procs[pid].req.key != key)
  }

  function Step(w: World, e: Event): World {
    match e
    case Dial(cid, tenant, phone) =>
      if cid in w.calls then w
      else w.(calls := w.calls[cid := Ctx(tenant, "concierge", {}, None, phone, None, map[])])
    case Handoff(cid, to) =>
      if cid !in w.calls then w else w.(calls := w.calls[cid := w.calls[cid].(active := to)])
    case Capture(cid, phone) =>
      if cid !in w.calls || !Truthy(phone) then w
      else w.(calls := w.calls[cid := w.calls[cid].(phone := phone)])
    case Availability(cid, answer) =>
      if cid !in w.calls || answer.None? || answer.value == [] then w
      else w.(calls := w.calls[cid := w.calls[cid].(offered := Slots(answer.value))])
    case Attempted(cid, aid, code, start, email, phone) =>
      if cid !in w.calls then w
      else
        var a := Attempt(code, start, email, phone, w.calls[cid].catalog);
        w.(calls := w.calls[cid := Begin(w.calls[cid], aid, a)])
    case Resumed(cid, aid, pid, fetched, newKey) =>
      if cid !in w.calls || aid !in w.calls[cid].pending || pid in w.backend.procs || !Unused(w, newKey) then w
      else
        var c := w.calls[cid];
        World(w.calls[cid := Prepare(c, aid, fetched, newKey)],
              if Admits(c.pending[aid], fetched)
              then B.Step(w.backend, B.Arrive(pid, RequestOf(c, c.pending[aid], fetched, newKey))) else w.backend)
    case Backend(action) =>
      if action.Arrive? then w else w.(backend := B.Step(w.backend, action))
  }

  function Exec(es: seq<Event>): World {
    if es == [] then INIT else Step(Exec(es[..|es| - 1]), es[|es| - 1])
  }

  // ---------------------------------------------------------------- what a call's history says

  /** The slots of the latest non-empty availability answer of a call. */
  function LatestOffer(es: seq<Event>, cid: nat): set<string> {
    if es == [] then {}
    else
      var e := es[|es| - 1];
      if e.Availability? && e.cid == cid && e.answer.Some? && e.answer.value != [] &&
         cid in Exec(es[..|es| - 1]).calls
      then Slots(e.answer.value)
      else LatestOffer(es[..|es| - 1], cid)
  }

  /** Some slot of some day has this id, which is not empty. */
  ghost predicate InDays(days: seq<Day>, start: string) {
    start != "" && exists i, j :: 0 <= i < |days| && 0 <= j < |days[i]| && days[i][j] == Some(start)
  }

  /** The slots offered are the non-empty ids of all days. */
  lemma SlotsIff(days: seq<Day>, start: string)
    ensures start in Slots(days) <==> InDays(days, start)
  {
    if InDays(days, start) {
      var i, j :| 0 <= i < |days| && 0 <= j < |days[i]| && days[i][j] == Some(start);
      assert days[i] in days && days[i][j] in days[i];
    }
  }

  ghost predicate Dialed(es: seq<Event>, cid: nat) {
    exists d :: 0 <= d < |es| && es[d].Dial? && es[d].cid == cid
  }

  /** A non-empty availability answer to the call. */
  predicate Answers(e: Event, cid: nat) {
    e.Availability? && e.cid == cid && e.answer.Some? && |e.answer.value| > 0
  }

  /** Event `k` is the call's latest non-empty availability answer. */
  ghost predicate IsLatestAnswer(es: seq<Event>, cid: nat, k: int) {
    && 0 <= k < |es| && Answers(es[k], cid) && Dialed(es[..k], cid)
    && forall l :: k < l < |es| ==> !Answers(es[l], cid)
  }

  /** The call's latest non-empty availability answer has the slot. */
  ghost predicate Offered(es: seq<Event>, cid: nat, start: string) {
    exists k :: IsLatestAnswer(es, cid, k) && InDays(es[k].answer.value, start)
  }

  lemma {:induction false} DialedIff(es: seq<Event>, cid: nat)
    ensures cid in Exec(es).calls <==> Dialed(es, cid)
  {
    if es != [] {
      var before, e := es[..|es| - 1], es[|es| - 1];
      DialedIff(before, cid);
      assert forall d :: 0 <= d < |before| ==> es[d] == before[d];
      if e.Dial? && e.cid == cid {
        assert es[|es| - 1].Dial?;
      }
    }
  }

  lemma LatestAnswerSnoc(es: seq<Event>, e: Event, cid: nat, k: int)
    ensures IsLatestAnswer(es + [e], cid, k) <==>
            if Answers(e, cid) then k == |es| && Dialed(es, cid) else IsLatestAnswer(es, cid, k)
  {
    var all := es + [e];
    assert all[|es|] == e && all[..|es|] == es;
    assert forall l :: 0 <= l < |es| ==> all[l] == es[l] && all[..l] == es[..l];
  }

  /** The slots a call holds are those of its latest non-empty answer. */
  lemma {:induction false} LatestOfferIff(es: seq<Event>, cid: nat, start: string)
    ensures start in LatestOffer(es, cid) <==> Offered(es, cid, start)
  {
    if es != [] {
      var before, e := es[..|es| - 1], es[|es| - 1];
      assert es == before + [e];
      LatestOfferIff(before, cid, start);
      DialedIff(before, cid);
      forall k ensures IsLatestAnswer(es, cid, k) <==>
                       if Answers(e, cid) then k == |before| && Dialed(before, cid) else IsLatestAnswer(before, cid, k)
      {
        LatestAnswerSnoc(before, e, cid, k);
      }
      if Answers(e, cid) {
        SlotsIff(e.answer.value, start);
        if !Dialed(before, cid) {
          NoAnswerBeforeDial(before, cid, start);
        }
      }
    }
  }

  lemma NoAnswerBeforeDial(es: seq<Event>, cid: nat, start: string)
    requires !Dialed(es, cid)
    ensures !Offered(es, cid, start)
  {
    forall k | 0 <= k < |es| ensures !Dialed(es[..k], cid) {
      assert forall d :: 0 <= d < k ==> es[..k][d] == es[d];
    }
  }

  /** Event `n` of the run is an attempt of call `cid` past the slot guard: its slot was in the latest availability
      answer the call had at that moment. */
  ghost predicate GuardedAt(es: seq<Event>, n: nat, cid: nat, aid: nat, code: string, start: string) {
    n < |es| && es[n].Attempted? && es[n].cid == cid && es[n].aid == aid &&
    es[n].code == code && es[n].start == start && Offered(es[..n], cid, start)
  }

  /** Request `req` was sent by event `m`, for an attempt of call `cid` that passed the slot guard at event `n`. */
  ghost predicate SentAt(es: seq<Event>, n: nat, m: nat, cid: nat, req: B.Request) {
    n < m < |es| && es[m].Resumed? && es[m].cid == cid && Truthy(req.code) &&
    BackendAction(Exec(es[..m]), es[m]) == Some(B.Arrive(es[m].pid, req)) &&
    GuardedAt(es, n, cid, es[m].aid, req.code.value, req.start)
  }

  /** No row was under the request's key when event `m` sent it. */
  predicate EarlyAt(es: seq<Event>, m: nat, key: string)
    requires m <= |es|
  {
    B.FindRow(Exec(es[..m]).backend.rows, key).None?
  }

  /** Request `req` belongs to the call that holds its key and was sent by one of its attempts; `early`, before any
      row was under the key. */
  ghost predicate Owned(es: seq<Event>, w: World, req: B.Request, early: bool) {
    exists cid, n: nat, m: nat :: cid in w.calls && w.calls[cid].key == Some(req.key) &&
      w.calls[cid].tenant == req.tenant && SentAt(es, n, m, cid, req) && (early ==> EarlyAt(es, m, req.key))
  }

  /** A request sent after a row was under its key has not got past its lookup, and will not. */
  predicate Latecomer(s: B.State, p: B.Proc) {
    match p.pc
    case Start => B.FindRow(s.rows, p.req.key).Some?
    case Finished(_) => true
    case Crashed => true
    case _ => false
  }

  ghost predicate ProcOwned(es: seq<Event>, w: World, p: B.Proc) {
    Owned(es, w, p.req, true) || (Owned(es, w, p.req, false) && Latecomer(w.backend, p))
  }

  /** Every attempt under way passed the slot guard. */
  ghost predicate PendingOk(es: seq<Event>, cid: nat, aid: nat, a: Attempt) {
    exists n: nat :: GuardedAt(es, n, cid, aid, a.code, a.start)
  }

  /** No two calls share a key. */
  ghost predicate KeysApart(calls: map<nat, Ctx>) {
    forall c, d :: c in calls && d in calls && c != d && calls[c].key.Some? ==> calls[c].key != calls[d].key
  }

  ghost predicate Inv(es: seq<Event>, w: World) {
    && (forall cid :: cid in w.calls ==> w.calls[cid].offered == LatestOffer(es, cid))
    && KeysApart(w.calls)
    && (forall cid, aid :: cid in w.calls && aid in w.calls[cid].pending ==>
          PendingOk(es, cid, aid, w.calls[cid].pending[aid]))
    && (forall pid :: pid in w.backend.procs ==> ProcOwned(es, w, w.backend.procs[pid]))
    && (forall i :: 0 <= i < |w.backend.posts| ==> Owned(es, w, w.backend.posts[i].req, true))
    && B.Inv(w.backend)
  }

  /** What an event does at the backend: nothing, or one action. */
  function BackendAction(w: World, e: Event): Option<B.Action> {
    match e
    case Backend(action) => if action.Arrive? then None else Some(action)
    case Resumed(cid, aid, pid, fetched, newKey) =>
      if cid in w.calls && aid in w.calls[cid].pending && pid !in w.backend.procs && Unused(w, newKey) &&
         Admits(w.calls[cid].pending[aid], fetched)
      then Some(B.Arrive(pid, RequestOf(w.calls[cid], w.calls[cid].pending[aid], fetched, newKey))) else None
    case _ => None
  }

  lemma BackendStep(w: World, e: Event)
    ensures match BackendAction(w, e)
            case Some(a) => Step(w, e).backend == B.Step(w.backend, a)
            case None => Step(w, e).backend == w.backend
  {
  }

  /** The backend run hidden in a run of the whole system. */
  function BackendRun(es: seq<Event>): seq<B.Action> {
    if es == [] then []
    else
      var before := es[..|es| - 1];
      match BackendAction(Exec(before), es[|es| - 1])
      case Some(a) => BackendRun(before) + [a]
      case None => BackendRun(before)
  }

  lemma {:induction false} BackendFollowsItsRun(es: seq<Event>)
    ensures Exec(es).backend == B.Exec(B.INIT, BackendRun(es))
  {
    if es != [] {
      var before := es[..|es| - 1];
      BackendFollowsItsRun(before);
      BackendStep(Exec(before), es[|es| - 1]);
      match BackendAction(Exec(before), es[|es| - 1]) {
        case Some(a) => B.ExecSnoc(B.INIT, BackendRun(before), a);
        case None =>
      }
    }
  }

  // ---------------------------------------------------------------- every event keeps it

  lemma ExecSnoc(es: seq<Event>, e: Event)
    ensures Exec(es + [e]) == Step(Exec(es), e)
  {
    assert (es + [e])[..|es|] == es;
  }

  lemma {:induction false} EmptyNeedle(catalog: seq<B.Listing>)
    ensures FirstByCode(catalog, "").None? && FirstByAddress(catalog, "").None?
  {
    if catalog != [] {
      EmptyNeedle(catalog[1..]);
    }
  }

  /** A home is only ever matched by a non-empty name. */
  lemma AdmittedCodeIsTruthy(a: Attempt, fetched: Option<seq<B.Listing>>)
    requires Admits(a, fetched)
    ensures a.code != ""
  {
    EmptyNeedle(Catalog(a, fetched));
  }

  /** Calls keep their tenant and, once they have one, their key. */
  lemma CallsPersist(w: World, e: Event, cid: nat)
    requires cid in w.calls
    ensures var t := Step(w, e);
      cid in t.calls && t.calls[cid].tenant == w.calls[cid].tenant &&
      (w.calls[cid].key.Some? ==> t.calls[cid].key == w.calls[cid].key)
  {
  }

  lemma OwnedLater(es: seq<Event>, e: Event, req: B.Request, early: bool)
    ensures Owned(es, Exec(es), req, early) ==> Owned(es + [e], Exec(es + [e]), req, early)
  {
    var w := Exec(es);
    if Owned(es, w, req, early) {
      var cid, n: nat, m: nat :| cid in w.calls && w.calls[cid].key == Some(req.key) &&
        w.calls[cid].tenant == req.tenant && SentAt(es, n, m, cid, req) && (early ==> EarlyAt(es, m, req.key));
      ExecSnoc(es, e);
      CallsPersist(w, e, cid);
      SentLater(es, e, n, m, cid, req, early);
    }
  }

  lemma SentLater(es: seq<Event>, e: Event, n: nat, m: nat, cid: nat, req: B.Request, early: bool)
    requires SentAt(es, n, m, cid, req) && (early ==> EarlyAt(es, m, req.key))
    ensures SentAt(es + [e], n, m, cid, req) && (early ==> EarlyAt(es + [e], m, req.key))
  {
    assert (es + [e])[..n] == es[..n] && (es + [e])[..m] == es[..m];
  }

  lemma PendingLater(es: seq<Event>, e: Event, cid: nat, aid: nat, a: Attempt)
    requires PendingOk(es, cid, aid, a)
    ensures PendingOk(es + [e], cid, aid, a)
  {
    var n: nat :| GuardedAt(es, n, cid, aid, a.code, a.start);
    assert (es + [e])[..n] == es[..n];
    assert GuardedAt(es + [e], n, cid, aid, a.code, a.start);
  }

  /** Backend steps neither invent nor alter requests, and only a request past its lookup posts. */
  lemma BackendKeepsRequests(s: B.State, a: B.Action)
    requires !a.Arrive?
    ensures var t := B.Step(s, a);
      (forall pid :: pid in t.procs ==> pid in s.procs && t.procs[pid].req == s.procs[pid].req) &&
      (forall i :: 0 <= i < |t.posts| ==>
        (i < |s.posts| && t.posts[i].req == s.posts[i].req) ||
        exists pid :: pid in s.procs && t.posts[i].req == s.procs[pid].req && s.procs[pid].pc.Inserted?)
  {
    if a.Decide? && a.pid in s.procs {
      assert forall i :: 0 <= i < |s.posts| ==> B.Step(s, a).posts[i] == s.posts[i];
    }
  }

  /** A key once taken stays taken. */
  lemma KeyStaysTaken(s: B.State, a: B.Action, key: string)
    requires B.FindRow(s.rows, key).Some?
    ensures B.FindRow(B.Step(s, a).rows, key).Some?
  {
    var id := B.FindRow(s.rows, key).value;
    B.RowKeepsIdentity(s, a, id);
    assert B.Step(s, a).rows[id].key == key;
  }

  /** A request that is done stays done. */
  lemma DoneStays(s: B.State, a: B.Action, pid: nat)
    requires pid in s.procs && (s.procs[pid].pc.Finished? || s.procs[pid].pc.Crashed?)
    ensures var t := B.Step(s, a); pid in t.procs && (t.procs[pid].pc.Finished? || t.procs[pid].pc.Crashed?)
  {
  }

  /** A request not yet looked up waits, looks its key up, or dies. */
  lemma StartStep(s: B.State, a: B.Action, pid: nat)
    requires pid in s.procs && s.procs[pid].pc.Start?
    ensures pid in B.Step(s, a).procs && B.Step(s, a).procs[pid].req == s.procs[pid].req
    ensures var pc := B.Step(s, a).procs[pid].pc;
      pc.Start? || pc.Crashed? || if B.FindRow(s.rows, s.procs[pid].req.key).Some? then pc.Finished? else pc.Absent?
  {
  }

  /** A latecomer stays one. */
  lemma LatecomerStays(s: B.State, a: B.Action, pid: nat)
    requires pid in s.procs && Latecomer(s, s.procs[pid])
    ensures var t := B.Step(s, a); pid in t.procs && Latecomer(t, t.procs[pid])
  {
    if s.procs[pid].pc.Start? {
      KeyStaysTaken(s, a, s.procs[pid].req.key);
      StartStep(s, a, pid);
    } else {
      DoneStays(s, a, pid);
    }
  }

  lemma RequestStays(s: B.State, a: B.Action, pid: nat)
    requires pid in s.procs
    ensures var t := B.Step(s, a); pid in t.procs && t.procs[pid].req == s.procs[pid].req
  {
  }

  lemma OfferedAfter(w: World, e: Event, cid: nat)
    requires cid in Step(w, e).calls
    ensures Step(w, e).calls[cid].offered ==
            if cid !in w.calls then {} else if Answers(e, cid) then Slots(e.answer.value) else w.calls[cid].offered
  {
  }

  lemma LatestOfferSnoc(es: seq<Event>, e: Event, cid: nat)
    ensures LatestOffer(es + [e], cid) ==
            if Answers(e, cid) && cid in Exec(es).calls then Slots(e.answer.value) else LatestOffer(es, cid)
  {
    assert (es + [e])[..|es|] == es;
  }

  lemma OffersStep(es: seq<Event>, e: Event)
    requires Inv(es, Exec(es))
    ensures var t := Exec(es + [e]);
      forall cid :: cid in t.calls ==> t.calls[cid].offered == LatestOffer(es + [e], cid)
  {
    var w := Exec(es);
    ExecSnoc(es, e);
    forall cid | cid in Step(w, e).calls
      ensures Step(w, e).calls[cid].offered == LatestOffer(es + [e], cid)
    {
      OfferedAfter(w, e, cid);
      LatestOfferSnoc(es, e, cid);
      if cid !in w.calls {
        NoOfferBeforeDial(es, cid);
      }
    }
  }

  lemma {:induction false} NoOfferBeforeDial(es: seq<Event>, cid: nat)
    requires cid !in Exec(es).calls
    ensures LatestOffer(es, cid) == {}
  {
    if es != [] {
      var before := es[..|es| - 1];
      if cid in Exec(before).calls {
        CallsPersist(Exec(before), es[|es| - 1], cid);
      }
      NoOfferBeforeDial(before, cid);
    }
  }

  lemma NewAttempt(es: seq<Event>, e: Event, cid: nat, aid: nat)
    requires Inv(es, Exec(es)) && cid in Exec(es + [e]).calls && aid in Exec(es + [e]).calls[cid].pending
    requires cid !in Exec(es).calls || aid !in Exec(es).calls[cid].pending
    ensures PendingOk(es + [e], cid, aid, Exec(es + [e]).calls[cid].pending[aid])
  {
    ExecSnoc(es, e);
    var a := Exec(es + [e]).calls[cid].pending[aid];
    assert (es + [e])[..|es|] == es;
    assert e.Attempted? && e.cid == cid && e.aid == aid;
    LatestOfferIff(es, cid, a.start);
    assert GuardedAt(es + [e], |es|, cid, aid, a.code, a.start);
  }

  lemma PendingStays(w: World, e: Event, cid: nat, aid: nat)
    requires cid in w.calls && aid in w.calls[cid].pending
    requires cid in Step(w, e).calls && aid in Step(w, e).calls[cid].pending
    ensures Step(w, e).calls[cid].pending[aid] == w.calls[cid].pending[aid]
  {
  }

  lemma PendingStep(es: seq<Event>, e: Event, cid: nat, aid: nat)
    requires Inv(es, Exec(es)) && cid in Exec(es + [e]).calls && aid in Exec(es + [e]).calls[cid].pending
    ensures PendingOk(es + [e], cid, aid, Exec(es + [e]).calls[cid].pending[aid])
  {
    if cid in Exec(es).calls && aid in Exec(es).calls[cid].pending {
      ExecSnoc(es, e);
      PendingStays(Exec(es), e, cid, aid);
      PendingLater(es, e, cid, aid, Exec(es).calls[cid].pending[aid]);
    } else {
      NewAttempt(es, e, cid, aid);
    }
  }

  /** A request just sent. */
  lemma SentStep(es: seq<Event>, e: Event)
    requires Inv(es, Exec(es)) && e.Resumed? && BackendAction(Exec(es), e).Some?
    ensures var t := Exec(es + [e]); e.pid in t.backend.procs && ProcOwned(es + [e], t, t.backend.procs[e.pid])
  {
    var w := Exec(es);
    ExecSnoc(es, e);
    var c, a := w.calls[e.cid], w.calls[e.cid].pending[e.aid];
    var all, req := es + [e], RequestOf(c, a, e.fetched, e.newKey);
    var n := SentNow(es, e, a, req);
    assert all[..|es|] == es;
    var t := Step(w, e);
    assert t.calls[e.cid].key == Some(req.key);
    assert Owned(all, t, req, B.FindRow(w.backend.rows, req.key).None?);
    assert t.backend.rows == w.backend.rows && t.backend.procs[e.pid] == B.Proc(req, B.Pc.Start);
  }

  lemma SentNow(es: seq<Event>, e: Event, a: Attempt, req: B.Request) returns (n: nat)
    requires Inv(es, Exec(es)) && e.Resumed? && BackendAction(Exec(es), e) == Some(B.Arrive(e.pid, req))
    requires a == Exec(es).calls[e.cid].pending[e.aid]
    ensures SentAt(es + [e], n, |es|, e.cid, req)
  {
    AdmittedCodeIsTruthy(a, e.fetched);
    assert PendingOk(es, e.cid, e.aid, a);
    n :| GuardedAt(es, n, e.cid, e.aid, a.code, a.start);
    assert (es + [e])[..n] == es[..n] && (es + [e])[..|es|] == es;
  }

  lemma KeysStayApart(w: World, e: Event)
    requires KeysApart(w.calls)
    ensures KeysApart(Step(w, e).calls)
  {
  }

  lemma OwnershipLater(es: seq<Event>, e: Event, req: B.Request, early: bool, now: B.Proc)
    requires Owned(es, Exec(es), req, early) && now.req == req && (early || Latecomer(Exec(es + [e]).backend, now))
    ensures ProcOwned(es + [e], Exec(es + [e]), now)
  {
    OwnedLater(es, e, req, early);
  }

  lemma ProcLater(es: seq<Event>, e: Event, pid: nat)
    requires pid in Exec(es).backend.procs && ProcOwned(es, Exec(es), Exec(es).backend.procs[pid])
    ensures var t := Exec(es + [e]).backend; pid in t.procs && ProcOwned(es + [e], Exec(es + [e]), t.procs[pid])
  {
    var w := Exec(es);
    var s, p := w.backend, w.backend.procs[pid];
    ExecSnoc(es, e);
    BackendStep(w, e);
    var t := Exec(es + [e]).backend;
    match BackendAction(w, e) {
      case Some(a) =>
        assert t == B.Step(s, a);
        RequestStays(s, a, pid);
        if Latecomer(s, p) { LatecomerStays(s, a, pid); }
      case None => assert t == s;
    }
    OwnershipLater(es, e, p.req, !Latecomer(s, p), t.procs[pid]);
  }

  lemma ProcsStep(es: seq<Event>, e: Event, pid: nat)
    requires Inv(es, Exec(es))
    ensures var t := Exec(es + [e]); pid in t.backend.procs ==> ProcOwned(es + [e], t, t.backend.procs[pid])
  {
    var w := Exec(es);
    ExecSnoc(es, e);
    if pid in w.backend.procs {
      ProcLater(es, e, pid);
    } else if pid in Step(w, e).backend.procs {
      if e.Backend? && !e.action.Arrive? {
        BackendKeepsRequests(w.backend, e.action);
      }
      SentStep(es, e);
    }
  }

  lemma PostOrigin(s: B.State, a: B.Action, i: nat)
    requires i < |B.Step(s, a).posts|
    ensures (i < |s.posts| && B.Step(s, a).posts[i].req == s.posts[i].req) ||
            exists pid :: pid in s.procs && B.Step(s, a).posts[i].req == s.procs[pid].req && s.procs[pid].pc.Inserted?
  {
    if !a.Arrive? {
      BackendKeepsRequests(s, a);
    }
  }

  lemma PostsStep(es: seq<Event>, e: Event, i: nat)
    requires Inv(es, Exec(es)) && i < |Exec(es + [e]).backend.posts|
    ensures Owned(es + [e], Exec(es + [e]), Exec(es + [e]).backend.posts[i].req, true)
  {
    var s, t := Exec(es).backend, Exec(es + [e]).backend;
    ExecSnoc(es, e);
    BackendStep(Exec(es), e);
    match BackendAction(Exec(es), e) {
      case Some(a) => PostOrigin(s, a, i);
      case None =>
    }
    if i < |s.posts| && t.posts[i].req == s.posts[i].req {
      assert Owned(es, Exec(es), s.posts[i].req, true);
      OwnedLater(es, e, s.posts[i].req, true);
    } else {
      var pid :| pid in s.procs && t.posts[i].req == s.procs[pid].req && s.procs[pid].pc.Inserted?;
      assert ProcOwned(es, Exec(es), s.procs[pid]);
      OwnedLater(es, e, s.procs[pid].req, true);
    }
  }

  lemma StepKeeps(es: seq<Event>, e: Event)
    requires Inv(es, Exec(es))
    ensures Inv(es + [e], Exec(es + [e]))
  {
    var w, t := Exec(es), Exec(es + [e]);
    ExecSnoc(es, e);
    OffersStep(es, e);
    KeysStayApart(w, e);
    forall cid, aid | cid in t.calls && aid in t.calls[cid].pending
      ensures PendingOk(es + [e], cid, aid, t.calls[cid].pending[aid])
    {
      PendingStep(es, e, cid, aid);
    }
    forall pid | pid in t.backend.procs ensures ProcOwned(es + [e], t, t.backend.procs[pid]) {
      ProcsStep(es, e, pid);
    }
    forall i | 0 <= i < |t.backend.posts| ensures Owned(es + [e], t, t.backend.posts[i].req, true) {
      PostsStep(es, e, i);
    }
    BackendStep(w, e);
    match BackendAction(w, e) {
      case Some(a) => B.StepKeeps(w.backend, a);
      case None =>
    }
  }

  lemma NothingYet()
    ensures Inv([], INIT)
  {
  }

  lemma {:induction false} ExecKeeps(es: seq<Event>)
    ensures Inv(es, Exec(es))
  {
    if es == [] {
      NothingYet();
    } else {
      var before, e := es[..|es| - 1], es[|es| - 1];
      ExecKeeps(before);
      StepKeeps(before, e);
      assert before + [e] == es;
    }
  }

  // ---------------------------------------------------------------- main results

  /** The matcher finds the first home whose code is the name's, trimmed and in any case; only when there is none, the
      first whose address contains it; and nothing for a blank name. */
  lemma FindHomeIs(catalog: seq<B.Listing>, home: string)
    ensures var needle := Lower(Strip(home));
      var coded := exists i :: 0 <= i < |catalog| && HasCode(catalog[i], needle);
      match FindHome(catalog, home)
      case Some(h) => needle != "" && exists i: nat :: IsFirst(catalog, needle, coded, i) && h == catalog[i]
      case None => needle == "" || forall i :: 0 <= i < |catalog| ==>
                                     !HasCode(catalog[i], needle) && !HasAddress(catalog[i], needle)
  {
  }

  /** An attempt of a call gets past the slot guard exactly when its start is a non-empty id of some day of the
      call's latest non-empty availability answer. */
  lemma AttemptPassesIff(es: seq<Event>, e: Event)
    requires e.Attempted? && Dialed(es, e.cid) && e.cid in Exec(es).calls && e.aid !in Exec(es).calls[e.cid].pending
    ensures e.cid in Exec(es + [e]).calls
    ensures e.aid in Exec(es + [e]).calls[e.cid].pending <==> Offered(es, e.cid, e.start)
  {
    ExecSnoc(es, e);
    ExecKeeps(es);
    LatestOfferIff(es, e.cid, e.start);
  }

  /** What the tool sends: the call's one key and tenant, the name and slot of the attempt, the address of the home the
      matcher finds in the catalog the call had cached or fetched, and the phone spoken now or else the last one heard;
      key, phone and a fetched catalog stay with the call. */
  lemma SentRequestIs(w: World, e: Event)
    requires e.Resumed? && BackendAction(w, e).Some?
    ensures var c, a, t := w.calls[e.cid], w.calls[e.cid].pending[e.aid], Step(w, e);
      var catalog := if a.catalog.Some? then a.catalog.value else if e.fetched.Some? then e.fetched.value else [];
      var spoken := if a.phone != "" then a.phone else if c.phone.Some? then c.phone.value else "";
      && e.pid in t.backend.procs && FindHome(catalog, a.code).Some?
      && t.backend.procs[e.pid].req ==
         B.Request(if c.key.Some? then c.key.value else e.newKey, c.tenant, Some(a.code),
                   FindHome(catalog, a.code).value.address, a.start, a.email, Some(spoken))
      && t.calls[e.cid].key == Some(t.backend.procs[e.pid].req.key)
      && t.calls[e.cid].phone == (if a.phone != "" then Some(a.phone) else c.phone)
      && (a.catalog.None? && e.fetched.Some? ==> t.calls[e.cid].catalog == e.fetched)
  {
  }

  /** The event tells the call a phone: the caller's at the start, a lead's, or that of a booking being sent. */
  predicate Tells(w: World, e: Event, cid: nat, phone: Option<string>) {
    match e
    case Dial(c, _, callerPhone) => c == cid && cid !in w.calls && phone == callerPhone
    case Capture(c, leadPhone) =>
      c == cid && cid in w.calls && leadPhone.Some? && leadPhone.value != "" && phone == leadPhone
    case Resumed(c, aid, _, _, _) =>
      c == cid && BackendAction(w, e).Some? && w.calls[cid].pending[aid].phone != "" &&
      phone == Some(w.calls[cid].pending[aid].phone)
    case _ => false
  }

  /** Event `k` is the last to tell the call a phone, and tells this one. */
  ghost predicate ToldLast(es: seq<Event>, cid: nat, k: int, phone: Option<string>) {
    && 0 <= k < |es| && Tells(Exec(es[..k]), es[k], cid, phone)
    && forall l, p :: k < l < |es| ==> !Tells(Exec(es[..l]), es[l], cid, p)
  }

  lemma PhoneStep(w: World, e: Event, cid: nat)
    requires cid in Step(w, e).calls
    ensures var phone := Step(w, e).calls[cid].phone;
      Tells(w, e, cid, phone) ||
      (cid in w.calls && w.calls[cid].phone == phone && forall p :: !Tells(w, e, cid, p))
  {
  }

  /** The phone a call has is the one it was last told. */
  lemma {:induction false} PhoneIsLastTold(es: seq<Event>, cid: nat)
    requires cid in Exec(es).calls
    ensures exists k :: ToldLast(es, cid, k, Exec(es).calls[cid].phone)
  {
    var before, e, phone := es[..|es| - 1], es[|es| - 1], Exec(es).calls[cid].phone;
    PhoneStep(Exec(before), e, cid);
    assert es == before + [e];
    if Tells(Exec(before), e, cid, phone) {
      ToldNow(before, e, cid, phone);
    } else {
      PhoneIsLastTold(before, cid);
      var k :| ToldLast(before, cid, k, Exec(before).calls[cid].phone);
      ToldBefore(before, e, cid, k, phone);
    }
  }

  lemma ToldNow(es: seq<Event>, e: Event, cid: nat, phone: Option<string>)
    requires Tells(Exec(es), e, cid, phone)
    ensures ToldLast(es + [e], cid, |es|, phone)
  {
    assert (es + [e])[|es|] == e && (es + [e])[..|es|] == es;
  }

  lemma ToldBefore(es: seq<Event>, e: Event, cid: nat, k: int, phone: Option<string>)
    requires ToldLast(es, cid, k, phone) && forall p :: !Tells(Exec(es), e, cid, p)
    ensures ToldLast(es + [e], cid, k, phone)
  {
    var all := es + [e];
    assert all[|es|] == e && all[..|es|] == es;
    assert forall l :: 0 <= l < |es| ==> all[l] == es[l] && all[..l] == es[..l];
  }

  /** Every calendar POST of every run belongs to exactly one call, the holder of its key: it was sent by a booking
      attempt of that call before any row was under the key, for a slot in the latest non-empty availability answer
      the call had when the attempt passed the slot guard, under the call's tenant, and for a home that tenant's
      catalog held at some moment of the run. */
  lemma EveryPostWasOffered(es: seq<Event>, i: nat)
    requires i < |Exec(es).backend.posts|
    ensures var w := Exec(es); var p := w.backend.posts[i];
      && (exists cid, n: nat, m: nat :: cid in w.calls && w.calls[cid].key == Some(p.req.key) &&
            w.calls[cid].tenant == p.req.tenant && SentAt(es, n, m, cid, p.req) && EarlyAt(es, m, p.req.key))
      && (forall c, d :: c in w.calls && d in w.calls && w.calls[c].key == w.calls[d].key == Some(p.req.key) ==> c == d)
      && p.start == p.req.start && p.code == p.req.code && B.Names(p.req)
      && B.WasListed(BackendRun(es), p.req.tenant, p.code.value)
  {
    ExecKeeps(es);
    var w := Exec(es);
    var p := w.backend.posts[i];
    assert Owned(es, w, p.req, true) && B.PostOk(w.backend.rows, p);
    BackendFollowsItsRun(es);
    B.PostedHomesWereListed(BackendRun(es), i);
  }

  /** At most one calendar POST happens in a call, through any sequence of handoffs, availability
      checks, attempts, retries and crashes, and whatever the other calls do. */
  lemma AtMostOnePostPerCall(es: seq<Event>, cid: nat, i: nat, j: nat)
    requires cid in Exec(es).calls && i < |Exec(es).backend.posts| && j < |Exec(es).backend.posts|
    requires Exec(es).calls[cid].key == Some(Exec(es).backend.posts[i].req.key)
    requires Exec(es).calls[cid].key == Some(Exec(es).backend.posts[j].req.key)
    ensures i == j
  {
    BackendFollowsItsRun(es);
    B.AtMostOnePostPerKey(BackendRun(es), i, j);
  }

  // ---------------------------------------------------------------- handoffs

  /** The same run without its handoffs. */
  function NoHandoffs(es: seq<Event>): seq<Event> {
    if es == [] then []
    else if es[|es| - 1].Handoff? then NoHandoffs(es[..|es| - 1])
    else NoHandoffs(es[..|es| - 1]) + [es[|es| - 1]]
  }

  /** One world but for who is speaking. */
  ghost predicate Alike(w: World, v: World) {
    && w.backend == v.backend && w.calls.Keys == v.calls.Keys
    && forall cid :: cid in w.calls ==> w.calls[cid].(active := "") == v.calls[cid].(active := "")
  }

  lemma UnusedAlike(w: World, v: World, key: string)
    requires Alike(w, v)
    ensures Unused(w, key) == Unused(v, key)
  {
    assert forall c :: c in w.calls ==> w.calls[c].key == v.calls[c].key;
  }

  lemma PrepareAlike(c: Ctx, d: Ctx, aid: nat, fetched: Option<seq<B.Listing>>, newKey: string)
    requires c.(active := "") == d.(active := "") && aid in c.pending
    ensures aid in d.pending && c.pending[aid] == d.pending[aid]
    ensures Prepare(c, aid, fetched, newKey).(active := "") == Prepare(d, aid, fetched, newKey).(active := "")
    ensures Admits(c.pending[aid], fetched) ==>
      RequestOf(c, c.pending[aid], fetched, newKey) == RequestOf(d, c.pending[aid], fetched, newKey)
  {
    assert c.pending == d.pending && c.key == d.key && c.tenant == d.tenant;
    assert c.phone == d.phone && c.catalog == d.catalog;
  }

  lemma AlikeResumed(w: World, v: World, e: Event)
    requires Alike(w, v) && e.Resumed?
    ensures Alike(Step(w, e), Step(v, e))
  {
    UnusedAlike(w, v, e.newKey);
    if e.cid in w.calls {
      var c, d := w.calls[e.cid], v.calls[e.cid];
      assert c.(active := "") == d.(active := "");
      assert c.pending == d.pending;
      if e.aid in c.pending {
        PrepareAlike(c, d, e.aid, e.fetched, e.newKey);
      }
    }
  }

  lemma AlikeSteps(w: World, v: World, e: Event)
    requires Alike(w, v)
    ensures if e.Handoff? then Alike(Step(w, e), v) else Alike(Step(w, e), Step(v, e))
  {
    if e.Resumed? {
      AlikeResumed(w, v, e);
    }
  }

  /** Handoffs share everything a booking depends on: a run and the same run without its handoffs leave the same
      bookings, POSTs and memory, and every call in the same state but for the specialist who is speaking. */
  lemma {:induction false} HandoffsAreInvisible(es: seq<Event>)
    ensures Alike(Exec(es), Exec(NoHandoffs(es)))
  {
    if es != [] {
      var before, e := es[..|es| - 1], es[|es| - 1];
      HandoffsAreInvisible(before);
      AlikeSteps(Exec(before), Exec(NoHandoffs(before)), e);
      if !e.Handoff? {
        ExecSnoc(NoHandoffs(before), e);
      }
    }
  }

  // ---------------------------------------------------------------- names the backend does not accept

  /** A call never posts when no name it sent before a row was under its key was ever a code of the catalog:
      whatever its later attempts name, and however the requests interleave. */
  lemma UnlistedCallNeverPosts(es: seq<Event>, cid: nat, i: nat)
    requires cid in Exec(es).calls && i < |Exec(es).backend.posts|
    requires forall n: nat, m: nat, req :: SentAt(es, n, m, cid, req) && EarlyAt(es, m, req.key) ==>
      !B.WasListed(BackendRun(es), req.tenant, req.code.value)
    ensures Exec(es).calls[cid].key != Some(Exec(es).backend.posts[i].req.key)
  {
    EveryPostWasOffered(es, i);
  }

  /** Once a call's row is there, unposted, and no request holds it, as after a rejection, no continuation of the
      run ever posts for the call. */
  lemma {:induction false} UnpostedRowEndsTheCall(es: seq<Event>, later: seq<Event>, id: nat, i: nat)
    requires var s := Exec(es).backend; B.Frozen(s, id) && B.NoPost(s.posts, id)
    requires i < |Exec(es + later).backend.posts|
    ensures Exec(es + later).backend.posts[i].req.key != Exec(es).backend.rows[id].key
  {
    ExecKeeps(es);
    RunFrom(es, later);
    B.UnpostedStays(Exec(es).backend, BackendRunFrom(es, later), id);
    ExecKeeps(es + later);
    var s, t := Exec(es).backend, Exec(es + later).backend;
    B.KeepsIdentity(s, BackendRunFrom(es, later), id);
    assert B.PostOk(t.rows, t.posts[i]);
  }

  /** The backend's part of a continuation. */
  function BackendRunFrom(es: seq<Event>, later: seq<Event>): seq<B.Action> {
    if later == [] then []
    else
      var before := later[..|later| - 1];
      match BackendAction(Exec(es + before), later[|later| - 1])
      case Some(a) => BackendRunFrom(es, before) + [a]
      case None => BackendRunFrom(es, before)
  }

  lemma {:induction false} RunFrom(es: seq<Event>, later: seq<Event>)
    ensures Exec(es + later).backend == B.Exec(Exec(es).backend, BackendRunFrom(es, later))
  {
    if later == [] {
      assert es + later == es;
    } else {
      var before, e := later[..|later| - 1], later[|later| - 1];
      RunFrom(es, before);
      assert es + later == (es + before) + [e];
      ExecSnoc(es + before, e);
      BackendStep(Exec(es + before), e);
      match BackendAction(Exec(es + before), e) {
        case Some(a) => B.ExecSnoc(Exec(es).backend, BackendRunFrom(es, before), a);
        case None =>
      }
    }
  }

  /** The agent matches a home by code or by a fragment of its address, the backend only by its exact code. So a
      call's first request, served alone, reaches the calendar exactly when the name the buyer used is a code of the
      tenant's catalog; otherwise it leaves a rejected row under the key that no request holds. */
  lemma AdmittedAttemptPostsIff(s: B.State, pid: nat, c: Ctx, a: Attempt, fetched: Option<seq<B.Listing>>,
                                newKey: string, reply: B.Reply)
    requires B.Inv(s) && Admits(a, fetched) && pid !in s.procs
    requires B.FindRow(s.rows, RequestOf(c, a, fetched, newKey).key).None?
    ensures var req := RequestOf(c, a, fetched, newKey);
      var t, id := B.RunAlone(s, pid, req, true, reply), |s.rows|;
      && |t.rows| == id + 1 && t.rows[id].key == req.key
      && if B.InCatalog(s, c.tenant, a.code) then |t.posts| == |s.posts| + 1
         else t.posts == s.posts && t.rows[id].status == "rejected" && B.Frozen(t, id) && B.NoPost(t.posts, id)
  {
    var req := RequestOf(c, a, fetched, newKey);
    AdmittedCodeIsTruthy(a, fetched);
    if B.InCatalog(s, c.tenant, a.code) {
      ListedPosts(s, pid, req, reply);
    } else {
      UnlistedIsRejected(s, pid, req, reply);
    }
  }

  lemma ListedPosts(s: B.State, pid: nat, req: B.Request, reply: B.Reply)
    requires pid !in s.procs && B.FindRow(s.rows, req.key).None?
    requires B.Names(req) && B.InCatalog(s, req.tenant, req.code.value)
    ensures var t, id := B.RunAlone(s, pid, req, true, reply), |s.rows|;
      |t.rows| == id + 1 && t.rows[id].key == req.key && |t.posts| == |s.posts| + 1
  {
    B.BeginFresh(s, pid, req);
    B.FinishPosted(B.Begin(s, pid, req), pid, reply);
  }

  lemma UnlistedIsRejected(s: B.State, pid: nat, req: B.Request, reply: B.Reply)
    requires B.Inv(s) && pid !in s.procs && B.FindRow(s.rows, req.key).None?
    requires B.Names(req) && !B.InCatalog(s, req.tenant, req.code.value)
    ensures var t, id := B.RunAlone(s, pid, req, true, reply), |s.rows|;
      && |t.rows| == id + 1 && t.rows[id].key == req.key
      && t.posts == s.posts && t.rows[id].status == "rejected" && B.Frozen(t, id) && B.NoPost(t.posts, id)
  {
    B.BeginFresh(s, pid, req);
    var b := B.Begin(s, pid, req);
    B.FinishEarly(b, pid, true, reply);
    assert B.RunAlone(s, pid, req, true, reply) == B.DecideStep(b, pid, true);
    forall q | q in s.procs ensures B.Held(s.procs[q].pc) != Some(|s.rows|) {
      assert B.ProcOk(s.rows, s.posts, s.showings, s.procs[q]);
    }
    forall k | 0 <= k < |s.posts| ensures s.posts[k].row != |s.rows| {
      assert B.PostOk(s.rows, s.posts[k]);
    }
  }

  /** Such a name exists: a fragment of an address passes the agent's guard. */
  lemma AddressFragmentIsAdmitted()
    ensures var home := B.Listing("RR-102", Some("88 Maple Ridge"));
      FindHome([home], "maple") == Some(home) && B.FindCode([home], "maple").None? &&
      FindHome([home], home.code) == Some(home)
  {
    assert StripLeft("RR-102") == "RR-102" && StripRight("RR-102") == "RR-102";
    assert StripLeft("maple") == "maple" && StripRight("maple") == "maple";
    assert Lower("maple") == "maple";
    assert |Lower("RR-102")| != |"maple"|;
    assert Lower("88 Maple Ridge") == "88 maple ridge";
    assert OccursAt("88 maple ridge", "maple", 3);
  }

  // ---------------------------------------------------------------- a second attempt can overtake the first

  /** A call names its home by a fragment, then, before the backend has looked at that request, by its code. */
  function TwoAttempts(home: B.Listing, fragment: string): seq<Event> {
    [Dial(0, "t", None)] + [Backend(B.SetCatalog("t", [home]))] + [Availability(0, Some([[Some("slot")]]))]
    + [Attempted(0, 0, fragment, "slot", "a@b.c", "1")] + [Resumed(0, 0, 0, Some([home]), "k")]
    + [Attempted(0, 1, home.code, "slot", "a@b.c", "1")] + [Resumed(0, 1, 1, None, "unused")]
  }

  function SentFor(home: B.Listing, name: string): B.Proc {
    B.Proc(B.Request("k", "t", Some(name), home.address, "slot", "a@b.c", Some("1")), B.Pc.Start)
  }

  lemma AfterFirst(home: B.Listing, fragment: string)
    requires FindHome([home], fragment) == Some(home)
    ensures var es := TwoAttempts(home, fragment);
      es[..5] + [es[5]] + [es[6]] == es &&
      Exec(es[..5]) == World(map[0 := Ctx("t", "concierge", {"slot"}, Some("k"), Some("1"), Some([home]), map[])],
                             B.State([], [], [], map[0 := SentFor(home, fragment)], map["t" := [home]]))
  {
    var es := TwoAttempts(home, fragment);
    AfterOffer(home, fragment);
    ExecSnoc([es[0]] + [es[1]] + [es[2]], es[3]);
    ExecSnoc([es[0]] + [es[1]] + [es[2]] + [es[3]], es[4]);
    assert es[..5] == [es[0]] + [es[1]] + [es[2]] + [es[3]] + [es[4]];
  }

  lemma AfterOffer(home: B.Listing, fragment: string)
    ensures var es := TwoAttempts(home, fragment);
      Exec([es[0]] + [es[1]] + [es[2]]) ==
      World(map[0 := Ctx("t", "concierge", {"slot"}, None, None, None, map[])],
            B.State([], [], [], map[], map["t" := [home]]))
  {
    var es := TwoAttempts(home, fragment);
    ExecSnoc([], es[0]);
    ExecSnoc([es[0]], es[1]);
    ExecSnoc([es[0]] + [es[1]], es[2]);
    assert [] + [es[0]] == [es[0]];
    OneSlot();
  }

  lemma OneSlot()
    ensures Slots([[Some("slot")]]) == {"slot"}
  {
    var days: seq<Day> := [[Some("slot")]];
    assert days[0] in days && days[0][0] in days[0];
  }

  lemma AfterSecond(home: B.Listing, fragment: string)
    requires FindHome([home], fragment) == Some(home) && FindHome([home], home.code) == Some(home)
    ensures Exec(TwoAttempts(home, fragment)).backend ==
            B.State([], [], [], map[0 := SentFor(home, fragment), 1 := SentFor(home, home.code)], map["t" := [home]])
  {
    var es := TwoAttempts(home, fragment);
    AfterFirst(home, fragment);
    ExecSnoc(es[..5], es[5]);
    ExecSnoc(es[..5] + [es[5]], es[6]);
  }

  /** The backend serves the second request first. */
  lemma ServeSecond(s: B.State, home: B.Listing, fragment: string)
    requires s.rows == [] && s.posts == [] && s.catalogs == map["t" := [home]]
    requires s.procs == map[0 := SentFor(home, fragment), 1 := SentFor(home, home.code)]
    requires home.code != ""
    ensures var t := B.Step(B.Step(B.Step(B.Step(s, B.Lookup(1)), B.FindListing(1)), B.Insert(1)), B.Decide(1, true));
      |t.posts| == 1 && t.posts[0].code == Some(home.code) && t.posts[0].req.key == "k"
  {
    var s1 := B.Step(s, B.Lookup(1));
    var s2 := B.Step(s1, B.FindListing(1));
    var s3 := B.Step(s2, B.Insert(1));
    assert s1.procs[1].pc == B.Absent;
    assert B.FindCode([home], home.code) == Some(home);
    assert s2.procs[1].pc.Located? && s2.procs[1].pc.listing == Some(home);
    assert s3.procs[1].pc.Inserted? && s3.procs[1].pc.listing == Some(home) && |s3.rows| == 1;
  }

  function Overtaking(home: B.Listing, fragment: string): seq<Event> {
    TwoAttempts(home, fragment)
    + [Backend(B.Lookup(1))] + [Backend(B.FindListing(1))] + [Backend(B.Insert(1))] + [Backend(B.Decide(1, true))]
  }

  /** So an unlisted first name does not keep a call from posting: a second attempt sent while the first request is
      still on its way can reach the backend first. */
  lemma SecondAttemptOvertakes(home: B.Listing, fragment: string)
    requires FindHome([home], fragment) == Some(home) && FindHome([home], home.code) == Some(home)
    ensures var posts := Exec(Overtaking(home, fragment)).backend.posts;
      |posts| == 1 && posts[0].req.key == "k" && posts[0].code == Some(home.code)
  {
    var es := TwoAttempts(home, fragment);
    AfterSecond(home, fragment);
    EmptyNeedle([home]);
    assert Lower(Strip("")) == "";
    ServeSecond(Exec(es).backend, home, fragment);
    ExecSnoc(es, Backend(B.Lookup(1)));
    ExecSnoc(es + [Backend(B.Lookup(1))], Backend(B.FindListing(1)));
    ExecSnoc(es + [Backend(B.Lookup(1))] + [Backend(B.FindListing(1))], Backend(B.Insert(1)));
    ExecSnoc(es + [Backend(B.Lookup(1))] + [Backend(B.FindListing(1))] + [Backend(B.Insert(1))],
             Backend(B.Decide(1, true)));
  }

  /** It happens: "maple" first, which is no code, "RR-102" second, and one POST for it. */
  lemma OvertakingExample()
    ensures var home := B.Listing("RR-102", Some("88 Maple Ridge"));
      var posts := Exec(Overtaking(home, "maple")).backend.posts;
      B.FindCode([home], "maple").None? && |posts| == 1 && posts[0].req.key == "k" && posts[0].code == Some("RR-102")
  {
    AddressFragmentIsAdmitted();
    SecondAttemptOvertakes(B.Listing("RR-102", Some("88 Maple Ridge")), "maple");
  }
}
