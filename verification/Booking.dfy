/**
 The showing-booking protocol of the backend: a check-then-insert on a unique idempotency key, one
 calendar POST that is never retried, a result write and a memory event. Any number of requests run
 concurrently, one database statement or network exchange at a time, and a request may die between
 any two of them. A run is any sequence of actions; an action that is not enabled changes nothing,
 so quantifying over all sequences quantifies over all interleavings.
 */
module Booking {
  import opened Prelude

  datatype Request = Request(
    key: string,
    tenant: string,
    code: Option<string>,
    address: Option<string>,
    start: string,
    email: string,
    phone: Option<string>)

  /** A catalog row as far as booking reads it. */
  datatype Listing = Listing(code: string, address: Option<string>)

  datatype Row = Row(
    key: string,
    tenant: string,
    code: Option<string>,
    address: Option<string>,
    start: string,
    phone: Option<string>,
    status: string,
    uid: Option<string>,
    synced: bool)

  /** What the calendar client returned: a raised exception (refusal, timeout, bad reply) or a booking. */
  datatype Reply = Raised | Booked(uid: string, status: string)

  /** One POST to the calendar. `req` and `row` say which request sent it and for which row; they
      and `reply` annotate the log and are not sent. */
  datatype Post = Post(req: Request, row: nat, code: Option<string>, address: string, start: string,
                       reply: Option<Reply>)

  /** A `showing` row of memory_interactions, annotated with the booking row it came from. */
  datatype Showing = Showing(row: nat, tenant: string, phone: Option<string>, code: Option<string>,
                             address: Option<string>, when: string)

  /** Where a request stands, with the local variables it still needs. */
  datatype Pc =
    | Start
    | Absent
    | Located(listing: Option<Listing>, address: Option<string>)
    | Inserted(id: nat, listing: Option<Listing>, address: Option<string>)
    | Posted(id: nat, address: Option<string>)
    | Answered(id: nat, address: Option<string>, reply: Reply)
    | Stored(id: nat, address: Option<string>)
    | Finished(response: Option<Row>)
    | Crashed

  datatype Proc = Proc(req: Request, pc: Pc)

  /** Tables (row ids are positions), the calendar's log, the requests seen and the catalogs. */
  datatype State = State(
    rows: seq<Row>,
    posts: seq<Post>,
    showings: seq<Showing>,
    procs: map<nat, Proc>,
    catalogs: map<string, seq<Listing>>)

  datatype Action =
    | Arrive(pid: nat, req: Request)
    | Lookup(pid: nat)
    | FindListing(pid: nat)
    | Insert(pid: nat)
    | Decide(pid: nat, configured: bool)
    | Answer(pid: nat, reply: Reply)
    | Store(pid: nat)
    | Remember(pid: nat)
    | Crash(pid: nat)
    | SetCatalog(tenant: string, listings: seq<Listing>)

  const INIT := State([], [], [], map[], map[])

  // ---------------------------------------------------------------- table operations

  /** `get_by_idempotency_key`: the position of the first row under a key. */
  function FindRow(rows: seq<Row>, key: string): (r: Option<nat>)
    ensures r.Some? ==> r.value < |rows| && rows[r.value].key == key
    ensures r.None? ==> forall i :: 0 <= i < |rows| ==> rows[i].key != key
  {
    if rows == [] then None
    else match FindRow(rows[..|rows| - 1], key)
      case Some(i) => Some(i)
      case None => if rows[|rows| - 1].key == key then Some(|rows| - 1) else None
  }

  /** The first listing of the catalog with the code. */
  ghost predicate IsHome(listings: seq<Listing>, code: string, i: nat) {
    i < |listings| && listings[i].code == code && forall j :: 0 <= j < i ==> listings[j].code != code
  }

  function FindCode(listings: seq<Listing>, code: string): (r: Option<Listing>)
    ensures r.Some? ==> exists i: nat :: IsHome(listings, code, i) && r.value == listings[i]
    ensures r.None? ==> forall i :: 0 <= i < |listings| ==> listings[i].code != code
  {
    if listings == [] then None
    else if listings[0].code == code then
      assert IsHome(listings, code, 0);
      Some(listings[0])
    else
      var r := FindCode(listings[1..], code);
      assert forall i: nat :: IsHome(listings[1..], code, i) ==> IsHome(listings, code, i + 1);
      r
  }

  /** The listing a request names, and the address it books under. */
  function Locate(req: Request, catalog: seq<Listing>): (Option<Listing>, Option<string>) {
    if !Truthy(req.code) then (None, req.address)
    else match FindCode(catalog, req.code.value)
      case None => (None, req.address)
      case Some(l) => (Some(l), if Truthy(l.address) then l.address else req.address)
  }

  function PendingRow(req: Request, address: Option<string>): Row {
    Row(req.key, req.tenant, req.code, address, req.start, req.phone, "pending", None, false)
  }

  function Rejected(r: Row): Row {
    r.(uid := None, status := "rejected", synced := false)
  }

  /** The row `set_result` leaves behind for a calendar reply. */
  function Settled(r: Row, reply: Reply): Row {
    match reply
    case Raised => Rejected(r)
    case Booked(uid, status) => r.(uid := Some(uid), status := status, synced := status == "accepted")
  }

  function CatalogOf(s: State, tenant: string): seq<Listing> {
    if tenant in s.catalogs then s.catalogs[tenant] else []
  }

  // ---------------------------------------------------------------- the step machine

  function Move(s: State, pid: nat, pc: Pc): State
    requires pid in s.procs
  {
    s.(procs := s.procs[pid := s.procs[pid].(pc := pc)])
  }

  function LookupStep(s: State, pid: nat): State
    requires pid in s.procs
  {
    if s.procs[pid].pc != Start then s
    else match FindRow(s.rows, s.procs[pid].req.key)
      case Some(i) => Move(s, pid, Finished(Some(s.rows[i])))
      case None => Move(s, pid, Absent)
  }

  function FindListingStep(s: State, pid: nat): State
    requires pid in s.procs
  {
    if s.procs[pid].pc != Absent then s
    else
      var (listing, address) := Locate(s.procs[pid].req, CatalogOf(s, s.procs[pid].req.tenant));
      Move(s, pid, Located(listing, address))
  }

  /** The unique key makes the insert raise when a row already holds it. */
  function InsertStep(s: State, pid: nat): State
    requires pid in s.procs
  {
    var p := s.procs[pid];
    if !p.pc.Located? then s
    else if FindRow(s.rows, p.req.key).Some? then Move(s, pid, Finished(None))
    else Move(s.(rows := s.rows + [PendingRow(p.req, p.pc.address)]), pid,
              Inserted(|s.rows|, p.pc.listing, p.pc.address))
  }

  function DecideStep(s: State, pid: nat, configured: bool): State
    requires pid in s.procs
  {
    var p := s.procs[pid];
    if !p.pc.Inserted? || p.pc.id >= |s.rows| then s
    else if Truthy(p.req.code) && p.pc.listing.None? then
      var row := Rejected(s.rows[p.pc.id]);
      Move(s.(rows := s.rows[p.pc.id := row]), pid, Finished(Some(row)))
    else if !configured then Move(s, pid, Finished(Some(s.rows[p.pc.id])))
    else
      var post := Post(p.req, p.pc.id, p.req.code, OrEmpty(p.pc.address), p.req.start, None);
      Move(s.(posts := s.posts + [post]), pid, Posted(p.pc.id, p.pc.address))
  }

  /** Notes the calendar's reply on the log entry of row `id`. */
  function NoteReply(posts: seq<Post>, id: nat, reply: Reply): (r: seq<Post>)
    ensures |r| == |posts|
    ensures forall i :: 0 <= i < |posts| ==>
              r[i] == if posts[i].row == id then posts[i].(reply := Some(reply)) else posts[i]
  {
    seq(|posts|, i requires 0 <= i < |posts| =>
      if posts[i].row == id then posts[i].(reply := Some(reply)) else posts[i])
  }

  function AnswerStep(s: State, pid: nat, reply: Reply): State
    requires pid in s.procs
  {
    var p := s.procs[pid];
    if !p.pc.Posted? then s
    else Move(s.(posts := NoteReply(s.posts, p.pc.id, reply)), pid,
              Answered(p.pc.id, p.pc.address, reply))
  }

  function StoreStep(s: State, pid: nat): State
    requires pid in s.procs
  {
    var p := s.procs[pid];
    if !p.pc.Answered? || p.pc.id >= |s.rows| then s
    else
      var row := Settled(s.rows[p.pc.id], p.pc.reply);
      var pc := if p.pc.reply.Booked? && p.pc.reply.status == "accepted" && p.req.tenant != ""
                then Stored(p.pc.id, p.pc.address) else Finished(Some(row));
      Move(s.(rows := s.rows[p.pc.id := row]), pid, pc)
  }

  function RememberStep(s: State, pid: nat): State
    requires pid in s.procs
  {
    var p := s.procs[pid];
    if !p.pc.Stored? || p.pc.id >= |s.rows| then s
    else
      var e := Showing(p.pc.id, p.req.tenant, p.req.phone, p.req.code, p.pc.address, p.req.start);
      Move(s.(showings := s.showings + [e]), pid, Finished(Some(s.rows[p.pc.id])))
  }

  function Step(s: State, a: Action): (t: State)
    ensures |s.rows| <= |t.rows|
  {
    match a
    case Arrive(pid, req) => if pid in s.procs then s else s.(procs := s.procs[pid := Proc(req, Start)])
    case SetCatalog(tenant, listings) => s.(catalogs := s.catalogs[tenant := listings])
    case Lookup(pid) => if pid in s.procs then LookupStep(s, pid) else s
    case FindListing(pid) => if pid in s.procs then FindListingStep(s, pid) else s
    case Insert(pid) => if pid in s.procs then InsertStep(s, pid) else s
    case Decide(pid, configured) => if pid in s.procs then DecideStep(s, pid, configured) else s
    case Answer(pid, reply) => if pid in s.procs then AnswerStep(s, pid, reply) else s
    case Store(pid) => if pid in s.procs then StoreStep(s, pid) else s
    case Remember(pid) => if pid in s.procs then RememberStep(s, pid) else s
    case Crash(pid) => if pid in s.procs && !s.procs[pid].pc.Finished? then Move(s, pid, Crashed) else s
  }

  function Exec(s: State, acts: seq<Action>): State {
    if acts == [] then s else Step(Exec(s, acts[..|acts| - 1]), acts[|acts| - 1])
  }

  // ---------------------------------------------------------------- the invariant

  /** The row a request has inserted and not yet finished with. */
  function Held(pc: Pc): Option<nat> {
    match pc
    case Inserted(id, _, _) => Some(id)
    case Posted(id, _) => Some(id)
    case Answered(id, _, _) => Some(id)
    case Stored(id, _) => Some(id)
    case _ => None
  }

  ghost predicate KeysUnique(rows: seq<Row>) {
    forall i, j :: 0 <= i < j < |rows| ==> rows[i].key != rows[j].key
  }

  /** No two requests work on the same row. */
  ghost predicate Exclusive(procs: map<nat, Proc>) {
    forall p, q :: p in procs && q in procs && p != q && Held(procs[p].pc).Some? ==>
      Held(procs[p].pc) != Held(procs[q].pc)
  }

  /** The row carries the request's own values. */
  predicate Carries(r: Row, req: Request, address: Option<string>) {
    r.key == req.key && r.tenant == req.tenant && r.code == req.code && r.address == address &&
    r.start == req.start && r.phone == req.phone
  }

  predicate Pristine(r: Row) {
    r.status == "pending" && r.uid == None && !r.synced
  }

  ghost predicate PostedFor(posts: seq<Post>, id: nat, reply: Option<Reply>) {
    exists i :: 0 <= i < |posts| && posts[i].row == id && posts[i].reply == reply
  }

  ghost predicate NoShowing(showings: seq<Showing>, id: nat) {
    forall i :: 0 <= i < |showings| ==> showings[i].row != id
  }

  ghost predicate NoPost(posts: seq<Post>, id: nat) {
    forall i :: 0 <= i < |posts| ==> posts[i].row != id
  }

  /** What holds of the row a request is working on, by where the request stands. */
  ghost predicate ProcOk(rows: seq<Row>, posts: seq<Post>, showings: seq<Showing>, p: Proc) {
    match p.pc
    case Inserted(id, _, address) =>
      id < |rows| && Carries(rows[id], p.req, address) && Pristine(rows[id]) &&
      NoPost(posts, id) && NoShowing(showings, id)
    case Posted(id, address) =>
      id < |rows| && Carries(rows[id], p.req, address) && Pristine(rows[id]) &&
      PostedFor(posts, id, None) && NoShowing(showings, id)
    case Answered(id, address, reply) =>
      id < |rows| && Carries(rows[id], p.req, address) && Pristine(rows[id]) &&
      PostedFor(posts, id, Some(reply)) && NoShowing(showings, id)
    case Stored(id, address) =>
      id < |rows| && Carries(rows[id], p.req, address) && rows[id].status == "accepted" &&
      NoShowing(showings, id)
    case _ => true
  }

  /** The POST sent what its request and its row carry. */
  predicate PostOk(rows: seq<Row>, p: Post) {
    p.row < |rows| && Carries(rows[p.row], p.req, rows[p.row].address) &&
    p.code == p.req.code && p.start == p.req.start && p.address == OrEmpty(rows[p.row].address)
  }

  /** A row is untouched, rejected without a calendar id, or records its POST's reply. */
  ghost predicate RowOk(posts: seq<Post>, id: nat, r: Row) {
    Pristine(r) || (r.status == "rejected" && r.uid == None && !r.synced) || Confirmed(posts, id, r)
  }

  ghost predicate Confirmed(posts: seq<Post>, id: nat, r: Row) {
    r.uid.Some? && r.synced == (r.status == "accepted") &&
    PostedFor(posts, id, Some(Booked(r.uid.value, r.status)))
  }

  predicate ShowingOk(rows: seq<Row>, e: Showing) {
    e.row < |rows| &&
    (var r := rows[e.row];
     r.status == "accepted" && e.tenant == r.tenant && e.phone == r.phone && e.code == r.code &&
     e.address == r.address && e.when == r.start)
  }

  ghost predicate TablesOk(rows: seq<Row>, posts: seq<Post>, showings: seq<Showing>) {
    && KeysUnique(rows)
    && (forall i, j :: 0 <= i < j < |posts| ==> posts[i].row != posts[j].row)
    && (forall i :: 0 <= i < |posts| ==> PostOk(rows, posts[i]))
    && (forall i, j :: 0 <= i < j < |showings| ==> showings[i].row != showings[j].row)
    && (forall i :: 0 <= i < |showings| ==> ShowingOk(rows, showings[i]))
    && (forall id :: 0 <= id < |rows| ==> RowOk(posts, id, rows[id]))
  }

  ghost predicate ProcsOk(s: State) {
    && Exclusive(s.procs)
    && (forall pid :: pid in s.procs ==> ProcOk(s.rows, s.posts, s.showings, s.procs[pid]))
  }

  ghost predicate Inv(s: State) {
    TablesOk(s.rows, s.posts, s.showings) && ProcsOk(s)
  }

  // ---------------------------------------------------------------- every step keeps it

  lemma MoveKeeps(s: State, pid: nat, pc: Pc)
    requires Inv(s) && pid in s.procs
    requires Held(pc).None?
    ensures Inv(Move(s, pid, pc))
  {
  }

  lemma ArriveKeeps(s: State, pid: nat, req: Request)
    requires Inv(s)
    ensures Inv(Step(s, Arrive(pid, req)))
  {
  }

  lemma SetCatalogKeeps(s: State, tenant: string, listings: seq<Listing>)
    requires Inv(s)
    ensures Inv(Step(s, SetCatalog(tenant, listings)))
  {
  }

  lemma OthersElsewhere(s: State, pid: nat, id: nat)
    requires Inv(s) && pid in s.procs && Held(s.procs[pid].pc) == Some(id)
    ensures forall q :: q in s.procs && q != pid ==> Held(s.procs[q].pc) != Some(id)
  {
  }

  lemma InsertPc(s: State, row: Row, p: Proc)
    requires ProcOk(s.rows, s.posts, s.showings, p)
    ensures ProcOk(s.rows + [row], s.posts, s.showings, p) && Held(p.pc) != Some(|s.rows|)
  {
  }

  lemma InsertTables(rows: seq<Row>, posts: seq<Post>, showings: seq<Showing>, row: Row)
    requires TablesOk(rows, posts, showings) && Pristine(row)
    requires forall i :: 0 <= i < |rows| ==> rows[i].key != row.key
    ensures TablesOk(rows + [row], posts, showings)
    ensures NoPost(posts, |rows|) && NoShowing(showings, |rows|)
  {
    var after := rows + [row];
    forall i, j | 0 <= i < j < |after|
      ensures after[i].key != after[j].key
    {
      assert after[i] == rows[i];
    }
    forall i | 0 <= i < |posts|
      ensures PostOk(after, posts[i]) && posts[i].row != |rows|
    {
      assert PostOk(rows, posts[i]);
    }
    forall i | 0 <= i < |showings|
      ensures ShowingOk(after, showings[i]) && showings[i].row != |rows|
    {
      assert ShowingOk(rows, showings[i]);
    }
    forall id | 0 <= id < |after|
      ensures RowOk(posts, id, after[id])
    {
      assert id < |rows| ==> RowOk(posts, id, rows[id]);
    }
  }

  lemma InsertKeeps(s: State, pid: nat)
    requires Inv(s) && pid in s.procs
    ensures Inv(InsertStep(s, pid))
  {
    var p := s.procs[pid];
    if p.pc.Located? && FindRow(s.rows, p.req.key).None? {
      var t := InsertStep(s, pid);
      InsertTables(s.rows, s.posts, s.showings, t.rows[|s.rows|]);
      forall q | q in t.procs && q != pid
        ensures ProcOk(t.rows, t.posts, t.showings, t.procs[q]) && Held(t.procs[q].pc) != Some(|s.rows|)
      {
        InsertPc(s, t.rows[|s.rows|], s.procs[q]);
      }
    } else if p.pc.Located? {
      MoveKeeps(s, pid, Finished(None));
    }
  }

  lemma WriteRowPc(s: State, id: nat, row: Row, p: Proc)
    requires ProcOk(s.rows, s.posts, s.showings, p) && Held(p.pc) != Some(id) && id < |s.rows|
    ensures ProcOk(s.rows[id := row], s.posts, s.showings, p)
  {
  }

  lemma WriteRowTables(rows: seq<Row>, posts: seq<Post>, showings: seq<Showing>, id: nat, row: Row)
    requires TablesOk(rows, posts, showings) && id < |rows| && NoShowing(showings, id)
    requires row.key == rows[id].key && row.tenant == rows[id].tenant && row.code == rows[id].code &&
             row.address == rows[id].address && row.start == rows[id].start && row.phone == rows[id].phone
    requires RowOk(posts, id, row)
    ensures TablesOk(rows[id := row], posts, showings)
  {
    var after := rows[id := row];
    forall k | 0 <= k < |after|
      ensures RowOk(posts, k, after[k])
    {
      assert k != id ==> RowOk(posts, k, rows[k]);
    }
  }

  /** Overwriting the row a request holds, when no showing refers to it yet. */
  lemma WriteRowKeeps(s: State, pid: nat, id: nat, row: Row, pc: Pc)
    requires Inv(s) && pid in s.procs
    requires Held(s.procs[pid].pc) == Some(id) && id < |s.rows|
    requires forall i :: 0 <= i < |s.showings| ==> s.showings[i].row != id
    requires Carries(s.rows[id], s.procs[pid].req, row.address) && Carries(row, s.procs[pid].req, row.address)
    requires Held(pc).None? || (pc == Stored(id, row.address) && row.status == "accepted")
    requires (row.status == "rejected" && row.uid == None && !row.synced) ||
             (row.uid.Some? && row.synced == (row.status == "accepted") &&
              PostedFor(s.posts, id, Some(Booked(row.uid.value, row.status))))
    ensures Inv(Move(s.(rows := s.rows[id := row]), pid, pc))
  {
    var t := Move(s.(rows := s.rows[id := row]), pid, pc);
    OthersElsewhere(s, pid, id);
    forall q | q in t.procs
      ensures ProcOk(t.rows, t.posts, t.showings, t.procs[q])
    {
      if q != pid {
        WriteRowPc(s, id, row, s.procs[q]);
      }
    }
    WriteRowTables(s.rows, s.posts, s.showings, id, row);
  }

  lemma PostPc(s: State, post: Post, p: Proc)
    requires ProcOk(s.rows, s.posts, s.showings, p) && Held(p.pc) != Some(post.row)
    ensures ProcOk(s.rows, s.posts + [post], s.showings, p)
  {
    PostedForGrows(s.posts, s.posts + [post]);
  }

  lemma PostKeeps(s: State, pid: nat)
    requires Inv(s) && pid in s.procs && s.procs[pid].pc.Inserted?
    ensures Inv(DecideStep(s, pid, true))
  {
    var p := s.procs[pid];
    assert ProcOk(s.rows, s.posts, s.showings, p);
    if Truthy(p.req.code) && p.pc.listing.None? {
      WriteRowKeeps(s, pid, p.pc.id, Rejected(s.rows[p.pc.id]), Finished(Some(Rejected(s.rows[p.pc.id]))));
    } else {
      var t := DecideStep(s, pid, true);
      assert t.posts[|s.posts|].row == p.pc.id;
      PostKeepsOthers(s, pid, t);
      PostedForGrows(s.posts, t.posts);
      assert TablesOk(t.rows, t.posts, t.showings);
    }
  }

  lemma PostKeepsOthers(s: State, pid: nat, t: State)
    requires Inv(s) && pid in s.procs && s.procs[pid].pc.Inserted? && t == DecideStep(s, pid, true)
    requires |t.posts| == |s.posts| + 1 && t.posts[|s.posts|].row == s.procs[pid].pc.id
    ensures forall q :: q in t.procs && q != pid ==> ProcOk(t.rows, t.posts, t.showings, t.procs[q])
  {
    OthersElsewhere(s, pid, s.procs[pid].pc.id);
    forall q | q in t.procs && q != pid
      ensures ProcOk(t.rows, t.posts, t.showings, t.procs[q])
    {
      PostPc(s, t.posts[|s.posts|], s.procs[q]);
    }
  }

  lemma PostedForGrows(posts: seq<Post>, more: seq<Post>)
    requires posts <= more
    ensures forall id, reply :: PostedFor(posts, id, reply) ==> PostedFor(more, id, reply)
  {
    forall id, reply | PostedFor(posts, id, reply)
      ensures PostedFor(more, id, reply)
    {
      var i :| 0 <= i < |posts| && posts[i].row == id && posts[i].reply == reply;
      assert more[i] == posts[i];
    }
  }

  lemma DecideKeeps(s: State, pid: nat, configured: bool)
    requires Inv(s) && pid in s.procs
    ensures Inv(DecideStep(s, pid, configured))
  {
    var p := s.procs[pid];
    if p.pc.Inserted? {
      if configured || (Truthy(p.req.code) && p.pc.listing.None?) {
        PostKeeps(s, pid);
      } else {
        MoveKeeps(s, pid, Finished(Some(s.rows[p.pc.id])));
      }
    }
  }

  lemma NoteReplyPosted(posts: seq<Post>, id: nat, reply: Reply)
    ensures var noted := NoteReply(posts, id, reply);
      (forall k, r :: k != id && PostedFor(posts, k, r) ==> PostedFor(noted, k, r)) &&
      (PostedFor(posts, id, None) ==> PostedFor(noted, id, Some(reply)))
  {
    var noted := NoteReply(posts, id, reply);
    forall k, r | PostedFor(posts, k, r) && (k != id || r.None?)
      ensures if k == id then PostedFor(noted, id, Some(reply)) else PostedFor(noted, k, r)
    {
      var i :| 0 <= i < |posts| && posts[i].row == k && posts[i].reply == r;
      assert noted[i].row == k;
    }
  }

  lemma NoteReplyPc(s: State, id: nat, reply: Reply, p: Proc)
    requires ProcOk(s.rows, s.posts, s.showings, p) && Held(p.pc) != Some(id)
    ensures ProcOk(s.rows, NoteReply(s.posts, id, reply), s.showings, p)
  {
    NoteReplyPosted(s.posts, id, reply);
  }

  lemma NoteReplyTables(rows: seq<Row>, posts: seq<Post>, showings: seq<Showing>, id: nat, reply: Reply)
    requires TablesOk(rows, posts, showings) && id < |rows| && Pristine(rows[id])
    ensures TablesOk(rows, NoteReply(posts, id, reply), showings)
  {
    NoteReplyPosted(posts, id, reply);
  }

  lemma AnswerKeeps(s: State, pid: nat, reply: Reply)
    requires Inv(s) && pid in s.procs
    ensures Inv(AnswerStep(s, pid, reply))
  {
    var p := s.procs[pid];
    if p.pc.Posted? {
      var t := AnswerStep(s, pid, reply);
      assert ProcOk(s.rows, s.posts, s.showings, p);
      NoteReplyPosted(s.posts, p.pc.id, reply);
      OthersElsewhere(s, pid, p.pc.id);
      forall q | q in t.procs
        ensures ProcOk(t.rows, t.posts, t.showings, t.procs[q])
      {
        assert ProcOk(s.rows, s.posts, s.showings, s.procs[q]);
        if q != pid {
          NoteReplyPc(s, p.pc.id, reply, t.procs[q]);
        }
      }
      NoteReplyTables(s.rows, s.posts, s.showings, p.pc.id, reply);
    }
  }

  lemma StoreKeeps(s: State, pid: nat)
    requires Inv(s) && pid in s.procs
    ensures Inv(StoreStep(s, pid))
  {
    var p := s.procs[pid];
    if p.pc.Answered? {
      var row := Settled(s.rows[p.pc.id], p.pc.reply);
      var pc := if p.pc.reply.Booked? && p.pc.reply.status == "accepted" && p.req.tenant != ""
                then Stored(p.pc.id, p.pc.address) else Finished(Some(row));
      WriteRowKeeps(s, pid, p.pc.id, row, pc);
    }
  }

  lemma RememberPc(s: State, e: Showing, p: Proc)
    requires ProcOk(s.rows, s.posts, s.showings, p) && Held(p.pc) != Some(e.row)
    ensures ProcOk(s.rows, s.posts, s.showings + [e], p)
  {
  }

  lemma RememberKeeps(s: State, pid: nat)
    requires Inv(s) && pid in s.procs
    ensures Inv(RememberStep(s, pid))
  {
    var p := s.procs[pid];
    if p.pc.Stored? {
      var t := RememberStep(s, pid);
      OthersElsewhere(s, pid, p.pc.id);
      assert ProcOk(s.rows, s.posts, s.showings, p);
      forall q | q in t.procs
        ensures ProcOk(t.rows, t.posts, t.showings, t.procs[q])
      {
        if q != pid {
          RememberPc(s, t.showings[|s.showings|], s.procs[q]);
        }
      }
      assert TablesOk(t.rows, t.posts, t.showings);
    }
  }

  lemma StepKeeps(s: State, a: Action)
    requires Inv(s)
    ensures Inv(Step(s, a))
  {
    match a
    case Arrive(pid, req) => ArriveKeeps(s, pid, req);
    case SetCatalog(tenant, listings) => SetCatalogKeeps(s, tenant, listings);
    case Lookup(pid) =>
      if pid in s.procs {
        MoveKeeps(s, pid, Absent);
        match FindRow(s.rows, s.procs[pid].req.key) {
          case Some(i) => MoveKeeps(s, pid, Finished(Some(s.rows[i])));
          case None =>
        }
      }
    case FindListing(pid) =>
      if pid in s.procs {
        var (listing, address) := Locate(s.procs[pid].req, CatalogOf(s, s.procs[pid].req.tenant));
        MoveKeeps(s, pid, Located(listing, address));
      }
    case Insert(pid) => if pid in s.procs { InsertKeeps(s, pid); }
    case Decide(pid, configured) => if pid in s.procs { DecideKeeps(s, pid, configured); }
    case Answer(pid, reply) => if pid in s.procs { AnswerKeeps(s, pid, reply); }
    case Store(pid) => if pid in s.procs { StoreKeeps(s, pid); }
    case Remember(pid) => if pid in s.procs { RememberKeeps(s, pid); }
    case Crash(pid) => if pid in s.procs { MoveKeeps(s, pid, Crashed); }
  }

  lemma {:induction false} ExecKeeps(s: State, acts: seq<Action>)
    requires Inv(s)
    ensures Inv(Exec(s, acts))
  {
    if acts != [] {
      ExecKeeps(s, acts[..|acts| - 1]);
      StepKeeps(Exec(s, acts[..|acts| - 1]), acts[|acts| - 1]);
    }
  }

  // ---------------------------------------------------------------- main results

  /** Over every interleaving, crashes included, the calendar gets at most one POST per key. */
  lemma AtMostOnePostPerKey(acts: seq<Action>, i: nat, j: nat)
    requires var s := Exec(INIT, acts);
      i < |s.posts| && j < |s.posts| && s.posts[i].req.key == s.posts[j].req.key
    ensures i == j
  {
    var s := Exec(INIT, acts);
    ExecKeeps(INIT, acts);
    assert s.posts[i].row == s.posts[j].row;
  }

  /** An accepted row carries the uid its key's POST was answered with, and what that POST sent. */
  lemma AcceptedRowCarriesItsPost(acts: seq<Action>, id: nat)
    requires id < |Exec(INIT, acts).rows| && Exec(INIT, acts).rows[id].status == "accepted"
    ensures var s := Exec(INIT, acts); var r := s.rows[id];
      exists i :: 0 <= i < |s.posts| && s.posts[i].req.key == r.key && r.synced && r.uid.Some? &&
        s.posts[i].reply == Some(Booked(r.uid.value, "accepted")) &&
        s.posts[i].code == r.code && s.posts[i].address == OrEmpty(r.address) && s.posts[i].start == r.start
  {
    var s := Exec(INIT, acts);
    ExecKeeps(INIT, acts);
    var r := s.rows[id];
    assert RowOk(s.posts, id, r);
    var i :| 0 <= i < |s.posts| && s.posts[i].row == id && s.posts[i].reply == Some(Booked(r.uid.value, r.status));
    assert s.posts[i].req.key == r.key;
  }

  /** A showing event exists at most once per key, only beside the accepted row of that key, with
      the address, start and caller of the row and of the POST. */
  lemma ShowingsMatchAcceptedRows(acts: seq<Action>, i: nat)
    requires i < |Exec(INIT, acts).showings|
    ensures var s := Exec(INIT, acts); var e := s.showings[i];
      e.row < |s.rows| && s.rows[e.row].status == "accepted" &&
      e.address == s.rows[e.row].address && e.when == s.rows[e.row].start &&
      e.tenant == s.rows[e.row].tenant && e.phone == s.rows[e.row].phone && e.code == s.rows[e.row].code &&
      (forall j :: 0 <= j < |s.showings| && j != i ==>
        s.showings[j].row < |s.rows| && s.rows[s.showings[j].row].key != s.rows[e.row].key) &&
      (exists k :: 0 <= k < |s.posts| && s.posts[k].req.key == s.rows[e.row].key &&
        s.posts[k].address == OrEmpty(e.address) && s.posts[k].start == e.when)
  {
    var s := Exec(INIT, acts);
    ExecKeeps(INIT, acts);
    var e := s.showings[i];
    assert ShowingOk(s.rows, e);
    forall j | 0 <= j < |s.showings| && j != i
      ensures s.showings[j].row < |s.rows| && s.rows[s.showings[j].row].key != s.rows[e.row].key
    {
      assert s.showings[j].row != e.row;
    }
    AcceptedRowCarriesItsPost(acts, e.row);
  }

  /** No request can still write row `id`. */
  ghost predicate Frozen(s: State, id: nat) {
    id < |s.rows| &&
    forall pid :: pid in s.procs ==>
      s.procs[pid].pc.Stored? || Held(s.procs[pid].pc) != Some(id)
  }

  lemma FrozenStays(s: State, a: Action, id: nat)
    requires Frozen(s, id)
    ensures Frozen(Step(s, a), id) && Step(s, a).rows[id] == s.rows[id]
  {
  }

  lemma WriteFreezes(s: State, a: Action, id: nat)
    requires Exclusive(s.procs) && id < |s.rows| && Step(s, a).rows[id] != s.rows[id]
    ensures Frozen(Step(s, a), id)
  {
    var t := Step(s, a);
    forall pid | pid in t.procs
      ensures t.procs[pid].pc.Stored? || Held(t.procs[pid].pc) != Some(id)
    {
      assert pid in s.procs;
    }
  }

  lemma {:induction false} FrozenForever(s: State, acts: seq<Action>, id: nat)
    requires Frozen(s, id)
    ensures Frozen(Exec(s, acts), id) && Exec(s, acts).rows[id] == s.rows[id]
  {
    if acts != [] {
      var before := acts[..|acts| - 1];
      FrozenForever(s, before, id);
      FrozenStays(Exec(s, before), acts[|acts| - 1], id);
    }
  }

  /** A row is written at most once after its insert: from any point of a run, once a step changes
      it, no continuation of the run changes it again. In particular it leaves "pending" at most once. */
  lemma RowSettlesOnce(acts: seq<Action>, a: Action, later: seq<Action>, id: nat)
    requires var s := Exec(INIT, acts); id < |s.rows| && Step(s, a).rows[id] != s.rows[id]
    ensures var t := Step(Exec(INIT, acts), a);
      id < |Exec(t, later).rows| && Exec(t, later).rows[id] == t.rows[id]
  {
    var s := Exec(INIT, acts);
    ExecKeeps(INIT, acts);
    WriteFreezes(s, a, id);
    FrozenForever(Step(s, a), later, id);
  }

  lemma {:induction false} KeepsIdentity(s: State, acts: seq<Action>, id: nat)
    requires id < |s.rows|
    ensures id < |Exec(s, acts).rows| && Exec(s, acts).rows[id].key == s.rows[id].key
  {
    if acts != [] {
      KeepsIdentity(s, acts[..|acts| - 1], id);
      RowKeepsIdentity(Exec(s, acts[..|acts| - 1]), acts[|acts| - 1], id);
    }
  }

  lemma UnpostedStep(s: State, a: Action, id: nat)
    requires Frozen(s, id) && NoPost(s.posts, id)
    ensures NoPost(Step(s, a).posts, id)
  {
  }

  /** A row no request can write and no POST was made for is never posted, in any continuation. */
  lemma {:induction false} UnpostedStays(s: State, acts: seq<Action>, id: nat)
    requires Frozen(s, id) && NoPost(s.posts, id)
    ensures NoPost(Exec(s, acts).posts, id)
  {
    if acts != [] {
      var before := acts[..|acts| - 1];
      FrozenForever(s, before, id);
      UnpostedStays(s, before, id);
      UnpostedStep(Exec(s, before), acts[|acts| - 1], id);
    }
  }

  // ---------------------------------------------------------------- retries and the catalog

  /** Where a request can stand that started after its key was taken. */
  predicate Refused(pc: Pc, key: string, start: string) {
    pc.Start? || pc.Crashed? ||
    (pc.Finished? && pc.response.Some? && pc.response.value.key == key && pc.response.value.start == start)
  }

  lemma RowKeepsIdentity(s: State, a: Action, id: nat)
    requires id < |s.rows|
    ensures var r, t := s.rows[id], Step(s, a).rows[id];
      && t.key == r.key && t.tenant == r.tenant && t.code == r.code && t.address == r.address && t.start == r.start
      && t.phone == r.phone
  {
  }

  lemma {:induction false} RetryStep(s: State, a: Action, id: nat, pid: nat)
    requires Inv(s) && id < |s.rows| && pid in s.procs && s.procs[pid].req.key == s.rows[id].key
    requires Refused(s.procs[pid].pc, s.rows[id].key, s.rows[id].start)
    ensures var t := Step(s, a);
      t.rows[id].key == s.rows[id].key && t.rows[id].start == s.rows[id].start &&
      pid in t.procs && t.procs[pid].req == s.procs[pid].req &&
      Refused(t.procs[pid].pc, s.rows[id].key, s.rows[id].start)
  {
    RowKeepsIdentity(s, a, id);
    if a.Lookup? && a.pid == pid {
      LookupFindsRow(s, id);
    } else {
      RefusedStays(s, a, pid, s.rows[id].key, s.rows[id].start);
    }
  }

  lemma LookupFindsRow(s: State, id: nat)
    requires Inv(s) && id < |s.rows|
    ensures FindRow(s.rows, s.rows[id].key) == Some(id)
  {
  }

  lemma RefusedStays(s: State, a: Action, pid: nat, key: string, start: string)
    requires pid in s.procs && Refused(s.procs[pid].pc, key, start) && !(a.Lookup? && a.pid == pid)
    ensures var t := Step(s, a);
      pid in t.procs && t.procs[pid].req == s.procs[pid].req && Refused(t.procs[pid].pc, key, start)
  {
  }

  /** A finished request answered row `id` as it stood at some moment of the run. */
  ghost predicate AnsweredRow(s: State, later: seq<Action>, id: nat, pid: nat) {
    var t := Exec(s, later);
    pid in t.procs && t.procs[pid].pc.Finished? ==>
      exists m :: 0 <= m <= |later| && id < |Exec(s, later[..m]).rows| &&
        t.procs[pid].pc.response == Some(Exec(s, later[..m]).rows[id])
  }

  predicate Resting(pc: Pc) {
    pc.Start? || pc.Crashed? || pc.Finished?
  }

  /** The request has not looked yet, or is done, and its key is that of row `id`. */
  ghost predicate Waits(s: State, id: nat, pid: nat) {
    Inv(s) && id < |s.rows| && pid in s.procs && s.procs[pid].req.key == s.rows[id].key && Resting(s.procs[pid].pc)
  }

  lemma AnsweredRowStep(s: State, later: seq<Action>, id: nat, pid: nat)
    requires later != [] && AnsweredRow(s, later[..|later| - 1], id, pid)
    requires Waits(Exec(s, later[..|later| - 1]), id, pid)
    ensures AnsweredRow(s, later, id, pid)
  {
    var n := |later| - 1;
    var b, a := Exec(s, later[..n]), later[n];
    assert forall m :: 0 <= m <= n ==> later[..n][..m] == later[..m];
    if a.Lookup? && a.pid == pid && b.procs[pid].pc.Start? {
      LookupFindsRow(b, id);
      assert Exec(s, later[..n]).rows[id] == b.rows[id];
    } else {
      RestingStays(b, a, pid);
    }
  }

  lemma RestingStays(s: State, a: Action, pid: nat)
    requires pid in s.procs && Resting(s.procs[pid].pc)
    requires !(a.Lookup? && a.pid == pid && s.procs[pid].pc.Start?)
    ensures pid in Step(s, a).procs
    ensures Step(s, a).procs[pid].pc == s.procs[pid].pc || Step(s, a).procs[pid].pc.Crashed?
  {
  }

  /** A request that starts after a row exists under its key never inserts and never posts: however
      the run goes on it answers with that first row as it stood when it looked, whatever slot it asked for. */
  lemma {:induction false} RetryReturnsFirstRow(s: State, later: seq<Action>, id: nat, pid: nat)
    requires Inv(s) && id < |s.rows| && pid in s.procs && s.procs[pid].pc.Start?
    requires s.procs[pid].req.key == s.rows[id].key
    ensures var t := Exec(s, later);
      id < |t.rows| && t.rows[id].key == s.rows[id].key && t.rows[id].start == s.rows[id].start &&
      pid in t.procs && t.procs[pid].req == s.procs[pid].req &&
      Refused(t.procs[pid].pc, s.rows[id].key, s.rows[id].start)
    ensures AnsweredRow(s, later, id, pid)
  {
    if later != [] {
      var before := later[..|later| - 1];
      RetryReturnsFirstRow(s, before, id, pid);
      ExecKeeps(s, before);
      RetryStep(Exec(s, before), later[|later| - 1], id, pid);
      AnsweredRowStep(s, later, id, pid);
    }
  }

  /** The request names a home. */
  predicate Names(req: Request) {
    req.code.Some? && req.code.value != ""
  }

  ghost predicate Lists(catalog: seq<Listing>, code: string) {
    exists i :: 0 <= i < |catalog| && catalog[i].code == code
  }

  /** The listing found and the address booked under: the first home with the code, whose address wins over the
      caller's unless it is missing or empty; no listing and the caller's address when none has the code. */
  ghost predicate FoundIn(catalog: seq<Listing>, req: Request, listing: Option<Listing>, address: Option<string>) {
    if Names(req) && Lists(catalog, req.code.value)
    then exists i: nat :: IsHome(catalog, req.code.value, i) && listing == Some(catalog[i]) &&
           address == if catalog[i].address.Some? && catalog[i].address.value != "" then catalog[i].address
                      else req.address
    else listing == None && address == req.address
  }

  lemma LocateIs(req: Request, catalog: seq<Listing>)
    ensures FoundIn(catalog, req, Locate(req, catalog).0, Locate(req, catalog).1)
  {
  }

  /** Found in the tenant's catalog of the moment. */
  ghost predicate FoundAt(s: State, req: Request, listing: Option<Listing>, address: Option<string>) {
    FoundIn(if req.tenant in s.catalogs then s.catalogs[req.tenant] else [], req, listing, address)
  }

  /** Found in the tenant's catalog at some moment of the run. */
  ghost predicate WasFound(acts: seq<Action>, req: Request, listing: Option<Listing>, address: Option<string>) {
    exists n :: 0 <= n <= |acts| && FoundAt(Exec(INIT, acts[..n]), req, listing, address)
  }

  ghost predicate InCatalog(s: State, tenant: string, code: string) {
    tenant in s.catalogs && Lists(s.catalogs[tenant], code)
  }

  /** At some moment of the run the tenant's catalog held a home with this code. */
  ghost predicate WasListed(acts: seq<Action>, tenant: string, code: string) {
    exists n :: 0 <= n <= |acts| && InCatalog(Exec(INIT, acts[..n]), tenant, code)
  }

  lemma FoundIsListed(acts: seq<Action>, req: Request, listing: Option<Listing>, address: Option<string>)
    requires WasFound(acts, req, listing, address) && listing.Some?
    ensures Names(req) && WasListed(acts, req.tenant, req.code.value)
  {
    var n :| 0 <= n <= |acts| && FoundAt(Exec(INIT, acts[..n]), req, listing, address);
    assert InCatalog(Exec(INIT, acts[..n]), req.tenant, req.code.value);
  }

  lemma FoundLater(acts: seq<Action>, a: Action, req: Request, listing: Option<Listing>, address: Option<string>)
    requires WasFound(acts, req, listing, address)
    ensures WasFound(acts + [a], req, listing, address)
  {
    var n :| 0 <= n <= |acts| && FoundAt(Exec(INIT, acts[..n]), req, listing, address);
    assert (acts + [a])[..n] == acts[..n];
  }

  lemma FoundNow(acts: seq<Action>, req: Request, listing: Option<Listing>, address: Option<string>)
    requires FoundAt(Exec(INIT, acts), req, listing, address)
    ensures WasFound(acts, req, listing, address)
  {
    assert acts[..|acts|] == acts;
  }

  /** The request has looked its home up and not booked it yet. */
  predicate LookedUp(p: Proc) {
    p.pc.Located? || p.pc.Inserted?
  }

  ghost predicate Grounded(acts: seq<Action>, p: Proc) {
    LookedUp(p) ==> WasFound(acts, p.req, p.pc.listing, p.pc.address)
  }

  /** A POST sends the address found, and no POST is made for a named home that was not found. */
  ghost predicate GroundedPost(acts: seq<Action>, p: Post) {
    exists listing, address :: WasFound(acts, p.req, listing, address) && (Names(p.req) ==> listing.Some?) &&
      p.code == p.req.code && p.address == if address.Some? then address.value else ""
  }

  ghost predicate AllGrounded(acts: seq<Action>) {
    var s := Exec(INIT, acts);
    (forall pid :: pid in s.procs ==> Grounded(acts, s.procs[pid])) &&
    (forall i :: 0 <= i < |s.posts| ==> GroundedPost(acts, s.posts[i]))
  }

  /** What a request looked up is found at the moment, or was found before. */
  lemma LookedUpFrom(s: State, a: Action, pid: nat)
    requires pid in Step(s, a).procs && LookedUp(Step(s, a).procs[pid])
    ensures var p := Step(s, a).procs[pid];
      || (pid in s.procs && LookedUp(s.procs[pid]) && s.procs[pid].req == p.req &&
          s.procs[pid].pc.listing == p.pc.listing && s.procs[pid].pc.address == p.pc.address)
      || FoundAt(s, p.req, p.pc.listing, p.pc.address)
  {
    if a.FindListing? && a.pid in s.procs {
      LocateIs(s.procs[a.pid].req, CatalogOf(s, s.procs[a.pid].req.tenant));
    }
  }

  lemma ProcGroundedStep(acts: seq<Action>, a: Action, s: State, pid: nat)
    requires s == Exec(INIT, acts) && AllGrounded(acts) && pid in Step(s, a).procs
    ensures Grounded(acts + [a], Step(s, a).procs[pid])
  {
    var p := Step(s, a).procs[pid];
    if LookedUp(p) {
      LookedUpFrom(s, a, pid);
      if !FoundAt(s, p.req, p.pc.listing, p.pc.address) {
        assert Grounded(acts, s.procs[pid]);
      } else {
        FoundNow(acts, p.req, p.pc.listing, p.pc.address);
      }
      FoundLater(acts, a, p.req, p.pc.listing, p.pc.address);
    }
  }

  /** A POST is one logged before, noted or not, or the one the request has just made. */
  lemma PostFrom(s: State, a: Action, i: nat)
    requires i < |Step(s, a).posts|
    ensures var p := Step(s, a).posts[i];
      || (i < |s.posts| && p == s.posts[i].(reply := p.reply))
      || (a.Decide? && a.pid in s.procs && s.procs[a.pid].pc.Inserted? && p.req == s.procs[a.pid].req &&
          (Names(p.req) ==> s.procs[a.pid].pc.listing.Some?) && p.code == p.req.code &&
          p.address == (if s.procs[a.pid].pc.address.Some? then s.procs[a.pid].pc.address.value else ""))
  {
  }

  lemma PostGroundedStep(acts: seq<Action>, a: Action, s: State, i: nat)
    requires s == Exec(INIT, acts) && AllGrounded(acts) && i < |Step(s, a).posts|
    ensures GroundedPost(acts + [a], Step(s, a).posts[i])
  {
    PostFrom(s, a, i);
    var p := Step(s, a).posts[i];
    if i < |s.posts| && p == s.posts[i].(reply := p.reply) {
      assert GroundedPost(acts, s.posts[i]);
      var listing, address :| WasFound(acts, p.req, listing, address) && (Names(p.req) ==> listing.Some?) &&
        p.code == p.req.code && p.address == if address.Some? then address.value else "";
      FoundLater(acts, a, p.req, listing, address);
    } else {
      var q := s.procs[a.pid];
      assert Grounded(acts, q);
      FoundLater(acts, a, q.req, q.pc.listing, q.pc.address);
    }
  }

  lemma GroundedStep(acts: seq<Action>, a: Action, more: seq<Action>)
    requires AllGrounded(acts) && more == acts + [a]
    ensures AllGrounded(more)
  {
    var s := Exec(INIT, acts);
    assert more[..|acts|] == acts;
    var t := Step(s, a);
    assert t == Exec(INIT, more);
    forall pid | pid in t.procs
      ensures Grounded(more, t.procs[pid])
    {
      ProcGroundedStep(acts, a, s, pid);
    }
    forall i | 0 <= i < |t.posts|
      ensures GroundedPost(more, t.posts[i])
    {
      PostGroundedStep(acts, a, s, i);
    }
  }

  lemma {:induction false} AlwaysGrounded(acts: seq<Action>)
    ensures AllGrounded(acts)
  {
    if acts == [] {
      NothingGrounded();
    } else {
      var before, a := acts[..|acts| - 1], acts[|acts| - 1];
      AlwaysGrounded(before);
      assert acts == before + [a];
      GroundedStep(before, a, acts);
    }
  }

  lemma NothingGrounded()
    ensures AllGrounded([])
  {
  }

  /** No POST for a home outside the realtor's catalog: every POST that names a home names one the tenant's catalog
      held at some moment of the run, and sends the address that catalog had for it, the caller's when it had none. */
  lemma PostedHomesWereListed(acts: seq<Action>, i: nat)
    requires i < |Exec(INIT, acts).posts|
    ensures var p := Exec(INIT, acts).posts[i];
      && GroundedPost(acts, p)
      && (Names(p.req) ==> WasListed(acts, p.req.tenant, p.code.value))
  {
    AlwaysGrounded(acts);
    var p := Exec(INIT, acts).posts[i];
    assert GroundedPost(acts, p);
    var listing, address :| WasFound(acts, p.req, listing, address) && (Names(p.req) ==> listing.Some?) &&
      p.code == p.req.code && p.address == if address.Some? then address.value else "";
    if Names(p.req) {
      FoundIsListed(acts, p.req, listing, address);
    }
  }

  // ---------------------------------------------------------------- what a request is answered

  /** The row says what the request asked. */
  predicate Asks(r: Row, req: Request) {
    && r.key == req.key && r.tenant == req.tenant && r.code == req.code && r.start == req.start
    && r.phone == req.phone
  }

  predicate Says(r: Row, status: string, uid: Option<string>, synced: bool) {
    r.status == status && r.uid == uid && r.synced == synced
  }

  /** The row reports the calendar's reply: a raised one rejects it, a booking gives it its uid and status, and it is
      synced exactly when accepted. */
  predicate Reports(r: Row, reply: Reply) {
    match reply
    case Raised => Says(r, "rejected", None, false)
    case Booked(uid, status) => Says(r, status, Some(uid), status == "accepted")
  }

  predicate Accepts(reply: Reply) {
    reply.Booked? && reply.status == "accepted"
  }

  /** No request holds row `id`. */
  ghost predicate Free(s: State, id: nat) {
    id < |s.rows| && forall pid :: pid in s.procs ==> Held(s.procs[pid].pc) != Some(id)
  }

  /** What is left of a row no request holds. */
  lemma FreeStays(s: State, a: Action, id: nat)
    requires Free(s, id)
    ensures var t := Step(s, a);
      && Free(t, id) && t.rows[id] == s.rows[id]
      && (NoShowing(t.showings, id) <==> NoShowing(s.showings, id)) && (NoPost(t.posts, id) <==> NoPost(s.posts, id))
  {
    FreeKeepsRow(s, a, id);
    FreeKeepsLogs(s, a, id);
  }

  lemma FreeKeepsRow(s: State, a: Action, id: nat)
    requires Free(s, id)
    ensures Free(Step(s, a), id) && Step(s, a).rows[id] == s.rows[id]
  {
  }

  lemma FreeKeepsLogs(s: State, a: Action, id: nat)
    requires Free(s, id)
    ensures NoShowing(Step(s, a).showings, id) <==> NoShowing(s.showings, id)
    ensures NoPost(Step(s, a).posts, id) <==> NoPost(s.posts, id)
  {
    var t := Step(s, a);
    if a.Decide? || a.Remember? {
      assert forall i :: 0 <= i < |s.posts| ==> t.posts[i] == s.posts[i];
      assert forall i :: 0 <= i < |s.showings| ==> t.showings[i] == s.showings[i];
    }
  }

  /** The request is done with row `id`, answered it and left it so. */
  ghost predicate Done(s: State, pid: nat, id: nat) {
    pid in s.procs && Free(s, id) && s.procs[pid].pc == Finished(Some(s.rows[id]))
  }

  lemma DoneStays(s: State, a: Action, pid: nat, id: nat)
    requires Done(s, pid, id)
    ensures Done(Step(s, a), pid, id)
  {
    FreeStays(s, a, id);
  }

  /** Where a request can stand whose POST for row `id` was answered. */
  ghost predicate Reporting(s: State, pid: nat, id: nat, req: Request, reply: Reply) {
    && pid in s.procs && id < |s.rows| && Asks(s.rows[id], req)
    && (s.procs[pid].pc.Crashed? || (s.procs[pid].req == req &&
        match s.procs[pid].pc
        case Answered(i, _, r) => i == id && r == reply
        case Stored(i, _) => i == id && Reports(s.rows[id], reply) && Accepts(reply) && req.tenant != ""
        case Finished(_) => Done(s, pid, id) && Reports(s.rows[id], reply) &&
          (!NoShowing(s.showings, id) <==> Accepts(reply) && req.tenant != "")
        case _ => false))
  }

  lemma OwnReportStep(s: State, a: Action, pid: nat, id: nat, req: Request, reply: Reply)
    requires Inv(s) && Reporting(s, pid, id, req, reply) && (a == Store(pid) || a == Remember(pid))
    ensures Reporting(Step(s, a), pid, id, req, reply)
  {
    var p, t := s.procs[pid], Step(s, a);
    assert ProcOk(s.rows, s.posts, s.showings, p);
    RowKeepsIdentity(s, a, id);
    if Held(p.pc) == Some(id) {
      OthersElsewhere(s, pid, id);
      if p.pc.Stored? && a.Remember? {
        assert t.showings[|s.showings|].row == id;
      }
    }
  }

  lemma ReportingStep(s: State, a: Action, pid: nat, id: nat, req: Request, reply: Reply)
    requires Inv(s) && Reporting(s, pid, id, req, reply)
    ensures Reporting(Step(s, a), pid, id, req, reply)
  {
    if s.procs[pid].pc.Finished? {
      FinishedReportStep(s, a, pid, id, req, reply);
    } else if a == Store(pid) || a == Remember(pid) {
      OwnReportStep(s, a, pid, id, req, reply);
    } else if Held(s.procs[pid].pc) == Some(id) {
      OthersElsewhere(s, pid, id);
      HeldRowStays(s, a, pid, id);
    } else {
      RowKeepsIdentity(s, a, id);
      CrashedStays(s, a, pid);
    }
  }

  lemma FinishedReportStep(s: State, a: Action, pid: nat, id: nat, req: Request, reply: Reply)
    requires Reporting(s, pid, id, req, reply) && s.procs[pid].pc.Finished?
    ensures Reporting(Step(s, a), pid, id, req, reply)
  {
    DoneStays(s, a, pid, id);
    FreeStays(s, a, id);
    RequestStays(s, a, pid);
  }

  lemma RequestStays(s: State, a: Action, pid: nat)
    requires pid in s.procs
    ensures pid in Step(s, a).procs && Step(s, a).procs[pid].req == s.procs[pid].req
  {
  }

  lemma CrashedStays(s: State, a: Action, pid: nat)
    requires pid in s.procs && s.procs[pid].pc.Crashed?
    ensures pid in Step(s, a).procs && Step(s, a).procs[pid].pc.Crashed?
  {
  }

  /** Only its holder writes a row. */
  lemma HeldRowStays(s: State, a: Action, pid: nat, id: nat)
    requires pid in s.procs && id < |s.rows| && Held(s.procs[pid].pc) == Some(id)
    requires s.procs[pid].pc.Answered? || s.procs[pid].pc.Stored?
    requires forall q :: q in s.procs && q != pid ==> Held(s.procs[q].pc) != Some(id)
    requires a != Store(pid) && a != Remember(pid)
    ensures var t := Step(s, a);
      t.rows[id] == s.rows[id] && pid in t.procs && t.procs[pid].req == s.procs[pid].req &&
      (t.procs[pid].pc == s.procs[pid].pc || t.procs[pid].pc.Crashed?)
  {
    if Step(s, a).rows[id] != s.rows[id] {
      WriterHolds(s, a, id);
    }
  }

  /** A step that changes a row is a decision or a store of its holder. */
  lemma WriterHolds(s: State, a: Action, id: nat)
    requires id < |s.rows| && Step(s, a).rows[id] != s.rows[id]
    ensures (a.Decide? || a.Store?) && a.pid in s.procs && Held(s.procs[a.pid].pc) == Some(id)
  {
  }

  /** Event `n` of the run is the calendar's answer to the POST of request `pid`. */
  predicate AnsweredAt(acts: seq<Action>, n: nat, pid: nat, reply: Reply) {
    n < |acts| && acts[n] == Answer(pid, reply) &&
    var s := Exec(INIT, acts[..n]); pid in s.procs && s.procs[pid].pc.Posted?
  }

  lemma {:induction false} AnsweredReports(acts: seq<Action>, n: nat, pid: nat, reply: Reply)
    requires AnsweredAt(acts, n, pid, reply)
    ensures var p := Exec(INIT, acts[..n]).procs[pid];
      Reporting(Exec(INIT, acts), pid, p.pc.id, p.req, reply)
  {
    var before, p := acts[..|acts| - 1], Exec(INIT, acts[..n]).procs[pid];
    ExecKeeps(INIT, before);
    if n == |acts| - 1 {
      assert acts[..n] == before;
      assert ProcOk(Exec(INIT, before).rows, Exec(INIT, before).posts, Exec(INIT, before).showings, p);
    } else {
      assert before[..n] == acts[..n];
      AnsweredReports(before, n, pid, reply);
      ReportingStep(Exec(INIT, before), acts[|acts| - 1], pid, p.pc.id, p.req, reply);
    }
  }

  /** In every run, a finished request whose POST the calendar answered has answered, and left, the row of the
      request: rejected, without a uid and not synced when the POST failed; with the calendar's uid and status, and
      synced exactly when accepted, when it booked. A showing is kept exactly for an accepted booking of a known
      tenant. */
  lemma AnsweredRequestReports(acts: seq<Action>, n: nat, pid: nat, reply: Reply)
    requires AnsweredAt(acts, n, pid, reply)
    requires pid in Exec(INIT, acts).procs && Exec(INIT, acts).procs[pid].pc.Finished?
    ensures var s := Exec(INIT, acts);
      var req, id := Exec(INIT, acts[..n]).procs[pid].req, Exec(INIT, acts[..n]).procs[pid].pc.id;
      && id < |s.rows| && s.procs[pid].pc.response == Some(s.rows[id]) && Asks(s.rows[id], req)
      && (reply == Raised ==> s.rows[id].status == "rejected" && s.rows[id].uid == None && !s.rows[id].synced)
      && (forall uid, status :: reply == Booked(uid, status) ==>
            s.rows[id].status == status && s.rows[id].uid == Some(uid) && (s.rows[id].synced <==> status == "accepted"))
      && ((exists i :: 0 <= i < |s.showings| && s.showings[i].row == id) <==>
            reply.Booked? && reply.status == "accepted" && req.tenant != "")
  {
    AnsweredReports(acts, n, pid, reply);
  }

  /** Event `n` of the run decides what becomes of the row request `pid` has inserted. */
  predicate DecidedAt(acts: seq<Action>, n: nat, pid: nat, configured: bool) {
    n < |acts| && acts[n] == Decide(pid, configured) &&
    var s := Exec(INIT, acts[..n]); pid in s.procs && s.procs[pid].pc.Inserted?
  }

  /** The request was decided without a POST, and its row says so. */
  ghost predicate Unposted(s: State, pid: nat, id: nat, req: Request, status: string) {
    Done(s, pid, id) && Asks(s.rows[id], req) && Says(s.rows[id], status, None, false) && NoPost(s.posts, id)
  }

  lemma UnpostedStarts(s: State, pid: nat, configured: bool)
    requires Inv(s) && pid in s.procs && s.procs[pid].pc.Inserted?
    ensures var p, t := s.procs[pid], Step(s, Decide(pid, configured));
      var unlisted := Names(p.req) && p.pc.listing == None;
      unlisted || !configured ==> Unposted(t, pid, p.pc.id, p.req, if unlisted then "rejected" else "pending")
  {
    assert ProcOk(s.rows, s.posts, s.showings, s.procs[pid]);
    OthersElsewhere(s, pid, s.procs[pid].pc.id);
  }

  /** In every run, a request that names a home its catalog did not have leaves and answers a rejected row, and any
      other leaves and answers a pending one when no calendar is configured; neither is ever posted. */
  lemma {:induction false} UnpostedRequestReports(acts: seq<Action>, n: nat, pid: nat, configured: bool)
    requires DecidedAt(acts, n, pid, configured)
    ensures var p := Exec(INIT, acts[..n]).procs[pid];
      var unlisted := Names(p.req) && p.pc.listing == None;
      && WasFound(acts[..n], p.req, p.pc.listing, p.pc.address)
      && (unlisted || !configured ==>
            Unposted(Exec(INIT, acts), pid, p.pc.id, p.req, if unlisted then "rejected" else "pending"))
  {
    var before, p := acts[..|acts| - 1], Exec(INIT, acts[..n]).procs[pid];
    if n == |acts| - 1 {
      assert acts[..n] == before;
      AlwaysGrounded(before);
      assert Grounded(before, p);
      ExecKeeps(INIT, before);
      UnpostedStarts(Exec(INIT, before), pid, configured);
    } else {
      assert before[..n] == acts[..n];
      UnpostedRequestReports(before, n, pid, configured);
      if (Names(p.req) && p.pc.listing == None) || !configured {
        DoneStays(Exec(INIT, before), acts[|acts| - 1], pid, p.pc.id);
        FreeStays(Exec(INIT, before), acts[|acts| - 1], p.pc.id);
      }
    }
  }

  lemma FinishedStays(s: State, a: Action, pid: nat)
    requires pid in s.procs && s.procs[pid].pc.Finished?
    ensures pid in Step(s, a).procs && Step(s, a).procs[pid] == s.procs[pid]
  {
  }

  /** In every run, a request that loses the insert race to its own key adds no row and never answers. */
  lemma {:induction false} LostInsertRaises(acts: seq<Action>, n: nat, pid: nat)
    requires n < |acts| && acts[n] == Insert(pid)
    requires var s := Exec(INIT, acts[..n]);
      && pid in s.procs && s.procs[pid].pc.Located?
      && exists i :: 0 <= i < |s.rows| && s.rows[i].key == s.procs[pid].req.key
    ensures Exec(INIT, acts[..n + 1]).rows == Exec(INIT, acts[..n]).rows
    ensures pid in Exec(INIT, acts).procs && Exec(INIT, acts).procs[pid].pc == Finished(None)
  {
    var before := acts[..|acts| - 1];
    assert acts[..n + 1][..n] == acts[..n];
    if n == |acts| - 1 {
      assert acts[..n + 1] == acts;
    } else {
      assert before[..n] == acts[..n] && before[..n + 1] == acts[..n + 1];
      LostInsertRaises(before, n, pid);
      FinishedStays(Exec(INIT, before), acts[|acts| - 1], pid);
    }
  }

  // ---------------------------------------------------------------- one request on its own

  /** The eight steps of request `pid` with nothing in between. */
  function Alone(pid: nat, req: Request, configured: bool, reply: Reply): seq<Action> {
    [Arrive(pid, req), Lookup(pid), FindListing(pid), Insert(pid), Decide(pid, configured),
     Answer(pid, reply), Store(pid), Remember(pid)]
  }

  function RunAlone(s: State, pid: nat, req: Request, configured: bool, reply: Reply): State {
    Finish(Begin(s, pid, req), pid, configured, reply)
  }

  function Begin(s: State, pid: nat, req: Request): State {
    Step(Step(Step(Step(s, Arrive(pid, req)), Lookup(pid)), FindListing(pid)), Insert(pid))
  }

  function Finish(s: State, pid: nat, configured: bool, reply: Reply): State {
    Step(Step(Step(Step(s, Decide(pid, configured)), Answer(pid, reply)), Store(pid)), Remember(pid))
  }

  lemma ExecSnoc(s: State, acts: seq<Action>, a: Action)
    ensures Exec(s, acts + [a]) == Step(Exec(s, acts), a)
  {
    assert (acts + [a])[..|acts|] == acts;
  }

  /** Running a request alone is one of the interleavings. */
  lemma RunAloneIsARun(s: State, pid: nat, req: Request, configured: bool, reply: Reply)
    ensures Exec(s, Alone(pid, req, configured, reply)) == RunAlone(s, pid, req, configured, reply)
  {
    var acts := Alone(pid, req, configured, reply);
    assert acts == [] + [acts[0]] + [acts[1]] + [acts[2]] + [acts[3]] + [acts[4]] + [acts[5]] + [acts[6]] + [acts[7]];
    ExecSnoc(s, [], acts[0]);
    ExecSnoc(s, acts[..1], acts[1]);
    ExecSnoc(s, acts[..2], acts[2]);
    ExecSnoc(s, acts[..3], acts[3]);
    ExecSnoc(s, acts[..4], acts[4]);
    ExecSnoc(s, acts[..5], acts[5]);
    ExecSnoc(s, acts[..6], acts[6]);
    ExecSnoc(s, acts[..7], acts[7]);
    assert acts[..1] == [] + [acts[0]] && acts[..2] == acts[..1] + [acts[1]] && acts[..3] == acts[..2] + [acts[2]] &&
      acts[..4] == acts[..3] + [acts[3]] && acts[..5] == acts[..4] + [acts[4]] && acts[..6] == acts[..5] + [acts[5]] &&
      acts[..7] == acts[..6] + [acts[6]] && acts == acts[..7] + [acts[7]];
  }

  lemma BeginTaken(s: State, pid: nat, req: Request)
    requires pid !in s.procs && FindRow(s.rows, req.key).Some?
    ensures Begin(s, pid, req) ==
            s.(procs := s.procs[pid := Proc(req, Finished(Some(s.rows[FindRow(s.rows, req.key).value])))])
  {
    var t := Step(Step(s, Arrive(pid, req)), Lookup(pid));
    assert t.procs[pid].pc.Finished?;
  }

  lemma BeginFresh(s: State, pid: nat, req: Request)
    requires pid !in s.procs && FindRow(s.rows, req.key).None?
    ensures var (listing, address) := Locate(req, CatalogOf(s, req.tenant));
      Begin(s, pid, req) == s.(rows := s.rows + [PendingRow(req, address)],
                               procs := s.procs[pid := Proc(req, Inserted(|s.rows|, listing, address))])
  {
    var (listing, address) := Locate(req, CatalogOf(s, req.tenant));
    var s2 := Step(Step(s, Arrive(pid, req)), Lookup(pid));
    assert s2 == s.(procs := s.procs[pid := Proc(req, Absent)]);
    var s3 := Step(s2, FindListing(pid));
    assert s3 == s.(procs := s.procs[pid := Proc(req, Located(listing, address))]);
  }

  lemma FinishDone(s: State, pid: nat, configured: bool, reply: Reply)
    requires pid in s.procs && s.procs[pid].pc.Finished?
    ensures Finish(s, pid, configured, reply) == s
  {
  }

  lemma FinishEarly(s: State, pid: nat, configured: bool, reply: Reply)
    requires pid in s.procs && s.procs[pid].pc.Inserted? && s.procs[pid].pc.id < |s.rows|
    requires !configured || (Truthy(s.procs[pid].req.code) && s.procs[pid].pc.listing.None?)
    ensures Finish(s, pid, configured, reply) == DecideStep(s, pid, configured)
  {
    var t := DecideStep(s, pid, configured);
    assert t.procs[pid].pc.Finished?;
  }

  lemma FinishPosted(s: State, pid: nat, reply: Reply)
    requires pid in s.procs && s.procs[pid].pc.Inserted? && s.procs[pid].pc.id < |s.rows|
    requires !(Truthy(s.procs[pid].req.code) && s.procs[pid].pc.listing.None?)
    ensures var t := Finish(s, pid, true, reply);
      var req, id, address := s.procs[pid].req, s.procs[pid].pc.id, s.procs[pid].pc.address;
      var row := Settled(s.rows[id], reply);
      t.posts == NoteReply(s.posts + [Post(req, id, req.code, OrEmpty(address), req.start, None)], id, reply) &&
      t.rows == s.rows[id := row] && pid in t.procs && t.procs[pid].pc == Finished(Some(row)) &&
      t.showings == s.showings + (if row.status == "accepted" && reply.Booked? && req.tenant != ""
        then [Showing(id, req.tenant, req.phone, req.code, address, req.start)] else [])
  {
    var req, id, address := s.procs[pid].req, s.procs[pid].pc.id, s.procs[pid].pc.address;
    var s1 := DecideStep(s, pid, true);
    assert s1.procs[pid] == Proc(req, Posted(id, address));
    var s2 := AnswerStep(s1, pid, reply);
    assert s2.procs[pid] == Proc(req, Answered(id, address, reply)) && s2.rows == s.rows;
    var s3 := StoreStep(s2, pid);
    assert s3.rows == s.rows[id := Settled(s.rows[id], reply)];
    assert s3.posts == s2.posts;
  }

  /** The row a request inserts and how it is left, when it is served without interference: rejected for a home the
      catalog does not list, pending without a calendar, else as the calendar replied. */
  ghost predicate ServedRow(req: Request, catalog: seq<Listing>, configured: bool, reply: Reply, r: Row) {
    && Asks(r, req)
    && (exists listing :: FoundIn(catalog, req, listing, r.address))
    && if Names(req) && !Lists(catalog, req.code.value) then Says(r, "rejected", None, false)
       else if !configured then Says(r, "pending", None, false)
       else Reports(r, reply)
  }

  /** What it adds to the calendar's log and to the memory events. */
  ghost predicate ServedLogs(s: State, req: Request, catalog: seq<Listing>, configured: bool, reply: Reply, t: State,
                             r: Row) {
    var id, posted := |s.rows|, configured && !(Names(req) && !Lists(catalog, req.code.value));
    var address := if r.address.Some? then r.address.value else "";
    && |t.posts| == |s.posts| + (if posted then 1 else 0)
    && (forall i :: 0 <= i < |s.posts| && s.posts[i].row != id ==> t.posts[i] == s.posts[i])
    && (posted ==> t.posts[|s.posts|] == Post(req, id, req.code, address, req.start, Some(reply)))
    && t.showings == s.showings +
         (if posted && Accepts(reply) && req.tenant != ""
          then [Showing(id, req.tenant, req.phone, req.code, r.address, req.start)] else [])
  }

  /** One request served without interference: an earlier row under its key is its answer and nothing changes; else
      it adds its row and answers it. */
  ghost predicate Served(s: State, req: Request, catalog: seq<Listing>, configured: bool, reply: Reply, t: State,
                         response: Row) {
    if exists i :: 0 <= i < |s.rows| && s.rows[i].key == req.key
    then t.rows == s.rows && t.posts == s.posts && t.showings == s.showings &&
         response in s.rows && response.key == req.key
    else t.rows == s.rows + [response] && ServedRow(req, catalog, configured, reply, response) &&
         ServedLogs(s, req, catalog, configured, reply, t, response)
  }

  lemma FreshIsServed(s: State, pid: nat, req: Request, catalog: seq<Listing>, configured: bool, reply: Reply)
    requires pid !in s.procs && FindRow(s.rows, req.key).None? && CatalogOf(s, req.tenant) == catalog
    ensures var t := RunAlone(s, pid, req, configured, reply);
      && pid in t.procs && t.procs[pid].pc.Finished? && t.procs[pid].pc.response.Some?
      && var r := t.procs[pid].pc.response.value;
         t.rows == s.rows + [r] && ServedRow(req, catalog, configured, reply, r) &&
         ServedLogs(s, req, catalog, configured, reply, t, r)
  {
    BeginFresh(s, pid, req);
    LocateIs(req, catalog);
    var (listing, address) := Locate(req, catalog);
    var b := Begin(s, pid, req);
    if !configured || (Names(req) && listing.None?) {
      EarlyIsServed(s, b, pid, req, catalog, configured, reply, listing, address);
    } else {
      PostedIsServed(s, b, pid, req, catalog, reply, listing, address);
    }
  }

  /** The request has just inserted its row. */
  ghost predicate Begun(s: State, b: State, pid: nat, req: Request, catalog: seq<Listing>, listing: Option<Listing>,
                        address: Option<string>) {
    && FoundIn(catalog, req, listing, address)
    && b == s.(rows := s.rows + [PendingRow(req, address)],
               procs := s.procs[pid := Proc(req, Inserted(|s.rows|, listing, address))])
  }

  lemma EarlyIsServed(s: State, b: State, pid: nat, req: Request, catalog: seq<Listing>, configured: bool,
                      reply: Reply, listing: Option<Listing>, address: Option<string>)
    requires Begun(s, b, pid, req, catalog, listing, address) && (!configured || (Names(req) && listing.None?))
    ensures var t := Finish(b, pid, configured, reply);
      && pid in t.procs && t.procs[pid].pc.Finished? && t.procs[pid].pc.response.Some?
      && var r := t.procs[pid].pc.response.value;
         t.rows == s.rows + [r] && ServedRow(req, catalog, configured, reply, r) &&
         ServedLogs(s, req, catalog, configured, reply, t, r)
  {
    FinishEarly(b, pid, configured, reply);
  }

  lemma PostedIsServed(s: State, b: State, pid: nat, req: Request, catalog: seq<Listing>, reply: Reply,
                       listing: Option<Listing>, address: Option<string>)
    requires Begun(s, b, pid, req, catalog, listing, address) && !(Names(req) && listing.None?)
    ensures var t := Finish(b, pid, true, reply);
      && pid in t.procs && t.procs[pid].pc.Finished? && t.procs[pid].pc.response.Some?
      && var r := t.procs[pid].pc.response.value;
         t.rows == s.rows + [r] && ServedRow(req, catalog, true, reply, r) &&
         ServedLogs(s, req, catalog, true, reply, t, r)
  {
    FinishPosted(b, pid, reply);
  }

  /** A request served alone is served as it should be. */
  lemma AloneIsServed(s: State, pid: nat, req: Request, catalog: seq<Listing>, configured: bool, reply: Reply)
    requires pid !in s.procs && catalog == if req.tenant in s.catalogs then s.catalogs[req.tenant] else []
    ensures var t := RunAlone(s, pid, req, configured, reply);
      && pid in t.procs && t.procs[pid].pc.Finished? && t.procs[pid].pc.response.Some?
      && Served(s, req, catalog, configured, reply, t, t.procs[pid].pc.response.value)
  {
    if FindRow(s.rows, req.key).Some? {
      BeginTaken(s, pid, req);
      FinishDone(Begin(s, pid, req), pid, configured, reply);
    } else {
      FreshIsServed(s, pid, req, catalog, configured, reply);
    }
  }

  lemma ServedInTables(s: State, req: Request, catalog: seq<Listing>, configured: bool, reply: Reply, t: State,
                       u: State, response: Row)
    requires Served(s, req, catalog, configured, reply, t, response)
    requires u.rows == t.rows && u.posts == t.posts && u.showings == t.showings
    ensures Served(s, req, catalog, configured, reply, u, response)
  {
  }

  /** The bookings table, the calendar and the memory events, changed in place by one request. */
  class Backend {
    var rows: seq<Row>
    var posts: seq<Post>
    var showings: seq<Showing>

    /** The tables with one tenant's catalog and no request in flight. */
    function View(tenant: string, catalog: seq<Listing>): State
      reads this
    {
      State(rows, posts, showings, map[], map[tenant := catalog])
    }

    constructor ()
      ensures rows == [] && posts == [] && showings == []
    {
      rows, posts, showings := [], [], [];
    }

    method InsertPending(row: Row) returns (id: nat)
      requires FindRow(rows, row.key).None?
      modifies this`rows
      ensures id == |old(rows)| && rows == old(rows) + [row]
    {
      id := |rows|;
      rows := rows + [row];
    }

    method SetResult(id: nat, uid: Option<string>, status: string, synced: bool) returns (row: Row)
      requires id < |rows|
      modifies this`rows
      ensures row == old(rows[id]).(uid := uid, status := status, synced := synced)
      ensures rows == old(rows)[id := row]
    {
      row := rows[id].(uid := uid, status := status, synced := synced);
      rows := rows[id := row];
    }

    /** One request served without interference is served as it should be, and takes exactly the eight protocol
        steps, so everything proved of all runs holds of it. */
    method BookShowing(req: Request, catalog: seq<Listing>, configured: bool, reply: Reply)
      returns (response: Row)
      modifies this
      ensures Served(old(View(req.tenant, catalog)), req, catalog, configured, reply, View(req.tenant, catalog),
                     response)
      ensures var t := RunAlone(old(View(req.tenant, catalog)), 0, req, configured, reply);
        rows == t.rows && posts == t.posts && showings == t.showings &&
        0 in t.procs && t.procs[0].pc == Finished(Some(response))
    {
      ghost var s := View(req.tenant, catalog);
      response := TakeSteps(req, catalog, configured, reply);
      AloneIsServed(s, 0, req, catalog, configured, reply);
      ServedInTables(s, req, catalog, configured, reply, RunAlone(s, 0, req, configured, reply),
                     View(req.tenant, catalog), response);
    }

    method TakeSteps(req: Request, catalog: seq<Listing>, configured: bool, reply: Reply)
      returns (response: Row)
      modifies this
      ensures var t := RunAlone(old(View(req.tenant, catalog)), 0, req, configured, reply);
        rows == t.rows && posts == t.posts && showings == t.showings &&
        0 in t.procs && t.procs[0].pc == Finished(Some(response))
    {
      ghost var s := View(req.tenant, catalog);
      var existing := FindRow(rows, req.key);
      if existing.Some? {
        BeginTaken(s, 0, req);
        FinishDone(Begin(s, 0, req), 0, configured, reply);
        return rows[existing.value];
      }
      var listing, address := Ground(req, catalog);
      var id := InsertPending(PendingRow(req, address));
      BeginFresh(s, 0, req);
      ghost var t := Begin(s, 0, req);
      if Truthy(req.code) && listing.None? {
        FinishEarly(t, 0, configured, reply);
        response := SetResult(id, None, "rejected", false);
        return;
      }
      if !configured {
        FinishEarly(t, 0, configured, reply);
        return rows[id];
      }
      FinishPosted(t, 0, reply);
      response := PostAndStore(req, id, address, reply);
    }

    /** The home a request names and the address it books under. */
    method Ground(req: Request, catalog: seq<Listing>)
      returns (listing: Option<Listing>, address: Option<string>)
      ensures (listing, address) == Locate(req, catalog)
    {
      listing, address := None, req.address;
      if Truthy(req.code) {
        listing := FindCode(catalog, req.code.value);
        if listing.Some? && Truthy(listing.value.address) {
          address := listing.value.address;
        }
      }
    }

    /** The calendar POST, the result write and the memory event. */
    method PostAndStore(req: Request, id: nat, address: Option<string>, reply: Reply)
      returns (response: Row)
      requires id < |rows|
      modifies this
      ensures response == Settled(old(rows[id]), reply) && rows == old(rows)[id := response]
      ensures Reports(response, reply)
      ensures posts == NoteReply(
          old(posts) + [Post(req, id, req.code, OrEmpty(address), req.start, None)], id, reply)
      ensures showings == old(showings) + (
          if response.status == "accepted" && reply.Booked? && req.tenant != ""
          then [Showing(id, req.tenant, req.phone, req.code, address, req.start)] else [])
    {
      posts := posts + [Post(req, id, req.code, OrEmpty(address), req.start, None)];
      posts := NoteReply(posts, id, reply);
      match reply {
        case Raised =>
          response := SetResult(id, None, "rejected", false);
        case Booked(uid, status) =>
          response := SetResult(id, Some(uid), status, status == "accepted");
          if status == "accepted" && req.tenant != "" {
            showings := showings + [Showing(id, req.tenant, req.phone, req.code, address, req.start)];
          }
      }
    }
  }
}
