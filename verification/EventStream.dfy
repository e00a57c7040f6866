/**
 The server-sent event stream of live calls: reporting an agent's state publishes the tenant's fresh
 snapshot to every open stream, and a stream opens with a snapshot of its own. Requests run as atomic
 steps of one event loop, because nothing in them awaits between reading the registry and publishing.
 */
module EventStream {
  import opened Prelude
  import opened LiveAgents
  import G = AgentGraph

  /** What a stream has written: a data frame or a keep-alive comment. */
  datatype Chunk = Data(frame: Frame) | KeepAlive

  /** `since` is how many payloads had been published when the stream subscribed. */
  datatype Stream = Stream(tenant: string, sent: seq<Chunk>, queue: seq<Frame>, initial: Frame, since: nat)

  datatype Published = Published(tenant: string, frame: Frame)

  /** `log` is the history of payloads, `clock` the latest clock reading. */
  datatype State = State(calls: seq<Call>, streams: map<nat, Stream>, log: seq<Published>, clock: real)

  const INIT := State([], map[], [], 0.0)

  datatype Event =
    | AgentState(at: real, readAt: real, key: Key, active: string, action: string, from: Option<string>)
    | Peek(at: real, tenant: string)
    | Open(sid: nat, at: real, tenant: string)
    | Deliver(sid: nat)
    | Idle(sid: nat)
    | Close(sid: nat)

  /** `publish`: one payload at the end of each of the tenant's queues. */
  function Fan(streams: map<nat, Stream>, tenant: string, frame: Frame): map<nat, Stream> {
    map sid | sid in streams ::
      if streams[sid].tenant == tenant then streams[sid].(queue := streams[sid].queue + [frame]) else streams[sid]
  }

  function Later(clock: real, at: real): real {
    if at < clock then clock else at
  }

  /** One atomic step; clock readings never go back. A report naming an unknown specialist is refused. */
  function Step(s: State, e: Event, ttl: real): State {
    match e
    case AgentState(at, readAt, key, active, action, from) =>
      if active !in AGENTS then s
      else
        var now := Later(s.clock, at);
        var later := Later(now, readAt);
        var swept := Sweep(Update(s.calls, key, active, action, from, now), later, ttl);
        var frame := OfTenant(swept, key.tenant);
        State(swept, Fan(s.streams, key.tenant, frame), s.log + [Published(key.tenant, frame)], later)
    case Peek(at, tenant) =>
      var now := Later(s.clock, at);
      s.(calls := Sweep(s.calls, now, ttl), clock := now)
    case Open(sid, at, tenant) =>
      if sid in s.streams then s
      else
        var now := Later(s.clock, at);
        var swept := Sweep(s.calls, now, ttl);
        var frame := OfTenant(swept, tenant);
        State(swept, s.streams[sid := Stream(tenant, [Data(frame)], [], frame, |s.log|)], s.log, now)
    case Deliver(sid) =>
      if sid !in s.streams || s.streams[sid].queue == [] then s
      else
        var st := s.streams[sid];
        s.(streams := s.streams[sid := st.(sent := st.sent + [Data(st.queue[0])], queue := st.queue[1..])])
    case Idle(sid) =>
      if sid !in s.streams || s.streams[sid].queue != [] then s
      else s.(streams := s.streams[sid := s.streams[sid].(sent := s.streams[sid].sent + [KeepAlive])])
    case Close(sid) => s.(streams := s.streams - {sid})
  }

  function Exec(events: seq<Event>, ttl: real): State {
    if events == [] then INIT else Step(Exec(events[..|events| - 1], ttl), events[|events| - 1], ttl)
  }

  /** The data frames among what a stream has sent. */
  function Frames(sent: seq<Chunk>): seq<Frame> {
    if sent == [] then []
    else
      var front := Frames(sent[..|sent| - 1]);
      match sent[|sent| - 1]
      case Data(f) => front + [f]
      case KeepAlive => front
  }

  /** The payloads published to a tenant, in order. */
  function PublishedTo(log: seq<Published>, tenant: string): seq<Frame> {
    if log == [] then []
    else
      var front := PublishedTo(log[..|log| - 1], tenant);
      if log[|log| - 1].tenant == tenant then front + [log[|log| - 1].frame] else front
  }

  // ---------------------------------------------------------------- the endpoints, over the registry object

  /** The queues of a tenant's open streams. */
  function QueuesOf(streams: map<nat, Stream>, queues: map<nat, EventQueue>, tenant: string): set<EventQueue>
    requires streams.Keys == queues.Keys
  {
    set sid | sid in streams && streams[sid].tenant == tenant :: queues[sid]
  }

  predicate Distinct(queues: map<nat, EventQueue>) {
    forall i, j :: i in queues && j in queues && i != j ==> queues[i] != queues[j]
  }

  /** The frames waiting in each stream's queue. */
  function Waiting(queues: map<nat, EventQueue>): map<nat, seq<Frame>>
    reads queues.Values
  {
    map sid | sid in queues :: queues[sid].items
  }

  /** The streams are what the queues hold and what was written. */
  ghost predicate Shows(streams: map<nat, Stream>, waiting: map<nat, seq<Frame>>, sent: map<nat, seq<Chunk>>) {
    && streams.Keys == waiting.Keys == sent.Keys
    && (forall sid :: sid in streams ==> waiting[sid] == streams[sid].queue && sent[sid] == streams[sid].sent)
  }

  /** The registry knows exactly the open streams' queues, each under its tenant. */
  ghost predicate Wired(streams: map<nat, Stream>, queues: map<nat, EventQueue>, registry: Registry)
    reads registry
  {
    && streams.Keys == queues.Keys && Distinct(queues)
    && (forall t :: registry.Subscribers(t) == QueuesOf(streams, queues, t))
  }

  /** Publishing to the tenant's queues fans the frame out to the tenant's streams and to no other. */
  lemma PublishIsFan(streams: map<nat, Stream>, queues: map<nat, EventQueue>, tenant: string, frame: Frame,
                     was: map<nat, seq<Frame>>, now: map<nat, seq<Frame>>, sent: map<nat, seq<Chunk>>)
    requires streams.Keys == queues.Keys && Distinct(queues) && Shows(streams, was, sent) && now.Keys == was.Keys
    requires forall sid :: sid in queues ==>
      now[sid] == if queues[sid] in QueuesOf(streams, queues, tenant) then was[sid] + [frame] else was[sid]
    ensures Shows(Fan(streams, tenant, frame), now, sent)
    ensures forall t :: QueuesOf(Fan(streams, tenant, frame), queues, t) == QueuesOf(streams, queues, t)
  {
    forall sid | sid in streams
      ensures queues[sid] in QueuesOf(streams, queues, tenant) <==> streams[sid].tenant == tenant
    {
    }
  }

  lemma Opened(was: map<nat, Stream>, before: map<nat, EventQueue>, now: map<nat, Stream>, after: map<nat, EventQueue>,
               sid: nat, q: EventQueue)
    requires was.Keys == before.Keys && sid !in was && sid in now
    requires now == was[sid := now[sid]] && after == before[sid := q]
    ensures forall t :: QueuesOf(now, after, t) == QueuesOf(was, before, t) + (if t == now[sid].tenant then {q} else {})
  {
    forall t ensures QueuesOf(now, after, t) == QueuesOf(was, before, t) + (if t == now[sid].tenant then {q} else {}) {
      assert forall id :: id in was ==> now[id] == was[id] && after[id] == before[id];
    }
  }

  lemma Closed(was: map<nat, Stream>, before: map<nat, EventQueue>, sid: nat)
    requires was.Keys == before.Keys && sid in was && Distinct(before)
    ensures forall t :: QueuesOf(was - {sid}, before - {sid}, t) ==
                        QueuesOf(was, before, t) - (if t == was[sid].tenant then {before[sid]} else {})
  {
    forall t ensures QueuesOf(was - {sid}, before - {sid}, t) ==
                     QueuesOf(was, before, t) - (if t == was[sid].tenant then {before[sid]} else {}) {
      var more, less := was - {sid}, before - {sid};
      assert forall id :: id in more ==> more[id] == was[id] && less[id] == before[id] && before[id] != before[sid];
    }
  }

  /** Publishing through the registry is the fan-out of the step machine. */
  method PublishToStreams(registry: Registry, tenant: string, frame: Frame,
                          ghost streams: map<nat, Stream>, ghost queues: map<nat, EventQueue>,
                          ghost sent: map<nat, seq<Chunk>>)
    requires registry.Valid() && Wired(streams, queues, registry) && Shows(streams, Waiting(queues), sent)
    modifies registry.Subscribers(tenant)
    ensures registry.Valid() && Values(registry.calls) == old(Values(registry.calls))
    ensures Wired(Fan(streams, tenant, frame), queues, registry)
    ensures Shows(Fan(streams, tenant, frame), Waiting(queues), sent)
  {
    ghost var was := Waiting(queues);
    registry.Publish(tenant, frame);
    PublishIsFan(streams, queues, tenant, frame, was, Waiting(queues), sent);
  }

  /** The call's report, and the tenant's snapshot after it. */
  method ReportAndRead(registry: Registry, at: real, readAt: real, key: Key, active: string, action: string,
                       from: Option<string>)
    returns (frame: Frame)
    requires registry.Valid()
    modifies registry`calls, registry.calls
    ensures registry.Valid()
    ensures Values(registry.calls) ==
            Sweep(Update(old(Values(registry.calls)), key, active, action, from, at), readAt, registry.ttl)
    ensures frame == OfTenant(Values(registry.calls), key.tenant)
  {
    registry.Report(key, active, action, from, at);
    var snapshot := registry.SnapshotCalls(key.tenant, readAt);
    frame := Values(snapshot);
  }

  lemma AgentStateFans(s: State, at: real, readAt: real, key: Key, active: string, action: string,
                       from: Option<string>, ttl: real)
    requires s.clock <= at <= readAt && active in AGENTS
    ensures var t := Step(s, AgentState(at, readAt, key, active, action, from), ttl);
      && t.calls == Sweep(Update(s.calls, key, active, action, from, at), readAt, ttl)
      && t.streams == Fan(s.streams, key.tenant, OfTenant(t.calls, key.tenant))
  {
  }

  /** `agent_state`: False is the refusal of an unknown specialist. */
  method PostAgentState(registry: Registry, at: real, readAt: real, key: Key, active: string, action: string,
                        from: Option<string>,
                        ghost s: State, ghost queues: map<nat, EventQueue>, ghost sent: map<nat, seq<Chunk>>)
    returns (ok: bool)
    requires registry.Valid() && Values(registry.calls) == s.calls && s.clock <= at <= readAt
    requires Wired(s.streams, queues, registry) && Shows(s.streams, Waiting(queues), sent)
    modifies registry`calls, registry.calls, registry.Subscribers(key.tenant)
    ensures ok == (active in AGENTS)
    ensures var t := Step(s, AgentState(at, readAt, key, active, action, from), registry.ttl);
      && registry.Valid() && Values(registry.calls) == t.calls
      && Wired(t.streams, queues, registry) && Shows(t.streams, Waiting(queues), sent)
  {
    if active !in AGENTS {
      return false;
    }
    var frame := ReportAndRead(registry, at, readAt, key, active, action, from);
    AgentStateFans(s, at, readAt, key, active, action, from, registry.ttl);
    PublishToStreams(registry, key.tenant, frame, s.streams, queues, sent);
    return true;
  }

  /** A new stream's own empty queue, under its tenant. */
  method SubscribeStream(registry: Registry, sid: nat, tenant: string, ghost st: Stream,
                         ghost streams: map<nat, Stream>, queues: map<nat, EventQueue>,
                         ghost sent: map<nat, seq<Chunk>>)
    returns (queues': map<nat, EventQueue>)
    requires sid !in streams && st.tenant == tenant && st.queue == []
    requires Wired(streams, queues, registry) && Shows(streams, Waiting(queues), sent)
    modifies registry`queues
    ensures Wired(streams[sid := st], queues', registry)
    ensures Shows(streams[sid := st], Waiting(queues'), sent[sid := st.sent])
  {
    var q := registry.Subscribe(tenant);
    queues' := queues[sid := q];
    Opened(streams, queues, streams[sid := st], queues', sid, q);
  }

  lemma OpenAdds(s: State, sid: nat, at: real, tenant: string, ttl: real)
    requires sid !in s.streams && s.clock <= at
    ensures var t, frame := Step(s, Open(sid, at, tenant), ttl), Snapshot(s.calls, tenant, at, ttl);
      && t.calls == Sweep(s.calls, at, ttl)
      && t.streams == s.streams[sid := Stream(tenant, [Data(frame)], [], frame, |s.log|)]
  {
  }

  /** `_event_stream`: a new stream subscribes, reads the tenant's snapshot and opens with it. */
  method OpenStream(registry: Registry, sid: nat, at: real, tenant: string,
                    ghost s: State, queues: map<nat, EventQueue>, sent: map<nat, seq<Chunk>>)
    returns (queues': map<nat, EventQueue>, sent': map<nat, seq<Chunk>>)
    requires registry.Valid() && Values(registry.calls) == s.calls && s.clock <= at && sid !in s.streams
    requires Wired(s.streams, queues, registry) && Shows(s.streams, Waiting(queues), sent)
    modifies registry`queues, registry`calls
    ensures var t := Step(s, Open(sid, at, tenant), registry.ttl);
      && registry.Valid() && Values(registry.calls) == t.calls
      && Wired(t.streams, queues', registry) && Shows(t.streams, Waiting(queues'), sent')
  {
    OpenAdds(s, sid, at, tenant, registry.ttl);
    ghost var st := Step(s, Open(sid, at, tenant), registry.ttl).streams[sid];
    queues' := SubscribeStream(registry, sid, tenant, st, s.streams, queues, sent);
    var snapshot := registry.SnapshotCalls(tenant, at);
    sent' := sent[sid := [Data(Values(snapshot))]];
  }

  /** A stream writes what waits in its queue, or a keep-alive when nothing came. */
  method WriteNext(sid: nat, ghost s: State, ghost ttl: real, queues: map<nat, EventQueue>, sent: map<nat, seq<Chunk>>)
    returns (sent': map<nat, seq<Chunk>>)
    requires sid in queues && Distinct(queues) && Shows(s.streams, Waiting(queues), sent)
    modifies queues[sid]
    ensures var e := if old(queues[sid].items) == [] then Idle(sid) else Deliver(sid);
      Shows(Step(s, e, ttl).streams, Waiting(queues), sent')
  {
    var q := queues[sid];
    if q.items == [] {
      sent' := sent[sid := sent[sid] + [KeepAlive]];
    } else {
      sent' := sent[sid := sent[sid] + [Data(q.items[0])]];
      q.items := q.items[1..];
    }
  }

  /** A stream that ends unsubscribes. */
  method CloseStream(registry: Registry, sid: nat, tenant: string,
                     ghost streams: map<nat, Stream>, queues: map<nat, EventQueue>, sent: map<nat, seq<Chunk>>)
    returns (queues': map<nat, EventQueue>, sent': map<nat, seq<Chunk>>)
    requires sid in streams && streams[sid].tenant == tenant
    requires Wired(streams, queues, registry) && Shows(streams, Waiting(queues), sent)
    modifies registry`queues
    ensures Wired(streams - {sid}, queues', registry) && Shows(streams - {sid}, Waiting(queues'), sent')
  {
    registry.Unsubscribe(tenant, queues[sid]);
    queues', sent' := queues - {sid}, sent - {sid};
    Closed(streams, queues, sid);
  }

  // ---------------------------------------------------------------- nothing missed, nothing twice

  /** Sent and queued frames are the opening snapshot and then what was published since. */
  ghost predicate Complete(st: Stream, log: seq<Published>) {
    st.since <= |log| &&
    Frames(st.sent) + st.queue == [st.initial] + PublishedTo(log[st.since..], st.tenant)
  }

  lemma FramesSnoc(sent: seq<Chunk>, c: Chunk)
    ensures Frames(sent + [c]) == match c case Data(f) => Frames(sent) + [f] case KeepAlive => Frames(sent)
  {
    assert (sent + [c])[..|sent|] == sent;
  }

  lemma PublishedSnoc(log: seq<Published>, p: Published, tenant: string)
    ensures PublishedTo(log + [p], tenant) == PublishedTo(log, tenant) + (if p.tenant == tenant then [p.frame] else [])
  {
    assert (log + [p])[..|log|] == log;
  }

  lemma PublishKeepsComplete(st: Stream, log: seq<Published>, p: Published)
    requires Complete(st, log)
    ensures Complete(if st.tenant == p.tenant then st.(queue := st.queue + [p.frame]) else st, log + [p])
  {
    assert (log + [p])[st.since..] == log[st.since..] + [p];
    PublishedSnoc(log[st.since..], p, st.tenant);
    var more := if st.tenant == p.tenant then [p.frame] else [];
    assert Frames(st.sent) + (st.queue + more) == (Frames(st.sent) + st.queue) + more;
    assert [st.initial] + (PublishedTo(log[st.since..], st.tenant) + more) ==
           ([st.initial] + PublishedTo(log[st.since..], st.tenant)) + more;
    assert st.queue + [] == st.queue;
  }

  lemma OpenIsComplete(st: Stream, log: seq<Published>)
    requires st.sent == [Data(st.initial)] && st.queue == [] && st.since == |log|
    ensures Complete(st, log)
  {
    FramesSnoc([], st.sent[0]);
    assert st.sent == [] + [st.sent[0]];
    assert log[|log|..] == [];
  }

  lemma DeliverKeepsComplete(st: Stream, log: seq<Published>)
    requires Complete(st, log) && st.queue != []
    ensures Complete(st.(sent := st.sent + [Data(st.queue[0])], queue := st.queue[1..]), log)
  {
    FramesSnoc(st.sent, Data(st.queue[0]));
    assert Frames(st.sent) + [st.queue[0]] + st.queue[1..] == Frames(st.sent) + st.queue;
  }

  ghost predicate AllComplete(s: State) {
    forall sid :: sid in s.streams ==> Complete(s.streams[sid], s.log)
  }

  lemma StepKeepsComplete(s: State, e: Event, ttl: real)
    requires AllComplete(s)
    ensures AllComplete(Step(s, e, ttl))
  {
    var t := Step(s, e, ttl);
    forall sid | sid in t.streams
      ensures Complete(t.streams[sid], t.log)
    {
      StreamKeepsComplete(s, e, ttl, sid);
    }
  }

  lemma StreamKeepsComplete(s: State, e: Event, ttl: real, sid: nat)
    requires sid in Step(s, e, ttl).streams && (sid in s.streams ==> Complete(s.streams[sid], s.log))
    ensures Complete(Step(s, e, ttl).streams[sid], Step(s, e, ttl).log)
  {
    var t := Step(s, e, ttl);
    match e
    case AgentState(_, _, key, active, _, _) =>
      if active in AGENTS {
        PublishKeepsComplete(s.streams[sid], s.log, t.log[|s.log|]);
      }
    case Open(id, _, tenant) =>
      if id == sid && sid !in s.streams {
        OpenIsComplete(t.streams[sid], t.log);
      }
    case Deliver(id) =>
      if id == sid && s.streams[sid].queue != [] {
        DeliverKeepsComplete(s.streams[sid], s.log);
      }
    case Idle(id) =>
      if id == sid {
        FramesSnoc(s.streams[sid].sent, KeepAlive);
      }
    case _ =>
  }

  /** For every open stream of every run, the frames sent followed by the frames queued are one opening
      snapshot and then exactly the payloads published to its tenant since it subscribed, in order,
      none missed and none twice. */
  lemma {:induction false} StreamsMissNothing(events: seq<Event>, ttl: real)
    ensures AllComplete(Exec(events, ttl))
  {
    if events != [] {
      StreamsMissNothing(events[..|events| - 1], ttl);
      StepKeepsComplete(Exec(events[..|events| - 1], ttl), events[|events| - 1], ttl);
    }
  }

  // ---------------------------------------------------------------- how old a drained stream is

  /** The newest frame of a stream, sent or queued. */
  function Newest(st: Stream): Frame {
    if st.queue != [] then st.queue[|st.queue| - 1]
    else if Frames(st.sent) != [] then Frames(st.sent)[|Frames(st.sent)| - 1]
    else st.initial
  }

  /** From now on, a fresh snapshot is the stream's newest frame minus what has expired. */
  ghost predicate UpToDate(st: Stream, calls: seq<Call>, clock: real, ttl: real) {
    forall now: real :: now >= clock ==> Snapshot(calls, st.tenant, now, ttl) == Sweep(Newest(st), now, ttl)
  }

  lemma {:induction false} SweepTwice(calls: seq<Call>, earlier: real, now: real, ttl: real)
    requires earlier <= now
    ensures Sweep(Sweep(calls, earlier, ttl), now, ttl) == Sweep(calls, now, ttl)
  {
    if calls != [] {
      var front, last := calls[..|calls| - 1], calls[|calls| - 1];
      SweepTwice(front, earlier, now, ttl);
      SweepSnoc(Sweep(front, earlier, ttl), last, now, ttl);
    }
  }

  lemma SweepSnoc(calls: seq<Call>, c: Call, now: real, ttl: real)
    ensures Sweep(calls + [c], now, ttl) == Sweep(calls, now, ttl) + (if Live(c, now, ttl) then [c] else [])
  {
    assert (calls + [c])[..|calls|] == calls;
  }

  lemma OfTenantSnoc(calls: seq<Call>, c: Call, tenant: string)
    ensures OfTenant(calls + [c], tenant) == OfTenant(calls, tenant) + (if c.tenant == tenant then [c] else [])
  {
    assert (calls + [c])[..|calls|] == calls;
  }

  /** Sweeping and selecting a tenant commute. */
  lemma {:induction false} SweepOfTenant(calls: seq<Call>, tenant: string, now: real, ttl: real)
    ensures Sweep(OfTenant(calls, tenant), now, ttl) == OfTenant(Sweep(calls, now, ttl), tenant)
  {
    if calls != [] {
      var front, last := calls[..|calls| - 1], calls[|calls| - 1];
      SweepOfTenant(front, tenant, now, ttl);
      SweepSnoc(OfTenant(front, tenant), last, now, ttl);
      OfTenantSnoc(Sweep(front, now, ttl), last, tenant);
    }
  }

  lemma {:induction false} OfTenantReplace(calls: seq<Call>, i: nat, c: Call, tenant: string)
    requires i < |calls| && calls[i].tenant == c.tenant != tenant
    ensures OfTenant(calls[i := c], tenant) == OfTenant(calls, tenant)
  {
    var front, next := calls[..|calls| - 1], calls[i := c];
    if i < |calls| - 1 {
      OfTenantReplace(front, i, c, tenant);
      assert next[..|calls| - 1] == front[i := c];
    } else {
      assert next[..|calls| - 1] == front;
    }
  }

  /** Another tenant's report leaves a tenant's calls alone. */
  lemma ReportElsewhere(calls: seq<Call>, key: Key, active: string, action: string, from: Option<string>, now: real,
                        tenant: string)
    requires key.tenant != tenant
    ensures OfTenant(Update(calls, key, active, action, from, now), tenant) == OfTenant(calls, tenant)
  {
    var i := IndexOf(calls, key);
    if i < |calls| {
      OfTenantReplace(calls, i, Refreshed(calls[i], active, action, from, now), tenant);
    } else {
      OfTenantSnoc(calls, NewCall(key, active, action, from, now), tenant);
    }
  }

  lemma SweptStaysUpToDate(st: Stream, calls: seq<Call>, clock: real, now: real, ttl: real)
    requires UpToDate(st, calls, clock, ttl) && clock <= now
    ensures UpToDate(st, Sweep(calls, now, ttl), now, ttl)
  {
    forall later: real | later >= now
      ensures Snapshot(Sweep(calls, now, ttl), st.tenant, later, ttl) == Sweep(Newest(st), later, ttl)
    {
      SweepTwice(calls, now, later, ttl);
    }
  }

  lemma FreshIsUpToDate(st: Stream, calls: seq<Call>, now: real, ttl: real)
    requires Newest(st) == OfTenant(Sweep(calls, now, ttl), st.tenant)
    ensures UpToDate(st, Sweep(calls, now, ttl), now, ttl)
  {
    forall later: real | later >= now
      ensures Snapshot(Sweep(calls, now, ttl), st.tenant, later, ttl) == Sweep(Newest(st), later, ttl)
    {
      SweepOfTenant(Sweep(calls, now, ttl), st.tenant, later, ttl);
    }
  }

  lemma ReportStaysUpToDate(st: Stream, calls: seq<Call>, e: Event, clock: real, now: real, ttl: real)
    requires e.AgentState? && e.key.tenant != st.tenant && UpToDate(st, calls, clock, ttl)
    ensures UpToDate(st, Update(calls, e.key, e.active, e.action, e.from, now), clock, ttl)
  {
    var next := Update(calls, e.key, e.active, e.action, e.from, now);
    forall later: real | later >= clock
      ensures Snapshot(next, st.tenant, later, ttl) == Sweep(Newest(st), later, ttl)
    {
      ReportElsewhere(calls, e.key, e.active, e.action, e.from, now, st.tenant);
      SweepOfTenant(next, st.tenant, later, ttl);
      SweepOfTenant(calls, st.tenant, later, ttl);
    }
  }

  ghost predicate AllUpToDate(s: State, ttl: real) {
    forall sid :: sid in s.streams ==> UpToDate(s.streams[sid], s.calls, s.clock, ttl)
  }

  lemma NewestKept(st: Stream)
    requires st.queue != []
    ensures Newest(st.(sent := st.sent + [Data(st.queue[0])], queue := st.queue[1..])) == Newest(st)
    ensures Newest(st.(queue := [])) == Newest(st.(sent := st.sent + [KeepAlive], queue := []))
  {
    FramesSnoc(st.sent, Data(st.queue[0]));
    FramesSnoc(st.sent, KeepAlive);
  }

  lemma StepKeepsUpToDate(s: State, e: Event, ttl: real)
    requires AllUpToDate(s, ttl)
    ensures AllUpToDate(Step(s, e, ttl), ttl)
  {
    var t := Step(s, e, ttl);
    forall sid | sid in t.streams
      ensures UpToDate(t.streams[sid], t.calls, t.clock, ttl)
    {
      match e
      case AgentState(at, readAt, key, active, action, from) =>
        if active in AGENTS {
          var now := Later(s.clock, at);
          var next := Update(s.calls, key, active, action, from, now);
          if s.streams[sid].tenant == key.tenant {
            FreshIsUpToDate(t.streams[sid], next, t.clock, ttl);
          } else {
            ReportStaysUpToDate(s.streams[sid], s.calls, e, s.clock, now, ttl);
            SweptStaysUpToDate(s.streams[sid], next, s.clock, t.clock, ttl);
          }
        }
      case Peek(_, _) => SweptStaysUpToDate(s.streams[sid], s.calls, s.clock, t.clock, ttl);
      case Open(id, _, tenant) =>
        if id !in s.streams {
          if sid == id {
            FramesSnoc([], t.streams[sid].sent[0]);
            assert t.streams[sid].sent == [] + [t.streams[sid].sent[0]];
            FreshIsUpToDate(t.streams[sid], s.calls, t.clock, ttl);
          } else {
            SweptStaysUpToDate(s.streams[sid], s.calls, s.clock, t.clock, ttl);
          }
        }
      case Deliver(id) =>
        if id == sid && s.streams[sid].queue != [] {
          NewestKept(s.streams[sid]);
        }
      case Idle(id) =>
        if id == sid {
          FramesSnoc(s.streams[sid].sent, KeepAlive);
        }
      case Close(_) =>
    }
  }

  lemma {:induction false} AlwaysUpToDate(events: seq<Event>, ttl: real)
    ensures AllUpToDate(Exec(events, ttl), ttl)
  {
    if events != [] {
      AlwaysUpToDate(events[..|events| - 1], ttl);
      StepKeepsUpToDate(Exec(events[..|events| - 1], ttl), events[|events| - 1], ttl);
    }
  }

  /** Once a stream is drained, what the browser last received is what a fresh snapshot would say, but
      for the calls that have expired since: the fresh snapshot is the last frame, swept. */
  lemma DrainedStreamIsFresh(events: seq<Event>, ttl: real, sid: nat, now: real)
    requires var s := Exec(events, ttl); sid in s.streams && s.streams[sid].queue == [] && now >= s.clock
    ensures var s := Exec(events, ttl); var st := s.streams[sid]; var frames := Frames(st.sent);
      frames != [] && Snapshot(s.calls, st.tenant, now, ttl) == Sweep(frames[|frames| - 1], now, ttl)
  {
    AlwaysUpToDate(events, ttl);
    StreamsMissNothing(events, ttl);
    assert Complete(Exec(events, ttl).streams[sid], Exec(events, ttl).log);
  }

  // ---------------------------------------------------------------- every frame can be drawn

  /** What the graph needs of a frame: one entry per room, known specialists, no self-handoff. */
  ghost predicate Drawable(f: Frame) {
    G.DistinctRooms(f) && forall i :: 0 <= i < |f| ==> G.WellFormed(f[i])
  }

  ghost predicate CallsOk(calls: seq<Call>) {
    UniqueKeys(calls) && forall i :: 0 <= i < |calls| ==> G.WellFormed(calls[i])
  }

  lemma UpdateOk(calls: seq<Call>, key: Key, active: string, action: string, from: Option<string>, now: real)
    requires CallsOk(calls) && active in AGENTS
    ensures CallsOk(Update(calls, key, active, action, from, now))
  {
    LookupUpdate(calls, key, active, action, from, now, key);
  }

  lemma SweepOk(calls: seq<Call>, now: real, ttl: real)
    requires CallsOk(calls)
    ensures CallsOk(Sweep(calls, now, ttl))
  {
    SweepUnique(calls, now, ttl);
    forall i | 0 <= i < |Sweep(calls, now, ttl)|
      ensures G.WellFormed(Sweep(calls, now, ttl)[i])
    {
      SweptIsLive(calls, now, ttl, i);
    }
  }

  lemma TenantDrawable(calls: seq<Call>, tenant: string)
    requires CallsOk(calls)
    ensures Drawable(OfTenant(calls, tenant))
  {
    OfTenantScoped(calls, tenant);
    var f := OfTenant(calls, tenant);
    forall i, j | 0 <= i < j < |f|
      ensures f[i].room != f[j].room
    {
      assert KeyOf(f[i]) != KeyOf(f[j]);
    }
  }

  ghost predicate AllDrawable(s: State) {
    CallsOk(s.calls) && (forall i :: 0 <= i < |s.log| ==> Drawable(s.log[i].frame)) &&
    (forall sid :: sid in s.streams ==> Drawable(s.streams[sid].initial))
  }

  lemma StepKeepsDrawable(s: State, e: Event, ttl: real)
    requires AllDrawable(s)
    ensures AllDrawable(Step(s, e, ttl))
  {
    match e
    case AgentState(at, readAt, key, active, action, from) =>
      if active in AGENTS {
        var now := Later(s.clock, at);
        var later := Later(now, readAt);
        UpdateOk(s.calls, key, active, action, from, now);
        SweepOk(Update(s.calls, key, active, action, from, now), later, ttl);
        TenantDrawable(Step(s, e, ttl).calls, key.tenant);
      }
    case Peek(at, _) => SweepOk(s.calls, Later(s.clock, at), ttl);
    case Open(sid, at, tenant) =>
      if sid !in s.streams {
        SweepOk(s.calls, Later(s.clock, at), ttl);
        TenantDrawable(Step(s, e, ttl).calls, tenant);
      }
    case _ =>
  }

  lemma {:induction false} AlwaysDrawable(events: seq<Event>, ttl: real)
    ensures AllDrawable(Exec(events, ttl))
  {
    if events != [] {
      AlwaysDrawable(events[..|events| - 1], ttl);
      StepKeepsDrawable(Exec(events[..|events| - 1], ttl), events[|events| - 1], ttl);
    }
  }

  lemma {:induction false} PublishedFrames(log: seq<Published>, tenant: string, k: nat)
    requires k < |PublishedTo(log, tenant)|
    ensures exists i :: 0 <= i < |log| && log[i].frame == PublishedTo(log, tenant)[k]
  {
    var front := log[..|log| - 1];
    if k < |PublishedTo(front, tenant)| {
      PublishedFrames(front, tenant, k);
      var i :| 0 <= i < |front| && front[i].frame == PublishedTo(front, tenant)[k];
      assert log[i].frame == PublishedTo(log, tenant)[k];
    } else {
      assert log[|log| - 1].frame == PublishedTo(log, tenant)[k];
    }
  }

  lemma SentIsDrawable(st: Stream, log: seq<Published>, k: nat)
    requires Complete(st, log) && k < |Frames(st.sent)| && Drawable(st.initial)
    requires forall i :: 0 <= i < |log| ==> Drawable(log[i].frame)
    ensures Drawable(Frames(st.sent)[k])
  {
    var since := log[st.since..];
    var all := [st.initial] + PublishedTo(since, st.tenant);
    assert Frames(st.sent)[k] == (Frames(st.sent) + st.queue)[k] == all[k];
    if k > 0 {
      PublishedFrames(since, st.tenant, k - 1);
      var i :| 0 <= i < |since| && since[i].frame == PublishedTo(since, st.tenant)[k - 1];
      assert log[st.since + i] == since[i];
    }
  }

  /** From report to picture: whatever frame of whatever stream the browser turns into a graph, the
      graph shows exactly that frame's calls and handoffs. */
  lemma EveryFrameDrawsItsCalls(events: seq<Event>, ttl: real, sid: nat, k: nat, f: Frame, g: G.Graph)
    requires sid in Exec(events, ttl).streams && k < |Frames(Exec(events, ttl).streams[sid].sent)|
    requires f == Frames(Exec(events, ttl).streams[sid].sent)[k] && g == G.Derive(G.ToSnapshot(f))
    ensures g.nodes == G.Drawings(f) && g.liveCalls == |f|
    ensures forall e :: e in g.edges <==> G.SomeHandoff(f, e)
  {
    AlwaysDrawable(events, ttl);
    StreamsMissNothing(events, ttl);
    assert Complete(Exec(events, ttl).streams[sid], Exec(events, ttl).log);
    SentIsDrawable(Exec(events, ttl).streams[sid], Exec(events, ttl).log, k);
    G.GraphPreservesHandoffs(f, g);
  }
}
