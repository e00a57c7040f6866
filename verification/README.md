# Verified models of the voice agent, its backend and the browser

RealtyRecall is a voice agent that answers a realtor's calls, a backend that books showings, remembers buyers and
onboards listings, and a browser that shows the calls live. This project models the parts whose correctness spans
several functions, several requests at once or several programs, and proves what they are for.

Where the system keeps state in objects, the model has classes whose methods update it in place, each proved equal to
a function on values; what the system promises is then proved of those functions, over every run. A run is a sequence
of actions, one per database statement, network exchange, lock-protected section or event-loop step. An action that
cannot happen yet changes nothing, so "for every sequence" means "for every interleaving", crashes included.

| file | what it models |
|---|---|
| `Booking.dfy` | the booking protocol of the backend: unique key, one calendar POST, result write, memory event |
| `Calls.dfy` | the agent's per-call state and guards, with any number of calls over one booking backend |
| `Grouping.dfy`, `Dedupe.dfy` | onboarding dedupe: the quadratic rule, the walk with two aliased indices, the identity keys |
| `EmbedCache.dfy` | the embedding cache whose lock is released during the network call |
| `RateLimiter.dfy` | the sliding-window limiter that forgets its history |
| `LiveAgents.dfy` | the registry of live calls with its time to live, and its subscriptions |
| `AgentGraph.dfy` | the snapshot mapper and the browser's graph reducer |
| `EventStream.dfy` | the server-sent event stream between them |
| `BuyerMemory.dfy` | buyer memory over three tables, forgetting, and the rest of the call |
| `Staging.dfy` | the two staging stores |
| `FilterTree.dfy` | the compiler from nested AND/OR filters to SQL conditions |
| `ListingSearch.dfy` | the listing filters and the stable sort |
| `CallData.dfy` | the reducer that folds tool events into the caller's screen |
| `MemoryGraph.dfy` | the tenant memory graph, its cap and the browser's filter |
| `RoomCodec.dfy` | tenants in room names |
| `Prelude.dfy`, `Text.dfy` | optional values; the string operations used |

## Where the code does not do what it seems to promise

Each of these is stated with its exact condition and proved.

- Deduped listings can share an address: exactly when some record joins by code a group that has no address yet and
  brings one that another group already shows (`Dedupe.AddressesDistinctIff`, `Dedupe.CollisionExample`). Deduping the
  output again changes it in exactly those cases (`Dedupe.IdempotentIff`). Dedupe is greedy (`Dedupe.GreedyExample`).
- A live call's recorded handoffs can be lost because another tenant looked: every snapshot sweeps all tenants. They
  are independent of other tenants exactly when each handoff still recorded was reported at some report since which
  every next report of the call came within the time to live (`LiveAgents.EdgesIndependentIff`,
  `LiveAgents.AnotherTenantErasesHandoffs`, `LiveAgents.ErasureExample`). Rooms, specialist and action never depend on
  other tenants (`LiveAgents.SnapshotIsIndependent`).
- Forgetting a buyer removes every spelling of the number exactly when all its digits are ASCII, because Python's `\D`
  and SQL's `[^0-9]` disagree (`BuyerMemory.ForgetIsCompleteIff`, `BuyerMemory.MixedNumberIsNotForgotten`). For the same
  reason it can delete another number's profile (`BuyerMemory.SparesOthersIff`, `BuyerMemory.ForgetDeletesAnother`).
  The moment a complete forget is served, it lasts exactly when no write for those digits is in flight and the agent
  no longer has the number (`BuyerMemory.ForgottenStaysForgottenIff`); but the agent drops the number only when it
  sees the reply, and a booking or a capture without a phone made in that wait brings the buyer back
  (`BuyerMemory.WaitingActionIff`, `BuyerMemory.SeenForgetLastsIff`).
- A lead captured without criteria erases the remembered criteria, while an absent name keeps the remembered name
  (`BuyerMemory.RememberedIsHistory`).
- No conversation of a call closed by the agent is ever folded into memory, though closing is said to do it: the agent
  sends neither summary nor transcript (`BuyerMemory.AgentNeverFolds`).
- The agent accepts a home named by a fragment of its address and the backend only by its exact code. A call whose
  names, as sent before it had a booking row, are no codes of the catalog never posts (`Calls.UnlistedCallNeverPosts`),
  and a rejected row ends the call's chances (`Calls.UnpostedRowEndsTheCall`); but a second attempt can overtake an
  unlisted first one (`Calls.OvertakingExample`).
- When two workers stage listings for a tenant that has a row, the later commit overwrites the earlier one's drafts,
  unless it stages nothing or the database refuses it; without a row both are kept (`Staging.OtherStageKeptIff`). A
  patch or a removal of a draft that really changes something likewise undoes what another worker did to the row's
  drafts meanwhile (`Staging.OtherEditKeptIff`); a profile never does (`Staging.ProfileKeepsDrafts`).
- The listing search says that a home with an unknown value for a bounded field is excluded; a minimum of zero or less
  on beds, baths or square feet lets it through (`ListingSearch.UnknownsLeftOutIff`).
- The memory graph's interactions are never drawn, and neither is any edge to one (`MemoryGraph.DrawnIff`); the cap
  can cut off one area edge of a node it keeps (`MemoryGraph.CutLosesAtMostOne`).

Two conditions that direct callers of the code must meet are met by every request, and proved so: a filter handed to
the compiler must be a group (`FilterTree.CompilesIff`), which the request schema makes it
(`FilterTree.SchemaFiltersAreNeverIgnored`); and a patch of a staged draft must not set another id
(`StagingEquality.PatchKeepsRelatedIff`), which the endpoint's schema has no field for
(`StagingEquality.EndpointPatchAgrees`).

## Model

| member | source | states |
|---|---|---|
| Booking.Backend.InsertPending | backend/src/repository/booking_repository.py:33-39 | the row goes to the end of the table, under a key no row holds |
| Booking.Backend.SetResult | backend/src/repository/booking_repository.py:42-55 | exactly the row with the id gets the new uid, status and synced flag |
| Booking.Backend.Ground | backend/src/services/booking_service.py:51-61 | a named home is looked up in the tenant's catalog; its address wins over the caller's when it has one |
| Booking.Backend.PostAndStore | backend/src/services/booking_service.py:93-127 | one POST; a raised reply leaves and answers a rejected row without a uid, any other its uid and status, synced exactly when accepted; a memory event only for an accepted row of a known tenant |
| Booking.Backend.BookShowing | backend/src/services/booking_service.py:44-128 | one request served without interference: an earlier row under its key is the answer and nothing changes; else it adds and answers its row, rejected for an unlisted home, pending without a calendar, else as the calendar replied, under the address of the catalog's home when it has one; and the tables are those the eight protocol steps leave |
| Booking.AloneIsServed | backend/src/services/booking_service.py:44-128 | the protocol steps of a request alone serve it so, whatever else the tables hold |
| Booking.RunAloneIsARun | backend/src/services/booking_service.py:44-128 | serving a request alone is one of the interleavings the other results range over |
| Booking.StepKeeps | backend/src/services/booking_service.py:44-128 | every step of every request, crash included, keeps the invariant tying rows, POSTs, showings and requests together |
| Booking.ExecKeeps | backend/src/services/booking_service.py:44-128 | so does every run |
| Booking.AtMostOnePostPerKey | backend/src/services/booking_service.py:44-105 | over every interleaving with crashes anywhere, two POSTs under one idempotency key are the same POST |
| Booking.AcceptedRowCarriesItsPost | backend/src/services/booking_service.py:106-117 | an accepted row carries the uid its key's POST was answered with, and the home, address and start that POST sent |
| Booking.ShowingsMatchAcceptedRows | backend/src/services/booking_service.py:118-127 | a showing exists at most once per key, only beside that key's accepted row, with the address, start and caller of the row and of the POST |
| Booking.RowSettlesOnce | backend/src/services/booking_service.py:79-117 | once a step changes a row after its insert, no continuation of the run changes it again: it leaves "pending" at most once |
| Booking.UnpostedStays | backend/src/services/booking_service.py:79-105 | a row no request can write and no POST was made for is never posted, in any continuation |
| Booking.RetryReturnsFirstRow | backend/src/services/booking_service.py:47-49 | a request that starts after a row exists under its key never inserts or posts; if it answers, it answers with that first row as it stood at some moment, whatever slot it asked for |
| Booking.PostedHomesWereListed | backend/src/services/booking_service.py:55-104 | every POST that names a home names one the tenant's catalog held at some moment of the run, and sends the address that catalog had for its first home with the code, the caller's when it had none |
| Booking.AnsweredRequestReports | backend/src/services/booking_service.py:93-128 | in every run, a finished request whose POST failed has answered, and left, a rejected row without a uid; one whose POST booked, its uid and status, synced exactly when accepted; a showing is kept exactly for an accepted booking of a known tenant |
| Booking.UnpostedRequestReports | backend/src/services/booking_service.py:79-91 | in every run, a request for a home its catalog did not have leaves and answers a rejected row, and any other a pending one without a calendar; neither is ever posted |
| Booking.LostInsertRaises | backend/src/repository/booking_repository.py:33-39 | in every run, a request that loses the insert race to its own key adds no row and never answers |
| Calls.BackendFollowsItsRun | agent/src/agents/scheduling_agent.py:57-123 | the backend inside a run of all calls goes through a run of the booking protocol |
| Calls.SlotsIff | agent/src/agents/scheduling_agent.py:42-44 | the slots offered are exactly the non-empty ids of all days |
| Calls.LatestOfferIff | agent/src/agents/scheduling_agent.py:39-44 | the slots a call holds are those of its latest non-empty availability answer since it was dialed |
| Calls.AttemptPassesIff | agent/src/agents/scheduling_agent.py:63-69 | an attempt gets past the slot guard exactly when its start is a non-empty id of some day of that answer |
| Calls.FindHomeIs | agent/src/agents/property_agent.py:23-32 | the matcher finds the first home with the code, trimmed and in any case, only else the first whose address contains the name, and none for a blank name |
| Calls.SentRequestIs | agent/src/agents/scheduling_agent.py:72-101 | what is sent: the call's one key and tenant, the attempt's name and slot, the matched home's address, the phone spoken or else the last one heard; key, phone and a fetched catalog stay with the call |
| Calls.PhoneIsLastTold | agent/src/agents/concierge_agent.py:68-70 | in every run the phone a call has is the last it was told, by caller id, a lead or a booking sent |
| Calls.AdmittedCodeIsTruthy | agent/src/agents/property_agent.py:23-32 | the agent's matcher never accepts an empty name |
| Calls.EveryPostWasOffered | agent/src/agents/scheduling_agent.py:57-123 | every POST belongs to exactly one call, was sent by one of its attempts before any row was under the key, for a slot of the latest non-empty availability answer held when the attempt passed the slot guard, under the call's tenant, for a home its catalog held |
| Calls.AtMostOnePostPerCall | agent/src/agents/call_context.py:46-87 | through any handoffs, availability checks, attempts, retries and crashes, and whatever other calls do, a call causes at most one POST |
| Calls.AdmittedAttemptPostsIff | agent/src/agents/scheduling_agent.py:70-101 | a call's first request, served alone with a configured calendar, posts exactly when the name used is a code of the catalog; else it leaves a rejected, unposted row no request holds |
| Calls.UnlistedCallNeverPosts | backend/src/services/booking_service.py:79-86 | in every run, a call none of whose names sent before a row was under its key was ever a code of the catalog never posts, whatever later attempts name |
| Calls.UnpostedRowEndsTheCall | backend/src/services/booking_service.py:47-49 | once a call's row is there, unposted and held by no request, no continuation of the run posts for the call |
| Calls.SecondAttemptOvertakes | agent/src/agents/scheduling_agent.py:84-104 | a second attempt by code, sent while the first by fragment is on its way, can be served first and post |
| Calls.OvertakingExample | agent/src/agents/scheduling_agent.py:84-104 | "maple" first, "RR-102" second: one POST, though the first name is no code |
| Calls.AddressFragmentIsAdmitted | agent/src/agents/property_agent.py:23-32 | a name the agent matches and the backend does not exists, and the same home is matched by its code |
| Grouping.MergeInto | backend/src/services/ingest_service.py:63-68 | merging in place fills exactly the blank fields with the other record's non-blank values |
| Grouping.FindOrOpen | backend/src/services/ingest_service.py:87-94 | the record a listing is merged into is the one the walk on values uses, found by code, else by address, else new |
| Grouping.Absorb | backend/src/services/ingest_service.py:82-99 | one turn of the loop keeps the output objects distinct and both indices aliasing them, first registration winning |
| Grouping.WalkInPlace | backend/src/services/ingest_service.py:71-100 | the loop's objects are new, distinct and hold the walk's records |
| Grouping.LeadersAscend | backend/src/services/ingest_service.py:71-100 | outputs come out in the order their first records were seen |
| Grouping.LeaderOpens | backend/src/services/ingest_service.py:87-94 | following a record's first match to the end reaches a record that opens a group and leads itself |
| Grouping.EveryRecordHasOneGroup | backend/src/services/ingest_service.py:71-100 | every identified record is in exactly one output |
| Grouping.SameCodeSameGroup | backend/src/services/ingest_service.py:87-97 | records that share a non-empty code share an output |
| Grouping.GroupField | backend/src/services/ingest_service.py:63-68 | each field of an output is the first non-blank value in its group, in input order |
| Grouping.FirstGiven | backend/src/services/ingest_service.py:63-68 | the first member with a value that is neither None nor the empty string gives the output its value |
| Grouping.CodesStayDistinct | backend/src/services/ingest_service.py:71-100 | two groups never show the same non-empty code |
| Grouping.SharedAddressIff | backend/src/services/ingest_service.py:87-99 | two outputs share an address key exactly when some record joins by code a group without an address and brings one another group shows |
| Grouping.AllAddressedNeverShare | backend/src/services/ingest_service.py:87-99 | that cannot happen when every input has a non-blank address |
| Grouping.UnchangedIffDistinct | backend/src/services/ingest_service.py:71-100 | the rule leaves a list as it is exactly when its keys are distinct |
| Grouping.WalkRefines | backend/src/services/ingest_service.py:71-100 | after every record the walk's outputs are the groups so far, and each index entry points at the group of the first record with that key |
| Grouping.WalkIsGrouping | backend/src/services/ingest_service.py:71-100 | the one-pass walk with two first-wins indices computes the quadratic rule |
| Dedupe.ComputeAddrKey | backend/src/services/ingest_service.py:56-60 | the loop that pops suffix words leaves the address key |
| Dedupe.AddrKeyIdempotent | backend/src/services/ingest_service.py:56-60 | an address key is its own key |
| Dedupe.AddrKeyIgnoresSuffix | backend/src/services/ingest_service.py:34-60 | a trailing province or country, of the list and in any letter case, does not change the key |
| Dedupe.WordsOfJoin | backend/src/services/ingest_service.py:57-60 | splitting into words undoes joining them |
| Dedupe.WordsOfWeave | backend/src/services/ingest_service.py:57 | the words of an address are exactly its runs of letters and digits in lower case, whatever stands between them |
| Dedupe.Unweave | backend/src/services/ingest_service.py:57 | every text is words and separators in exactly this sense |
| Dedupe.AddrKeyIs | backend/src/services/ingest_service.py:56-60 | an address key is those words joined by one space, without the trailing provinces and countries |
| Dedupe.AddressesShareKeyIff | backend/src/services/ingest_service.py:56-60 | two addresses have one key exactly when their words before the trailing ones agree but for case |
| Dedupe.CodesShareKeyIff | backend/src/services/ingest_service.py:83 | two codes have one key exactly when they agree but for case and outer white space |
| Dedupe.OutputKeys | backend/src/services/ingest_service.py:71-100 | an output's keys are those of the members its code and address came from, and it has at least one |
| Dedupe.CodesDistinct | backend/src/services/ingest_service.py:71-100 | for every input list, output code keys are pairwise distinct |
| Dedupe.AddressesDistinctIff | backend/src/services/ingest_service.py:71-100 | output address keys collide exactly when some record runs into the fill collision |
| Dedupe.AddressesDistinctWhenAddressed | backend/src/services/ingest_service.py:71-100 | with an address on every input they are pairwise distinct |
| Dedupe.IdempotentIff | backend/src/services/ingest_service.py:71-100 | deduping the output again returns it unchanged exactly when its addresses are distinct |
| Dedupe.CollisionExample | backend/src/services/ingest_service.py:71-100 | A without an address, B at x, A at x: two outputs at x |
| Dedupe.GreedyExample | backend/src/services/ingest_service.py:71-100 | A at x, B at y, A at y: two outputs remain |
| Dedupe.NeighboursStay | backend/src/services/ingest_service.py:71-100 | 12 Main St and 34 Main St stay two outputs |
| Dedupe.Dedupe | backend/src/services/ingest_service.py:71-100 | the method returns new, distinct objects holding exactly the groups' merges |
| EmbedCache.Cache.Lookup | backend/src/memory/store.py:134-138 | a hit returns the stored vector and moves the key to the end; a miss changes nothing |
| EmbedCache.Cache.Insert | backend/src/memory/store.py:146-150 | the key goes to the end, the oldest go until at most 1024 are left |
| EmbedCache.TouchKept | backend/src/memory/store.py:136-138 | touching a key among the n most recent reorders them and admits no older one |
| EmbedCache.TouchNew | backend/src/memory/store.py:146-150 | touching any other key drops exactly the least recent when n are held |
| EmbedCache.BehindIsTouchedSince | backend/src/memory/store.py:134-150 | in recency order, the keys behind a key are exactly those touched since it |
| EmbedCache.RecentIff | backend/src/memory/store.py:134-150 | a key is among the n most recently touched exactly when it was touched and fewer than n other keys were since |
| EmbedCache.TouchedIsReadOff | backend/src/memory/store.py:129-150 | a lookup of non-blank text by an idle caller touches its key exactly when fewer than 1024 other keys were touched since, and every late insert touches: the touch log can be read off the actions alone |
| EmbedCache.CacheIsTheRecentKeys | backend/src/memory/store.py:129-159 | for every interleaving of lookups and late inserts the cache in recency order is exactly the 1024 most recently touched distinct keys of the log read off the actions |
| EmbedCache.AskCache | backend/src/memory/store.py:133-138 | the locked lookup of the cache object is the step machine's |
| EmbedCache.ReplyToCache | backend/src/memory/store.py:145-150 | so is its locked insert |
| EmbedCache.ReturnedVectorsAreRight | backend/src/memory/store.py:129-159 | every returned vector is the embedding of the text asked for, with a deterministic service and no digest collision |
| RateLimiter.Limiter.Allow | backend/src/core/widget_guard.py:33-41 | grants and prunes as the step function on the map says, for any limit and clock |
| RateLimiter.PruneTwice | backend/src/core/widget_guard.py:35 | pruning at two growing times is pruning at the later |
| RateLimiter.PrunedAnswersAsWhole | backend/src/core/widget_guard.py:33-41 | at every step of every run with a monotone clock the answer is that of a limiter that keeps its whole grant history |
| RateLimiter.AllowedIsGrants | backend/src/core/widget_guard.py:33-41 | the two grant the same requests over a whole run |
| RateLimiter.AtMostMaxPerWindow | backend/src/core/widget_guard.py:21-41 | every half-open sixty-second interval holds at most max(0, limit) grants of a key |
| RateLimiter.KeysAreIndependent | backend/src/core/widget_guard.py:33-41 | a key's grants depend on its own requests alone |
| LiveAgents.Registry.Report | backend/src/runtime/live_agents.py:42-70 | the entry's fields change in place, or a new entry goes to the end; a handoff between different known specialists is recorded |
| LiveAgents.HandoffIff | backend/src/runtime/live_agents.py:68-69 | a report hands over exactly from one of the three specialists to another |
| LiveAgents.ReportedEntry | backend/src/runtime/live_agents.py:42-70 | a report sets its call's specialist, action and time, keeps its start and earlier handoffs, and leaves every other entry and every place; a new call goes to the end |
| LiveAgents.Registry.DropExpired | backend/src/runtime/live_agents.py:72-78 | exactly the entries at or past the time to live go, for every tenant |
| LiveAgents.Registry.SnapshotCalls | backend/src/runtime/live_agents.py:80-82 | sweeps, then returns the tenant's calls in insertion order |
| LiveAgents.Registry.Subscribe | backend/src/runtime/live_agents.py:84-87 | adds one new empty queue to the tenant's and to no other's |
| LiveAgents.Registry.Unsubscribe | backend/src/runtime/live_agents.py:89-94 | removes the queue, and the tenant's entry with its last queue |
| LiveAgents.Registry.Publish | backend/src/runtime/live_agents.py:96-98 | every queue of the tenant gets the payload once at its end |
| LiveAgents.ReplayTracks | backend/src/runtime/live_agents.py:42-82 | the table is the per-call histories side by side, one entry per call |
| LiveAgents.TrackMatches | backend/src/runtime/live_agents.py:42-78 | an entry carries its last report, and an absent one has expired or never was |
| LiveAgents.TrackEdges | backend/src/runtime/live_agents.py:42-78 | an entry's handoffs are those reported since it was last created |
| LiveAgents.SnapshotRefinesLog | backend/src/runtime/live_agents.py:42-82 | with a monotone clock a room is in a snapshot exactly when its last report is newer than the time to live, with that report's specialist and action and exactly the handoffs since the entry was last created |
| LiveAgents.SnapshotIsScoped | backend/src/runtime/live_agents.py:80-82 | a snapshot lists only live calls of its tenant, each room once |
| LiveAgents.SnapshotInOrder | backend/src/runtime/live_agents.py:80-82 | a snapshot lists its calls in the order the registry holds them |
| LiveAgents.SnapshotIsIndependent | backend/src/runtime/live_agents.py:72-82 | rooms, specialist and action never depend on other tenants' operations |
| LiveAgents.EdgesIndependentIff | backend/src/runtime/live_agents.py:72-82 | for a live call, recorded handoffs never depend on other tenants exactly when each was reported at some report since which each next report of the call came less than a time to live after the one before |
| LiveAgents.AnotherTenantErasesHandoffs | backend/src/runtime/live_agents.py:72-82 | a call reporting again a time to live or more later keeps its handoffs, unless another tenant read just before: then they are lost, exactly when there were any beside the new report's |
| LiveAgents.ErasureExample | backend/src/runtime/live_agents.py:72-82 | a handoff at 0, another tenant's read and a plain report at the time to live: the handoff is gone, and is there without the read |
| AgentGraph.CollaboratorsSorted | backend/src/runtime/openorca_mapper.py:40 | listing the collaborators in specialist order is listing them in ascending order of their ids |
| AgentGraph.DeriveGraph | frontend/src/lib/openorca.ts:79-109 | the loops compute the derived graph |
| AgentGraph.SplitId | frontend/src/lib/openorca.ts:63-72 | splitting `room:agent` at its last colon gives both back, whatever the room's name |
| AgentGraph.SpecialistOfIff | frontend/src/lib/openorca.ts:63-68 | an id names a specialist exactly when that is all of it or what follows its last colon |
| AgentGraph.EdgeKeyInjective | frontend/src/lib/openorca.ts:100-103 | two handoffs with one `x\|y` key are the same handoff, whatever colons and bars the rooms contain |
| AgentGraph.NodesAreDrawings | backend/src/runtime/openorca_mapper.py:23-60 | mapper and reducer together give three nodes per call, in order, with its room, captions and action |
| AgentGraph.DrawnNodesShow | backend/src/runtime/openorca_mapper.py:23-46 | a call's three nodes show its three specialists in order: id, room, caption, and the call's action exactly on the one speaking |
| AgentGraph.AskedIsHandoff | backend/src/runtime/openorca_mapper.py:26-40 | the edges the snapshot's nodes ask for are exactly the handoffs of the calls |
| AgentGraph.DrawnIffHandoff | frontend/src/lib/openorca.ts:94-106 | an edge is drawn exactly when it is an undirected handoff of some call |
| AgentGraph.DerivedGraph | frontend/src/lib/openorca.ts:79-109 | for distinct rooms there are three nodes per call and as many live calls as calls |
| AgentGraph.GraphPreservesHandoffs | frontend/src/lib/openorca.ts:79-109 | for any calls with distinct rooms the drawn graph has exactly their nodes, each undirected handoff exactly once and no self-edge |
| AgentGraph.OneActivePerCall | backend/src/runtime/openorca_mapper.py:23-46 | each call's nodes are its three specialists in its room, exactly one of them active |
| EventStream.StreamsMissNothing | backend/src/api/endpoints/openorca.py:95-113 | frames sent, then queued, are one opening snapshot and then exactly the payloads published to the tenant since it subscribed, in order |
| EventStream.PublishToStreams | backend/src/runtime/live_agents.py:96-98 | publishing through the registry puts the frame on exactly the tenant's open streams, as the step machine fans it out |
| EventStream.PostAgentState | backend/src/api/endpoints/openorca.py:44-62 | the endpoint on the registry object takes calls, streams and queues to the state of the step machine; an unknown specialist is refused |
| EventStream.OpenStream | backend/src/api/endpoints/openorca.py:95-104 | a new stream subscribes to the registry object, reads its tenant's snapshot and writes it first, taking calls, streams and queues to the state of the step machine |
| EventStream.WriteNext | backend/src/api/endpoints/openorca.py:105-111 | a stream writes the oldest waiting frame, or a keep-alive when none waits |
| EventStream.CloseStream | backend/src/api/endpoints/openorca.py:112-113 | closing unsubscribes exactly the stream's queue |
| EventStream.AlwaysUpToDate | backend/src/api/endpoints/openorca.py:44-62 | at every moment a fresh snapshot is each stream's newest frame minus what has expired |
| EventStream.DrainedStreamIsFresh | backend/src/api/endpoints/openorca.py:95-113 | once drained, the last frame sent differs from a fresh snapshot only by calls that have since expired |
| EventStream.AlwaysDrawable | backend/src/api/endpoints/openorca.py:44-62 | every frame ever published has distinct rooms, known specialists and no self-handoff |
| EventStream.EveryFrameDrawsItsCalls | frontend/src/lib/openorca.ts:79-109 | from report to picture: whatever frame the browser draws, the graph shows exactly its calls and handoffs |
| BuyerMemory.MemoryStore.Upsert | backend/src/memory/store.py:332-363 | refuses a phone without digits; else one row per digits, absent fields keeping the old values |
| BuyerMemory.MemoryStore.SaveProfile | backend/src/repository/buyer_profile_repository.py:38-71 | sets exactly the fields given, on the row of the phone as spelled |
| BuyerMemory.MemoryStore.RecordShowing | backend/src/memory/store.py:393-421 | one interaction under the phone's digits |
| BuyerMemory.MemoryStore.FoldCall | backend/src/memory/store.py:424-460 | blank content writes nothing; else one interaction, and the summary of an existing buyer |
| BuyerMemory.MemoryStore.ForgetBuyer | backend/src/memory/store.py:462-484 | one deletion over the three tables, and the number of buyer rows deleted |
| BuyerMemory.RememberedIsHistory | backend/src/memory/store.py:332-363 | whatever any calls of any tenants did, a buyer is remembered exactly while some lead came after the last forget, with the last lead's spelling and criteria, the last name and email given, and the last summary given or folded |
| BuyerMemory.ProfileIsHistory | backend/src/repository/buyer_profile_repository.py:38-71 | a profile row is there exactly while a write of its spelling came after the last deletion, each field as last given since |
| BuyerMemory.InteractionsAreHistory | backend/src/memory/store.py:393-484 | the interactions kept are exactly those left by showings and by calls with something said and not forgotten since |
| BuyerMemory.DigitsConcat | backend/src/memory/store.py:94-95 | both notions of digits work character by character |
| BuyerMemory.AsciiDigitIs | backend/src/memory/store.py:94-95 | of the ASCII characters both keep exactly the ten digits |
| BuyerMemory.DigitsAgreeIff | backend/src/memory/store.py:94-95 | the two notions of a phone's digits agree exactly when it holds no non-ASCII decimal digit |
| BuyerMemory.ForgetIsCompleteIff | backend/src/memory/store.py:462-484 | whatever the tables hold, forgetting leaves no row of the tenant and digits in any table under any spelling exactly when the phone holds no non-ASCII decimal digit |
| BuyerMemory.MixedNumberIsNotForgotten | backend/src/memory/store.py:462-484 | a buyer captured under 5 and an Arabic-Indic 3 is not gone after the forget |
| BuyerMemory.SparesOthersIff | backend/src/memory/store.py:476-480 | whatever the tables hold, forgetting spares other numbers' profiles exactly when the forgotten number itself holds a non-ASCII digit |
| BuyerMemory.ForgetDeletesAnother | backend/src/memory/store.py:476-480 | forgetting 5 deletes the profile of 5 and an Arabic-Indic 3 |
| BuyerMemory.ForgetSparesOthers | backend/src/memory/store.py:462-484 | rows of other tenants and digits stay as they are, but for a profile whose ASCII digits alone coincide |
| BuyerMemory.StaysGoneIff | agent/src/agents/concierge_agent.py:54-118 | at any moment of a call at which no row holds the digits, nothing the rest of the call and its close do without the number being named again recreates one, exactly when no write for them is in flight and the open call's agent does not have the number |
| BuyerMemory.ForgottenStaysForgottenIff | agent/src/agents/concierge_agent.py:100-118 | the moment a forget is served it lasts exactly when no write for its digits is in flight and the agent no longer has the number |
| BuyerMemory.SeenForgetLastsIff | agent/src/agents/concierge_agent.py:111-118 | from served to seen: it lasts through every wait in which nothing sends the number at hand, and every rest of the call, exactly when no write for its digits was in flight when it was served |
| BuyerMemory.WaitingActionIff | agent/src/agents/concierge_agent.py:68-83 | one action between the served forget and its reply undoes it exactly when the action sends the number the agent still has: a capture or a booking without a phone |
| BuyerMemory.LateWriteReturns | backend/src/api/endpoints/buyers.py:50-76 | a write in flight, the profile half of a capture included, that reaches the backend after the forget brings a row back |
| BuyerMemory.DigitlessIsNotForgotten | agent/src/agents/concierge_agent.py:100-118 | a phone without digits can come back through a booking without a phone |
| BuyerMemory.ToolsSend | agent/src/agents/concierge_agent.py:68-82 | the tools send the phone spoken, else the one at hand, and remember it; the close sends it alone |
| BuyerMemory.LeadIsServedTwice | backend/src/api/endpoints/buyers.py:50-76 | a lead is remembered in two transactions, its buyer and then its profile with what it gave |
| BuyerMemory.CloseFolds | backend/src/api/endpoints/calls.py:33-46 | a close with tenant and phone folds the summary or else the turns, when they say something; any other changes nothing |
| BuyerMemory.JoinTurnsIs | backend/src/memory/store.py:434-437 | one space between the turns |
| BuyerMemory.AgentNeverFolds | agent/src/runtime/observers.py:15-27 | through any call closed by its agent no conversation is folded into memory |
| Staging.DraftsAre | backend/src/services/onboard_service.py:53-82 | a draft has its item's fields and a generated id when the item brings none; a patched one has the patch's non-null values and its own for the rest |
| Staging.PutIs | backend/src/services/onboard_service.py:69-70 | a dictionary write keeps the place of a key written before, puts a new one last, and changes no other entry |
| Staging.InMemoryStagingStore.StageListings | backend/src/services/onboard_service.py:64-71 | the drafts go into the tenant's dictionary one by one, an existing id keeping its place |
| Staging.InMemoryStagingStore.PatchDraft | backend/src/services/onboard_service.py:76-83 | the non-null changes go over the draft under the key |
| Staging.InMemoryStagingStore.RemoveDraft | backend/src/services/onboard_service.py:85-86 | the key goes, and whether it was there |
| Staging.InMemoryStagingStore.SaveProfile | backend/src/services/onboard_service.py:88-92 | an empty profile is ignored |
| Staging.InMemoryStagingStore.ClearAll | backend/src/services/onboard_service.py:97-103 | one tenant's drafts and profile go, or everything |
| Staging.DbStagingStore.CommitRow | backend/src/services/onboard_service.py:147-153 | a row read before is committed: an equal value writes nothing, a row deleted or, under strict serialization, changed since is refused, else only the assigned column is overwritten |
| Staging.DbStagingStore.CreateOrChange | backend/src/services/onboard_service.py:138-153 | one attempt: what was read is committed with the change over whatever the table has become; a row inserted since breaks the unique tenant |
| Staging.DbStagingStore.StageListings | backend/src/services/onboard_service.py:126-136 | one more attempt after a lost insert race and none after any other failure, with other workers writing during both |
| Staging.UndisturbedStages | backend/src/services/onboard_service.py:126-153 | undisturbed, staging is the store's step |
| Staging.UndisturbedProfiles | backend/src/services/onboard_service.py:195-215 | so is staging a profile |
| Staging.UndisturbedEdits | backend/src/services/onboard_service.py:160-193 | so are a patch and a removal |
| Staging.LostInsertAppends | backend/src/services/onboard_service.py:130-135 | a lost insert race ends as if the other worker had staged first |
| Staging.OtherStageKeptIff | backend/src/services/onboard_service.py:138-153 | another worker's drafts committed between read and commit are kept exactly when the tenant had no row at the read, this worker stages nothing or the database refuses the later commit; otherwise they are overwritten and both calls succeed |
| Staging.OtherEditKeptIff | backend/src/services/onboard_service.py:160-193 | what another worker did to the row's drafts while this one patches or removes survives exactly when the edit changes nothing, the other deleted the row or the database refuses the later commit |
| Staging.ProfileKeepsDrafts | backend/src/services/onboard_service.py:195-215 | whatever other workers do meanwhile, staging a profile leaves their drafts alone, and the profile is there after a call that returns unless the row read had it already |
| Staging.DbStagingStore.PatchDraft | backend/src/services/onboard_service.py:160-180 | the first draft with the id, found by the loop, is replaced in the list as it was read, with other workers writing before the commit |
| Staging.DbStagingStore.RemoveDraft | backend/src/services/onboard_service.py:182-193 | every draft with the id is left out of the list as it was read, and whether any was, with other workers writing before the commit |
| Staging.DbStagingStore.SaveProfile | backend/src/services/onboard_service.py:195-215 | an empty profile is ignored; else the row is created or its profile set, with one more attempt after a lost insert race |
| Staging.DbStagingStore.ClearAll | backend/src/services/onboard_service.py:222-228 | deletes the tenant's row, or all rows |
| StagingEquality.PutAllAppends | backend/src/services/onboard_service.py:64-71 | fresh ids append, in order, behind what was there |
| StagingEquality.OthersDropsOne | backend/src/services/onboard_service.py:186-189 | filtering by a unique id drops exactly the first match |
| StagingEquality.StepAgrees | backend/src/services/onboard_service.py:57-228 | related stores answer an admissible operation alike and stay related |
| StagingEquality.RunAgrees | backend/src/services/onboard_service.py:57-228 | so through every run |
| StagingEquality.StoresAgree | backend/src/services/onboard_service.py:57-228 | for every sequence of operations over any tenants, with fresh ids and patches that leave the id alone, every operation returns the same |
| StagingEquality.PatchKeepsRelatedIff | backend/src/services/onboard_service.py:76-83 | a patch keeps the stores related exactly when it sets no other id; otherwise removing the old id tells them apart |
| StagingEquality.EndpointPatchAgrees | backend/src/schemas/listing_schemas.py:55-64 | a patch with the fields of the endpoint's schema sets no id, so both stores answer it alike and stay related |
| FilterTree.Build | backend/src/repository/base_repository.py:218-282 | the loop over a group's entries compiles what the recursive compiler does, the first error winning |
| FilterTree.InMeaning | backend/src/repository/base_repository.py:90-93 | IN is true exactly for a listed non-null cell, and false exactly when the list is empty or no null is involved and all differ |
| FilterTree.LeafMeaning | backend/src/repository/base_repository.py:71-105 | a comparison compiles exactly when it is well formed, and its condition is true, false or unknown of every cell as the request means it |
| FilterTree.CompilesIff | backend/src/repository/base_repository.py:218-282 | compiling succeeds exactly on well-formed groups and on what is no group; nothing is compiled exactly when no group holds a comparison |
| FilterTree.SchemaFiltersAreNeverIgnored | backend/src/schemas/base_schema.py:12-20 | a filter the request schema lets through is compiled to nothing exactly when it holds no comparison at all, and refused only for a comparison's own field or value |
| FilterTree.CompiledMeaning | backend/src/repository/base_repository.py:218-282 | otherwise one condition is compiled, and on every row it evaluates under SQL's three-valued logic to what the tree means with its empty groups left out |
| FilterTree.SelectedIff | backend/src/repository/base_repository.py:154-162 | the query keeps exactly the rows the tree holds for, and every row when there is no comparison |
| FilterTree.PlainLikeIsContains | backend/src/repository/base_repository.py:86-89 | for text without wildcards the pattern built around it matches exactly the strings containing it |
| FilterTree.LikeIs | backend/src/repository/base_repository.py:86-89 | what any pattern matches, by its first character: a per cent sign any run, an underscore one character, a backslash the next character, any other itself |
| ListingSearch.ListingSearchFilters.constructor | agent/src/agents/listing_filters.py:40-96 | filters come out repaired: unknown sorts, blank areas, inverted ranges and an orphan order dropped |
| ListingSearch.ListingSearchFilters.Sane | agent/src/agents/listing_filters.py:69-96 | an inverted range goes whole, an order without a sort goes, nothing else changes |
| ListingSearch.ListingSearchFilters.FilterListings | agent/src/agents/listing_filters.py:105-147 | the method returns the search's result |
| ListingSearch.SearchIsExact | agent/src/agents/listing_filters.py:138-147 | the result holds exactly the fitting rows, each as often as the catalog does |
| ListingSearch.FitsIff | agent/src/agents/listing_filters.py:115-136 | a row fits exactly when each bounded value is known and within its bound, or is an unknown read as zero, and its area or address contains the area asked for |
| ListingSearch.SearchIsSorted | agent/src/agents/listing_filters.py:139-147 | row by row the result ascends or descends in price, beds or square feet, unknown values last |
| ListingSearch.RepairedIs | agent/src/agents/listing_filters.py:40-96 | what repairing leaves of sort, order, area and ranges, and that the other bounds stay |
| ListingSearch.SortIs | agent/src/agents/listing_filters.py:144 | the sort orders, keeps every row, and keeps rows of equal value in their order, also when reversed |
| ListingSearch.OneStableOrder | agent/src/agents/listing_filters.py:144 | only one list is in order with ties as they were |
| ListingSearch.RankingIff | agent/src/agents/listing_filters.py:139-147 | the result is the one list with known values in order, ties in catalog order in both directions, and unknowns last in catalog order |
| ListingSearch.SearchTwice | agent/src/agents/listing_filters.py:105-147 | searching the result again with the same filters changes nothing |
| ListingSearch.UnknownsLeftOutIff | agent/src/agents/listing_filters.py:110-129 | unknown values of bounded fields are left out of every catalog exactly by the filters without a minimum of zero or less on beds, baths or square feet |
| CallData.UpsertTracks | frontend/src/lib/call-data.ts:26-33 | one more listing shown, one listing upserted: latest per key, by first appearance |
| CallData.SameHomeIff | frontend/src/lib/tool-events.ts:42-44 | two listings are one home exactly when they have one code, else one address |
| CallData.CandidatesTrack | frontend/src/lib/call-data.ts:35-55 | after any events the candidates are the latest listing of each key shown, in order of first appearance, keys distinct |
| CallData.NothingEvicted | frontend/src/lib/call-data.ts:9-17 | later events keep every place and its key |
| CallData.FocusIsShown | frontend/src/lib/call-data.ts:42-47 | the focused key is the last property event's and is among the candidates |
| CallData.LastOfItsKindStays | frontend/src/lib/call-data.ts:48-51 | a lead or booking shown stays until the next of its kind |
| CallData.RedeliveryChangesNothing | frontend/src/lib/call-data.ts:35-55 | an event delivered twice leaves the state it left the first time |
| MemoryGraph.PrintInjective | backend/src/memory/graph_service.py:20-71 | printed ids of listings, areas, buyers and interactions never coincide |
| MemoryGraph.GetSubgraph | backend/src/memory/graph_service.py:12-83 | the loops over the tables and the cut compute the projection |
| MemoryGraph.NodesAreRowsAndAreas | backend/src/memory/graph_service.py:19-79 | the nodes are the rows and the lower-cased areas some row names, one each, with distinct ids |
| MemoryGraph.NodesAreCaptioned | backend/src/memory/graph_service.py:21-79 | every node is captioned from its own row, an area in the spelling of the first row that names it |
| MemoryGraph.EdgesSayAndEnd | backend/src/memory/graph_service.py:29-82 | the edges are exactly what the rows say, and both ends of each are nodes before the cap |
| MemoryGraph.EdgesOnce | backend/src/memory/graph_service.py:29-82 | no edge is listed twice |
| MemoryGraph.DrawnIff | frontend/src/components/memory-graph.tsx:64-75 | after the cut the browser draws exactly the area edges whose both ends survive, and no edge to an interaction |
| MemoryGraph.CutLosesAtMostOne | backend/src/memory/graph_service.py:83 | a surviving row loses its area edge only when it is the last node kept and its area is the first node cut |
| RoomCodec.DecodersAgree | agent/src/utils/room.py:19-32 | the agent's decoder agrees with the backend's on all strings |
| RoomCodec.TenantOfIff | backend/src/core/tenant.py:25-32 | a name decodes to a tenant exactly when it is that non-empty tenant between the prefix and a last non-empty part without underscores |
| RoomCodec.MintedRoomResolves | agent/src/utils/room.py:58-75 | reading a minted name back gives every tenant but the empty one, whatever the metadata say |
| RoomCodec.NamesTakePrecedence | agent/src/utils/room.py:58-75 | the tenant in the room's name comes first, then the job's, then the metadata's |
| RoomCodec.RoomsAreApart | backend/src/core/tenant.py:20-22 | two mints share a room only as the same tenant with the same suffix |

## Left out

- Start times, time zones and dates are opaque tokens; parsing them is left to libraries.
- Case folding and white space are those of the ASCII range; every other string operation is exact. The decimal digits of `BuyerMemory` are Unicode 14's.
- HTTP, SQL, LiveKit, OpenAI, Cal.com, Telnyx and Clerk clients appear as nondeterministic outcomes or table operations.
- Booking: `Post`, `Showing` and their row numbers annotate the log so that results can speak of it; the annotations are not sent or stored.
- Booking: that a rejected row has no calendar event is not claimed, because a POST that timed out is marked rejected.
- Booking.PostedHomesWereListed: catalog rows are taken to have a code; a missing one, which the backend would compare as the text None, is not modelled.
- Calls: recall, persona, the opener and the hang-up timer do not touch the booking state and are left out; a generated key is assumed new. The filler speech around the request carries no state.
- Dedupe.Dedupe: computes the keys of all listings before the walk; a key depends on its own record alone, so the order of the two does not matter.
- Dedupe: extraction of listings from pages, and the text that decides what looks like one, are library parsing.
- EmbedCache: the semaphore around the request and the missing-key check end in the modelled failure outcome; hashing is a function assumed injective.
- LiveAgents.Registry.SnapshotCalls: returns references to entries that later reports change; the endpoints map them to payloads before anything else runs, as `EventStream.PostAgentState` does.
- AgentGraph: the constant display fields of the snapshot (machine names, fleet figures, timestamps) are not modelled; a handoff names known specialists, which the endpoint and the registry enforce and `EventStream.AlwaysDrawable` proves.
- BuyerMemory: `reset_tenant`, vector recall and matching, and the transaction retries are left out; each transaction is one atomic step.
- Staging.DbStagingStore.CommitRow: whether the database refuses a commit over a row changed since its read is a parameter; a deleted row always refuses it, and a value assigned equal to the one read writes nothing, as the ORM does.
- Staging.InMemoryStagingStore.PatchDraft: drafts are values here; that a caller may hold the stored dictionary itself is not modelled.
- StagingEquality.StoresAgree: assumes staged items bring no id of their own; the extractors give none.
- FilterTree: dotted fields and their joins, ordering, pagination and the search term are the ORM's; a list given to a scalar comparison is refused by the driver and counted here as a refusal to compile; operands are integers and strings.
- ListingSearch: `summarize_filters` only formats; floating-point infinities and NaN are not modelled.
- MemoryGraph: title-casing of interaction captions and the insight cards are left out.
- RoomCodec: metadata JSON is taken as the tenant it names, if any.
- Authentication, migrations, pricing, telemetry, prompts and user interface components are left out: branch-level, decided by libraries, or constants.
