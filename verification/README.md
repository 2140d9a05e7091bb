# MiniTun, verified

MiniTun lets a client daemon keep tunnels open on a public server. The daemon stores what the user
wants, talks to the server over one control connection and many worker connections, and keeps
secrets in a second store. This project models the parts of it that hold its guarantees together
and proves those guarantees with Dafny. `dafny verify dfyconfig.toml` checks everything.

| file | part of the daemon |
|---|---|
| `Responses.dfy`, `Trace.dfy`, `Session.dfy` | the tunnel reconciliation cycle of a server session, against an arbitrary server |
| `Fence.dfy` | the generation and revision fence around stored tunnel state, with the edits that race with it |
| `Records.dfy`, `Storage.dfy` | stored rows, credential slots, and the two stores that share no transaction |
| `Plan.dfy`, `Apply.dfy`, `Idempotence.dfy` | planning and applying a declarative configuration |
| `Control.dfy`, `Recovery.dfy`, `Lifecycle.dfy` | server operations across the two stores, start-up recovery, and the stored server state over all interleavings |
| `Workers.dfy` | worker pools sharing two budgets |
| `BigEndian.dfy`, `Streams.dfy`, `RemoteFrames.dfy`, `IpcFrames.dfy` | the two incremental frame decoders |
| `Codec.dfy`, `ErrorNames.dfy`, `Messages.dfy`, `RelayCodec.dfy` | message payloads |
| `ReplayCache.dfy`, `RateLimiter.dfy` | the authentication caches |
| `JsonLimits.dfy`, `Utf8.dfy` | limits on JSON documents, UTF-8 |

## How things are modelled

- The server of a session is any function from the windows of requests written so far to what it
  sends then.
- What the network, the database or the credential store answers is a parameter or a field of the
  model (`input`, `outcomes`, `loads`, `faults`), so that every contract holds for every answer.
  Times, generated ids, digests, numeric addresses and the TLS library's verdict are parameters.
- An awaited operation, a transaction and a compare-and-swap are single steps. Concurrency is a step
  system: `Fence`, `Lifecycle` and `Workers` prove invariants over every run of theirs.
- A session keeps a ghost trace of what it exchanged. `Trace.Ledger` is a monitor over that trace:
  its last three fields say whether a rule was ever broken, and `Trace.VerdictCovers` turns a clean
  verdict into a statement about every event. `ServerSession.Valid` holds whenever the session waits
  for the server or for storage.
- `Trace.Desk` is a second monitor over the same trace, for requests and the responses taken for them.
- `Stores.sound` is the same idea for crashes: each write to either store re-evaluates whether every
  credential reference of every server that was not removed resolves. A method that keeps `Valid` is
  safe to cut off after any of its writes.

## Properties that turned out false

Each is kept as the code has it, with an input that shows it and the exact condition.

- An OK may be buffered before its request is written, so that correlation by request id does not
  order an answer after its request (`Session.EarlyAnswerRegisters`). It does exactly when no response
  with the id is buffered at that moment (`Session.SessionResponseIsLaterIff`). In any case a
  registration rests on both, a sent REGISTER and an OK with the same id and pair.
- A declarative update that touches neither endpoints, protocol nor desired state raises the revision
  of an active tunnel and leaves it stored as active (`Fence.NameOnlyUpdateBreaks`,
  `Fence.DeclaredKeepsIff`). The same happens when the database refuses the reset that comes with a
  new generation (`Fence.FailedRenewalBreaks`, `Fence.FailedRenewalKeepsIff`).
- A tunnel added between planning and committing a prune goes down with its server although it is not
  managed (`Idempotence.LateTunnelIsLost`, `Idempotence.LatePruneIsSafeIff`).
- A server id that comes back, which a declarative document can ask for, starts at revision 1: a late
  report of the old session passes the fence (`Lifecycle.ReusedIdBreaks`,
  `Lifecycle.ReuseIsSafeIff`), and a late purge of the old row removes live credentials
  (`Control.LatePurgeBreaks`, `Control.Purge`, `Control.PurgeIsHarmlessIff`).
- A plan is not sure to go through on the very rows it was made on: rows are written one by one, so
  that a name or listener can be handed on only if its giver is listed first, and two servers cannot
  exchange names (`Apply.SwapIsPlanned`, `Apply.HandedOnNameIff`, `Apply.QuietCommitIff`).
- A worker pool that is started again before its forced stop can have more idle slots in use than
  connections (`Workers.RestartBreaks`). It can exactly when a forced stop finds available workers
  (`Workers.ForcedStopIsHarmlessIff`).
- A START_RELAY with a source that is not numeric, is too long, or has port 0 is encoded and not
  decoded (`Messages.FromPortZeroIsLost`, `Messages.DecodesBackIff`).
- The IPC decoder has no lower bound on its limit and buffers up to three header bytes regardless
  (`IpcFrames.BufferedWithinLimitIff`).

## Model

| member | source | states |
|---|---|---|
| Responses.ScanIsHonest | src/daemon/server_manager.cpp:990-1039 | against any server: the response returned carries the awaited request id and was sent by the server; only correlated responses enter the buffer, under their own id, and the buffer never outgrows the window |
| Responses.AwaitIsHonest | src/daemon/server_manager.cpp:981-1040 | the same for a wait that looks into the buffer first |
| Responses.ScanFinds | src/daemon/server_manager.cpp:990-1039 | when every outstanding request is answered once, waiting for one finds its answer, loses none of the others, leaves what follows in the input unread, and the buffer holds at most 31 |
| Responses.AwaitFinds | src/daemon/server_manager.cpp:981-1040 | the same for a wait that looks into the buffer first |
| Responses.AnyOrderIsMatched | src/daemon/server_manager.cpp:918-969 | for every order of a window's answers, with PING and REQUEST_WORKERS anywhere between and anything after them, each request gets its own answer, and the answers to other requests are neither lost nor mixed up |
| Responses.NothingIsLeft | src/daemon/server_manager.cpp:918-969 | when the answers to the window were the only ones, the buffer ends empty and only pings are left |
| Responses.NextIdAt | src/daemon/server_manager.cpp:1214-1221 | which id the k-th next request gets, across the wrap that skips 0, 1 and 2 |
| Responses.WindowIdsAreDistinct | src/daemon/server_manager.cpp:1214-1221 | the ids of one window are pairwise different and never 0, also across the wrap |
| Trace.AcceptedWasExchanged | src/daemon/server_manager.cpp:925-938 | what the ledger calls accepted means that a REGISTER and an OK with the same request id, tunnel and revision are in the trace |
| Trace.VerdictCovers | src/daemon/server_manager.cpp:750-753 | a clean verdict means that no event of the trace broke the rule: no REGISTER for a binding still held, no tunnel reported active that was not accepted, no REGISTER before every removal was acknowledged |
| Trace.ResponseIsLaterIff | src/daemon/server_manager.cpp:981-1037 | in any trace in which only received frames are taken for responses to waiting requests: such a response was received after its request was written exactly when no response with that id was in the buffer then |
| Trace.EarlyCameFirst | src/daemon/server_manager.cpp:1023-1037 | what the desk calls early means that the response was received before the request was written |
| Session.SecondCycleRetriesRefused | src/daemon/server_manager.cpp:760-765 | a second cycle over the same snapshot removes nothing and registers only what the server refused |
| Session.WindowIsAnswered | src/daemon/server_manager.cpp:881-970 | a reply that answers each request of a window once, in any order, leads the waits of the window to their end, each with its own answer, and leaves nothing buffered |
| Session.AcceptAllCooperates | src/daemon/server_manager.cpp:732-979 | there is a server that answers each request of every window once |
| Session.SessionResponseIsLaterIff | src/daemon/server_manager.cpp:981-1037 | in the trace of any session: what was taken for the response to a request was received after the request was written exactly when no response with that id was buffered then |
| Session.BufferIsFiled | src/daemon/server_manager.cpp:982-988 | the buffer of a session is the one its trace accounts for |
| Session.EarlyAnswerRegisters | src/daemon/server_manager.cpp:1023-1037 | a session that registers a tunnel, in whose trace the OK of the tunnel is received before its REGISTER is written |
| Session.ServerSession.constructor | src/daemon/server_manager.cpp:1431-1443 | a new session has registered and exchanged nothing, and nothing is buffered or on its way |
| Session.ServerSession.StartAttempt | src/daemon/server_manager.cpp:1272-1274 | a new attempt forgets registrations, targets and buffered responses together, and nothing is on its way on the new connection |
| Session.ServerSession.NextRequestId | src/daemon/server_manager.cpp:1214-1221 | returns the counter and moves it to the next usable id |
| Session.ServerSession.PersistTunnelState | src/daemon/server_manager.cpp:1238-1269 | a tunnel may be reported active only after the server accepted it at that revision |
| Session.ServerSession.ReadReconcileResponse | src/daemon/server_manager.cpp:981-1040 | the loop computes the specified wait, a response it returns was heard and carries the request id, and it returns none only when the server is silent or sends what cannot be used |
| Session.ServerSession.UnregisterWindow | src/daemon/server_manager.cpp:766-830 | after a window of removals exactly its tunnels are gone from the registrations and from what the server may hold; it succeeds if nothing is refused and the server answers each request once |
| Session.ServerSession.TakeAcknowledgements | src/daemon/server_manager.cpp:788-829 | the loop takes the responses that waiting for the ids of the window in turn yields, and succeeds if each is the acknowledgement of its tunnel and nothing is refused |
| Session.ServerSession.AcknowledgeRemoval | src/daemon/server_manager.cpp:788-829 | one acknowledged removal takes the tunnel out of registrations and targets together, and exactly the acknowledgement of that tunnel at its registered revision counts |
| Session.ServerSession.RegisterWindow | src/daemon/server_manager.cpp:881-970 | after a window of registrations each tunnel is registered as asked or was refused, earlier ones are untouched, and no REGISTER collided; it succeeds if nothing is refused and the server answers each request once |
| Session.ServerSession.TakeAnswers | src/daemon/server_manager.cpp:918-969 | the loop takes the responses that waiting for the ids of the window in turn yields; exactly the tunnels answered by an OK are registered; it succeeds if each response answers its request and nothing is refused |
| Session.ServerSession.TakeAnswer | src/daemon/server_manager.cpp:918-969 | an answer registers the tunnel at the asked revision with its target, or records the refusal, or fails the cycle |
| Session.ServerSession.RevokeStale | src/daemon/server_manager.cpp:754-830 | all stale registrations, and no others, are revoked and acknowledged, in windows of 32 |
| Session.ServerSession.RefreshRetained | src/daemon/server_manager.cpp:843-880 | retained tunnels get the snapshot's target, and exactly the wanted, unregistered tunnels of a negotiated mode are listed |
| Session.ServerSession.RegisterMissing | src/daemon/server_manager.cpp:881-970 | all listed tunnels are registered or refused, in windows of 32 |
| Session.ServerSession.ReconcileTunnels | src/daemon/server_manager.cpp:732-979 | after a successful cycle everything registered is wanted at its registered revision and relays to the wanted target, everything wanted is registered, refused or of a mode not negotiated; it wrote removals for the stale and registrations for the missing only; registrations and targets have the same keys at every wait; no removal follows a registration and no registration collides, as long as wanted tunnels have distinct bindings; while storage keeps its promise about bindings, everything registered is registered at the wanted remote endpoint and the server may hold wanted listeners only, each at its wanted binding; with a server that answers each request of a window once, in any order, and nothing refused the cycle succeeds and ends with an empty buffer; it fails only if something was refused, or while a request is open and its response is neither buffered nor coming, or the server sends what cannot be used or answers a request with something that is not its answer |
| Fence.NextIsNext | src/daemon/tunnel_reconciler.cpp:14-21 | the wrapping counter yields the generation of the next bump, and never 0 |
| Fence.SameTokenIff | src/daemon/tunnel_reconciler.cpp:14-21 | two bumps issue the same token exactly when a multiple of 2^64 - 1 bumps lies between |
| Fence.TunnelReconciler.constructor | src/daemon/tunnel_reconciler.cpp:11-12 | no generation is current at start |
| Fence.TunnelReconciler.BeginGeneration | src/daemon/tunnel_reconciler.cpp:23-37 | bumps, returns the current token, and resets the active rows unless the database refuses |
| Fence.TunnelReconciler.EndGeneration | src/daemon/tunnel_reconciler.cpp:39-57 | resets the active rows only for the current token |
| Fence.TunnelReconciler.Invalidate | src/daemon/tunnel_reconciler.cpp:59-74 | bumps and resets the active rows unless the database refuses |
| Fence.TunnelReconciler.Transition | src/daemon/tunnel_reconciler.cpp:76-95 | writes a row, and says so, exactly for the current token, the owning server, the stored revision and a fitting desired state; reports an error exactly for a zero token or revision and, with the current token, for what cannot be stored |
| Fence.RenewKeeps | src/daemon/tunnel_reconciler.cpp:23-74 | beginning and superseding keep the claim that stored active means accepted in the current generation |
| Fence.HappenKeeps | src/daemon/tunnel_reconciler.cpp:76-95 | so does everything a session exchanges and reports |
| Fence.FinishKeeps | src/daemon/tunnel_reconciler.cpp:39-57 | so does the end of an attempt |
| Fence.ChangeKeeps | src/daemon/control_service.cpp:1596-1612 | so do all tunnel and server operations of the control service |
| Fence.StoredActiveWasAccepted | src/daemon/server_manager.cpp:1238-1269 | over every run with a database that takes its resets and fewer bumps than generations: a tunnel stored as active was accepted by the server at that revision by a running attempt of the current generation |
| Fence.StaleAttemptIsInert | src/daemon/tunnel_reconciler.cpp:76-95 | over every run, whatever the database does: a token from before the last bump changes no row, unless a multiple of 2^64 - 1 bumps lies between |
| Fence.OnlyNewestTokenWrites | src/daemon/tunnel_reconciler.cpp:76-95 | with fewer bumps than generations whatever changes a row holds the newest token |
| Fence.DeclaredKeepsIff | src/daemon/declarative_config.cpp:1318-1334 | a declarative update keeps the claim exactly when it resets the state, or the row was not active, or its server has no generation |
| Fence.NameOnlyUpdateBreaks | src/daemon/declarative_config.cpp:1325-1334 | a run in which a name-only declarative update leaves a tunnel active at a revision no server accepted |
| Fence.FailedRenewalKeepsIff | src/daemon/tunnel_reconciler.cpp:29-36 | a new generation whose reset the database refused keeps the claim exactly when the server has no active row |
| Fence.FailedRenewalBreaks | src/daemon/tunnel_reconciler.cpp:29-36 | a run in which that happens with an active row |
| Records.NextKeyIsFree | include/minitun/daemon/credential_keys.hpp:75-83 | the next slot is one of the server's two and not the one in use |
| Storage.FollowingIsOwned | include/minitun/daemon/credential_keys.hpp:75-83 | rows that keep references or exchange them for slots of their own still refer to no key twice and to no slot of another |
| Storage.FormerIsSpare | include/minitun/daemon/credential_keys.hpp:85-142 | the key a row gave up, also one of an earlier version, and its slots are in nobody's use, except what the row refers to now |
| Storage.Stores.Put | src/daemon/control_service.cpp:87-100 | a credential is written to a slot that no row names, and the stores still agree |
| Storage.Stores.Remove | src/daemon/control_service.cpp:104-111 | removing a slot that no row names keeps the stores in agreement |
| Storage.Stores.Commit | src/daemon/control_service.cpp:776-786 | a commit of rows whose references resolve keeps the stores in agreement, and a failed one changes nothing |
| Storage.Stores.CleanUp | include/minitun/daemon/credential_keys.hpp:93-142 | removes only the slots of one kind and a referenced key, never the retained one, and all of them unless a removal fails |
| Plan.FindServer | src/daemon/declarative_config.cpp:650-665 | finds the live row with the id, or else with the name |
| Plan.PrepareServers | src/daemon/declarative_config.cpp:614-784 | succeeds exactly when every server entry fits on its own and no id or name is claimed twice, and then plans each entry for its row |
| Plan.FindTunnel | src/daemon/declarative_config.cpp:869-891 | finds the live row with the id, or else the only one with the name, and reports an ambiguous name |
| Plan.PrepareTunnels | src/daemon/declarative_config.cpp:798-992 | succeeds exactly when every tunnel entry fits, its server is in the document and owns the matched row, and no id or name is claimed twice |
| Plan.PrepareDrops | src/daemon/declarative_config.cpp:994-1031 | drops exactly the managed resources that no entry matched, and fails exactly when a server to drop has an unmanaged child |
| Plan.PreparePlan | src/daemon/declarative_config.cpp:557-1031 | a plan exists exactly when the document fits the state, and is then the specified one |
| Plan.MatchedTunnelKeepsServer | src/daemon/declarative_config.cpp:909-912 | a matched tunnel belongs to a server of the document |
| Plan.PruneIsSafe | src/daemon/declarative_config.cpp:994-1031 | only managed resources are dropped, none without the prune flag, none that an entry claims, and with a server every tunnel of it is in the drop set |
| Apply.Transact | src/daemon/declarative_config.cpp:1245-1374 | a transaction succeeds exactly when every row to write is as planned on, below the last revision, with a name or listener that is free when its turn comes and a server to belong to, and every row to drop has its planned revision; it then wrote every planned row, dropped what was planned, cascaded from dropped servers, and left every other row alone |
| Apply.WriteServers | src/daemon/declarative_config.cpp:1249-1299 | the rows are written one after another exactly when none has moved and each name is free in its turn, said of the rows as they were before the first |
| Apply.WriteTunnels | src/daemon/declarative_config.cpp:1301-1341 | the same for tunnels, their listeners and their servers |
| Apply.NameTakenIff | src/storage/database.cpp:43 | halfway through, a name is another row's exactly when an untouched row had it before or an earlier write took it |
| Apply.ListenerTakenIff | src/storage/database.cpp:252 | the same for the public listeners of a server |
| Apply.QuietCommitIff | src/daemon/declarative_config.cpp:1249-1374 | a plan committed on the very rows it was made on goes through exactly when no name or listener is blocked, no id is that of a tombstone and no revision is the last |
| Apply.HandedOnNameIff | src/daemon/declarative_config.cpp:1249-1299 | a name handed from one server to another is accepted exactly when the giver is listed first |
| Apply.SwapIsRefused | src/daemon/declarative_config.cpp:1249-1299 | two servers cannot exchange their names |
| Apply.SwapIsPlanned | src/daemon/declarative_config.cpp:557-784 | a document that exchanges two names, which is planned and cannot be committed on the same rows |
| Apply.RemoveServers | src/daemon/declarative_config.cpp:1359-1374 | buries the planned servers and all their tunnels exactly when their revisions have not moved |
| Apply.Stage | src/daemon/declarative_config.cpp:1223-1243 | puts changed credentials into free slots and writes no other slot, with the stores in agreement throughout; fails only if a write fails |
| Apply.Abort | src/daemon/declarative_config.cpp:1074-1084 | empties staged slots only, and all of them unless a removal fails, with the stores in agreement throughout |
| Apply.Clean | src/daemon/declarative_config.cpp:1381-1398 | removes superseded slots only, and all of them unless a removal fails, with the stores in agreement throughout |
| Apply.CommitIsSound | src/daemon/declarative_config.cpp:1270-1275 | at the moment of commit every reference of every live server resolves among the staged credentials |
| Apply.ApplyDocument | src/daemon/declarative_config.cpp:1214-1402 | an error leaves the database as others left it and touches staged slots only; a success is a plan committed on the live rows; unless a write fails it succeeds exactly when the document can be planned and the plan is empty or goes through on the live rows, and leaves no superseded or staged slot behind; the stores agree after every write |
| Idempotence.ServerRowAfter | src/daemon/declarative_config.cpp:1249-1299 | after the apply the row of a server entry agrees with the entry and names the planned slots |
| Idempotence.ValueAfter | src/daemon/declarative_config.cpp:449-502 | after the apply each reference of a server in the document yields the configured value |
| Idempotence.ServerIsSettled | src/daemon/declarative_config.cpp:614-784 | planning a server entry again finds its row, by id or by name, and nothing to change |
| Idempotence.TunnelNameIsUnique | src/daemon/declarative_config.cpp:877-891 | after the apply no other live tunnel bears the name of an entry found by name |
| Idempotence.TunnelIsSettled | src/daemon/declarative_config.cpp:798-992 | planning a tunnel entry again finds its row, its server and nothing to change |
| Idempotence.SecondPlanIsEmpty | src/daemon/declarative_config.cpp:557-1072 | after an apply, planning the same document with the same prune flag succeeds and has no actions, whatever ids would be generated |
| Idempotence.ApplyThenPlan | src/daemon/declarative_config.cpp:1214-1402 | the same for the two operations run one after the other |
| Idempotence.LateServersAreExact | src/daemon/declarative_config.cpp:1260-1299 | a commit on rows that others changed overwrote only servers whose revision had not moved: each agrees with its entry at the next revision, and unlisted servers are as others left them |
| Idempotence.LateTunnelsAreExact | src/daemon/declarative_config.cpp:1312-1341 | the same for tunnels, which also keep their server |
| Idempotence.LateTunnelIsDroppedIff | src/daemon/declarative_config.cpp:1343-1374 | a tunnel live at commit goes exactly when it or its server was planned to go |
| Idempotence.LatePruneIsSafeIff | src/daemon/declarative_config.cpp:1359-1374 | a prune removes managed tunnels only, exactly when no unmanaged tunnel is under a dropped server at commit |
| Idempotence.LateTunnelIsLost | src/daemon/declarative_config.cpp:1359-1374 | an unmanaged tunnel added between planning and committing is removed |
| Control.Login | src/daemon/control_service.cpp:736-798 | the new PSK is in the free slot and named by the row at the next revision, or the rows are unchanged; unless a write fails this happens exactly for a live row below the last revision, and neither the other slot nor the key referred to before is left; no other key changes, and the stores agree after every write |
| Control.Logout | src/daemon/control_service.cpp:1168-1231 | PSK and client certificate references are dropped before their keys are emptied, the CA stays; unless a write fails it succeeds exactly for a live row that is logged out or below the last revision, and leaves none of those slots and keys; the stores agree after every write |
| Control.UpdateServer | src/daemon/control_service.cpp:841-1036 | the row carries the edit and the staged references at the next revision, and each reference yields the edited or the kept value, or the rows are unchanged; unless a write fails it succeeds exactly when the resulting material fits and the name is free, and leaves no superseded key; no key of another server changes, and the stores agree after every write |
| Control.RemoveServer | src/daemon/control_service.cpp:1314-1370 | a server is buried before its credentials go and erased only when all of them are gone; unless a write fails a live server is erased with its tunnels, slots and keys; no key of another server changes, and the stores agree after every write |
| Control.Purge | src/daemon/server_manager.cpp:1655-1673 | for a tombstone read earlier, whatever the id is now: unless a write fails the stores agree afterwards exactly when no live server refers to a slot of the id or a key of the tombstone; the row is erased exactly when it is a tombstone whose tunnels are tombstones |
| Control.PurgeIsHarmlessIff | src/daemon/server_manager.cpp:1655-1673 | which is so exactly when the id has not come to life again with a slot of its own or a key that the tombstone had |
| Control.LatePurgeBreaks | src/daemon/server_manager.cpp:1655-1673 | a server removed, declared again and logged in loses its new PSK to a purge of the old tombstone |
| Control.Erase | src/storage/server_repository.cpp:497-548 | only a tombstone whose tunnels are tombstones is erased, with them |
| Recovery.RecoverKind | apps/minitund_main.cpp:169-202 | a reference is kept exactly when it resolves, and of the slots of the kind and the key referred to it alone is left |
| Recovery.RecoverCredentials | apps/minitund_main.cpp:169-218 | references are kept that resolve, certificate and key only together, and of the server's slots and keys exactly those are left, unchanged |
| Recovery.RecoverServer | apps/minitund_main.cpp:139-238 | a removed server is erased with its slots and keys; any other has its row recovered, at the next revision if it changed; no key of another server changes |
| Recovery.NormalIsTidy | src/storage/state_repository.cpp:165-240 | once states are normalised every tombstone can be erased, and references and names are as before |
| Recovery.Recover | apps/minitund_main.cpp:135-241 | from any state of the two stores in which no key is referred to twice: afterwards every reference resolves, certificate and key are present together, no removed server is left, and no slot of a known server is orphaned; unless a write fails it succeeds exactly when no row that must change is at the last revision; after a failure, too, no key is referred to twice and names are unique, so that recovery can be tried again |
| Lifecycle.WriteIsOk | src/daemon/control_service.cpp:746-763 | each operation and each declarative write leaves its row in a state the configuration allows |
| Lifecycle.WriteAdvances | src/daemon/control_service.cpp:458-465 | each write raises the revision, or leaves credentials and desired state alone, or buries the row |
| Lifecycle.ReportKeeps | src/daemon/server_manager.cpp:1307-1345 | a report of a session, superseded or not, keeps what every careful run keeps |
| Lifecycle.ManageKeeps | src/daemon/server_manager.cpp:1700-1757 | so do opening, refreshing and superseding a session |
| Lifecycle.MergeIsOk | src/daemon/declarative_config.cpp:1276-1292 | a declarative write resets the state whenever the credentials or the desired state changed |
| Lifecycle.RecoveredIsOk | apps/minitund_main.cpp:219-224 | normalising and recovering leave a row in a state its configuration allows |
| Lifecycle.StoredStatesAreOk | src/daemon/server_manager.cpp:1307-1345 | over every interleaving of operations, applies, sessions opened, refreshed and superseded, reports and restarts in which an id is taken again only once no plan and no session that may write knows a row of it: without a PSK a server is stored only as not authenticated or disabled, one to be disabled only as disabled, and an equal revision means an equal configuration |
| Lifecycle.ReusedIdBreaks | src/daemon/declarative_config.cpp:677-698 | from every state in which a session that was not superseded is left of an id that is gone: a run that declares the id again, raises its revision and ends with a server stored as online without a PSK |
| Lifecycle.ReuseIsSafeIff | src/daemon/server_manager.cpp:204-216 | an id that no plan knows may be taken again, whatever careful steps follow, exactly when no session of it is left that was not superseded |
| Lifecycle.StalePlanBreaks | src/daemon/declarative_config.cpp:1260-1292 | a plan made for a disabled server of the id does the same harm |
| Workers.WorkerBudget.constructor | src/daemon/worker_pool.cpp:77-78 | a budget has room for at least one |
| Workers.WorkerBudget.TryAcquire | src/daemon/worker_pool.cpp:80-88 | the compare-and-swap loop, spurious failures included, takes effect at once on the value others left, and never exceeds the maximum |
| Workers.WorkerBudget.ReleaseOne | src/daemon/worker_pool.cpp:90-94 | the compare-and-swap loop, spurious failures included, gives back one at once, clamped at zero |
| Workers.SpawnKeeps | src/daemon/worker_pool.cpp:841-881 | each step of a spawn keeps the counters equal to what is held |
| Workers.BirthKeeps | src/daemon/worker_pool.cpp:866-879 | a new worker takes over both slots of the spawn |
| Workers.GiveBackKeeps | src/daemon/worker_pool.cpp:893-910 | each release keeps the counters equal to what is held, and finds its counter above zero, so that the clamp never fires |
| Workers.DestroyKeeps | src/daemon/worker_pool.cpp:113-116 | destroying a session gives back its connection, from a counter above zero |
| Workers.BudgetsAreConserved | src/daemon/worker_pool.cpp:767-943 | over every run of any number of pools: both counters equal what is held and stay within their maximum |
| Workers.CountersAtRest | src/daemon/worker_pool.cpp:841-943 | between handlers the idle counter is the sum of the available workers and the connection counter the number of sessions alive |
| Workers.IdleNeverExceedsConnections | src/daemon/worker_pool.cpp:936-943 | over every run in which each forced stop finds a pool without available workers, idle slots never outnumber connections |
| Workers.ForcedStopIsHarmlessIff | src/daemon/worker_pool.cpp:936-943 | after any run so far without harm, a forced stop leaves idle slots within connections, whatever harmless steps follow, exactly when it finds no available workers |
| Workers.ForcedStopCanBreak | src/daemon/worker_pool.cpp:936-943 | after any run at all, a forced stop that finds available workers can be continued to more idle slots than connections |
| Workers.IdleWithinConnectionsIff | src/daemon/worker_pool.cpp:841-943 | exactly when they do not: idle slots of workers that are gone and of spawns are at most the workers without an idle slot and the connections of spawns |
| Workers.OrderlyStopsAreHarmless | src/daemon/worker_pool.cpp:767-805 | a forced stop finds no available workers when no pool is started while it is being stopped |
| Workers.RestartBreaks | src/daemon/worker_pool.cpp:745-753 | a run from the start, with one pool started again before its forced stop, that ends with one idle slot in use and no connection |
| Streams.DecodeAppend | src/protocol/frame.cpp:228-291 | decoding two pieces one after the other is decoding them together |
| Streams.ChunkingIsInvisible | src/protocol/frame.cpp:228-291 | however a stream is cut into calls, the verdict and error code are those of the byte-at-a-time decoder, and so are the frames, or a prefix of them if the stream is malformed |
| Streams.CutsAgree | src/ipc/frame.cpp:75-138 | two ways of cutting a stream give the same verdict, and the same frames if it is well formed |
| RemoteFrames.HeaderRoundTrip | src/protocol/frame.cpp:319-357 | an acceptable header parses back to itself |
| RemoteFrames.HeaderIsCanonical | src/protocol/frame.cpp:319-357 | an accepted header is the encoding of what it parses to |
| RemoteFrames.EncodesIff | src/protocol/frame.cpp:184-219 | a frame is encoded exactly when a decoder with the same limit can return it for some stream |
| RemoteFrames.EncodedStreamDecodes | src/protocol/frame.cpp:184-291 | decoding the concatenation of what the encoder returned for some frames returns those frames and ends between frames |
| RemoteFrames.DecodedStreamIsCanonical | src/protocol/frame.cpp:228-357 | a stream that decodes is the encoding of its frames followed by what is pending |
| RemoteFrames.BufferedIsBounded | src/protocol/frame.cpp:313-315 | what is buffered between calls never exceeds the frame limit |
| RemoteFrames.FrameDecoder.constructor | src/protocol/frame.cpp:221-222 | starts between frames with the limit clamped |
| RemoteFrames.FrameDecoder.ParseHeader | src/protocol/frame.cpp:319-357 | accepts and rejects headers as specified, with the specified code |
| RemoteFrames.FrameDecoder.Feed | src/protocol/frame.cpp:228-291 | the buffer-filling loop computes what the byte-at-a-time decoder computes, except that a failing call delivers no frames |
| RemoteFrames.FrameDecoder.Finish | src/protocol/frame.cpp:293-302 | a stream may end exactly between frames |
| RemoteFrames.FrameDecoder.Reset | src/protocol/frame.cpp:304-311 | starts over between frames |
| RemoteFrames.FeedChunks | src/protocol/frame.cpp:228-291 | feeding chunks one by one delivers what the specification says, and fails when it says |
| IpcFrames.EncodesIff | src/ipc/frame.cpp:37-66 | a payload is encoded exactly when a decoder with the same limit can return it for some stream |
| IpcFrames.EncodedStreamDecodes | src/ipc/frame.cpp:37-138 | decoding the concatenation of what the encoder returned for some payloads returns those payloads |
| IpcFrames.DecodedStreamIsCanonical | src/ipc/frame.cpp:75-138 | a stream that decodes is the encoding of its payloads followed by what is pending |
| IpcFrames.BufferedIsBounded | src/ipc/frame.cpp:161-161 | what is buffered never exceeds the limit or an incomplete header |
| IpcFrames.BufferedWithinLimitIff | src/ipc/frame.cpp:13-15 | the limit bounds what is buffered exactly when it is at least 3 |
| IpcFrames.FrameDecoder.constructor | src/ipc/frame.cpp:68-69 | starts between frames with the limit clamped from above |
| IpcFrames.FrameDecoder.Feed | src/ipc/frame.cpp:75-138 | the loop computes what the byte-at-a-time decoder computes, except that a failing call delivers no frames |
| IpcFrames.FrameDecoder.Finish | src/ipc/frame.cpp:140-149 | a stream may end exactly between frames |
| IpcFrames.FrameDecoder.Reset | src/ipc/frame.cpp:151-159 | starts over between frames |
| IpcFrames.FeedChunks | src/ipc/frame.cpp:75-138 | feeding chunks one by one delivers what the chunked specification delivers |
| Codec.ReadImage | src/protocol/codec.cpp:120-224 | reading a field returns what was written and leaves the rest |
| Codec.ReadCanonical | src/protocol/codec.cpp:120-224 | what can be read as a field was written that way |
| Codec.ReadAllImages | src/protocol/codec.cpp:120-232 | reading fields returns what was written and leaves the rest |
| Codec.ReadAllCanonical | src/protocol/codec.cpp:120-232 | what can be read as fields was written that way |
| Codec.PayloadWriter.Write | src/protocol/codec.cpp:23-79 | appends the image of one field, or fails and keeps the first error |
| Codec.PayloadWriter.WriteAll | src/protocol/codec.cpp:60-109 | writes all fields exactly when each is acceptable and all of them fit |
| Codec.PayloadReader.ReadField | src/protocol/codec.cpp:120-224 | reads one field as specified and moves behind it |
| ErrorNames.CodeRoundTrip | src/common/error.cpp:8-111 | every error code is found by its name |
| ErrorNames.CodeIsCanonical | src/common/error.cpp:52-111 | a name that is found is the name of the code |
| ErrorNames.FailureHasCode | src/protocol/messages.cpp:456-472 | the name of a failure is accepted by the decoders |
| ErrorNames.AcceptedIsFailure | src/protocol/messages.cpp:456-472 | a name the decoders accept is the name of a failure |
| Messages.IdIsText | src/common/id.cpp:87-128 | an identifier is text and fits its field |
| Messages.ModeRoundTrip | src/protocol/messages.cpp:68-101 | a tunnel mode is read back, TCP from no byte at all |
| Messages.ModeIsCanonical | src/protocol/messages.cpp:68-89 | an accepted mode extension is the one the encoder writes; a lone TCP byte is not accepted |
| Messages.TailRoundTrip | src/protocol/messages.cpp:755-857 | mode, source and observed host of a relay are read back when they are numeric, bounded and have a port |
| Messages.TailIsCanonical | src/protocol/messages.cpp:790-857 | accepted relay extensions are the ones the encoder writes |
| Messages.RoundTrip | src/protocol/messages.cpp:234-915 | any valid message of any of the 17 kinds is encoded and decodes back to itself |
| Messages.DecodedIsCanonical | src/protocol/messages.cpp:234-915 | any accepted payload of any kind re-encodes to exactly the same bytes |
| Messages.DecodesBackIff | src/protocol/messages.cpp:742-857 | an encoded message decodes back to itself exactly when a relay's source, if any, is numeric, bounded and has a port |
| Messages.FromPortZeroIsLost | src/protocol/messages.cpp:742-857 | some relay from port 0 is encoded, and no encoded relay from port 0 is decoded back |
| Messages.ValidEncodes | src/protocol/codec.cpp:90-109 | a valid message always fits a frame |
| Messages.TimeoutRoundTrip | src/protocol/messages.cpp:207-232 | a worker timeout packed into a heartbeat is recovered, and so is the sequence |
| Messages.TimeoutIsCanonical | src/protocol/messages.cpp:207-232 | a heartbeat carries a timeout exactly when it was packed with it |
| RelayCodec.EncodeStartRelay | src/protocol/messages.cpp:742-788 | the writer calls produce the specified encoding, or fail exactly when there is none |
| RelayCodec.DecodeStartRelay | src/protocol/messages.cpp:790-857 | the reader calls compute the specified decoding |
| ReplayCache.ReplayKeyIsInjective | src/protocol/auth.cpp:22-30 | different clients or nonces have different keys |
| ReplayCache.UnexpiredLater | src/protocol/auth.cpp:244-249 | forgetting early what is expired by then changes nothing later |
| ReplayCache.NonceReplayCache.constructor | src/protocol/auth.cpp:227-233 | limits are at least one |
| ReplayCache.NonceReplayCache.Expire | src/protocol/auth.cpp:244-249 | dropping from the front only leaves exactly what is unexpired of everything accepted |
| ReplayCache.NonceReplayCache.Consume | src/protocol/auth.cpp:235-262 | refuses a pair exactly while its last acceptance is unexpired, reports exhaustion exactly when the unexpired ones are as many as the limit, otherwise accepts it; list and index hold the same distinct keys, and two acceptances of a pair are a retention time apart |
| ReplayCache.NonceReplayCache.VerifyAndConsume | src/protocol/auth.cpp:269-297 | a nonce is used up only by a proof that holds, and is then ruled on as by consuming it |
| RateLimiter.RecentLater | src/protocol/auth.cpp:349-355 | pruning early changes nothing later |
| RateLimiter.FailureStands | src/protocol/auth.cpp:330-336 | an entry that stands for a history stands for the longer history after a failure |
| RateLimiter.AuthRateLimiter.constructor | src/protocol/auth.cpp:299-308 | limits are at least one |
| RateLimiter.AuthRateLimiter.Prune | src/protocol/auth.cpp:349-355 | the queue becomes the failures since the last block that are within the window |
| RateLimiter.AuthRateLimiter.Allowed | src/protocol/auth.cpp:310-320 | refuses exactly while the block lasts that the fold over the key's failures yields |
| RateLimiter.AuthRateLimiter.RecordFailure | src/protocol/auth.cpp:322-337 | adds one failure to the history of the key and changes no other, except that a full table forgets, for a new key, exactly one key seen longest ago; the table never exceeds its limit and a queue stays below the failure limit |
| RateLimiter.AuthRateLimiter.RecordSuccess | src/protocol/auth.cpp:339-342 | forgets the key |
| RateLimiter.AuthRateLimiter.EvictOne | src/protocol/auth.cpp:357-368 | forgets one key that was seen longest ago |
| JsonLimits.ParseLimits.constructor | src/ipc/protocol.cpp:224-227 | starts with nothing counted |
| JsonLimits.ParseLimits.Accept | src/ipc/protocol.cpp:229-288 | one event moves the machine as specified, and is accepted as long as it has not failed |
| JsonLimits.TreeRuns | src/ipc/protocol.cpp:143-204 | from any state, the events of a tree leave the machine where it was with the nodes counted, or failed, as the recursion says when it walks members as they are written |
| JsonLimits.ValidateCounts | src/ipc/protocol.cpp:143-204 | the recursion accepts a tree exactly when nothing is too deep or too long and its nodes fit, and then returns their number, said without an order |
| JsonLimits.OrderIsIrrelevant | src/ipc/protocol.cpp:181-203 | the recursion gives the same answer for every order of the members of all objects |
| JsonLimits.StreamingAgrees | src/daemon/declarative_config.cpp:151-209 | for any order in which the parsed objects list their members: the machine accepts a document exactly when no object repeats a key and the recursion accepts the parsed tree, and then both counted the same nodes |
| Utf8.GrammarIsEncoding | src/protocol/codec.cpp:236-282 | the grammar of section 4 of RFC 3629 accepts exactly the encodings of sequences of Unicode scalar values, each once |
| Utf8.CodePointTest | src/protocol/codec.cpp:245-280 | the test by code point and minimum accepts a sequence exactly when the grammar does |
| Utf8.IsValidByCodePoint | src/protocol/codec.cpp:236-282 | decides the grammar |
| Utf8.IsValidByRanges | src/ipc/protocol.cpp:52-106 | decides the grammar |
| Utf8.SequenceLength | src/common/logging.cpp:49-93 | the length of the character that starts at the offset, or 0 when none does |
| Utf8.BoundedValidUtf8 | src/common/logging.cpp:95-122 | computes the sanitised text |
| Utf8.SanitizedIsWellFormed | src/common/logging.cpp:95-122 | the result is valid UTF-8 within the bound |
| Utf8.SanitizedIsLongest | src/common/logging.cpp:95-122 | on valid input the result is the longest prefix of whole characters that fits |
| Utf8.SanitizedIsIdempotent | src/common/logging.cpp:95-122 | sanitising twice changes nothing |

## Left out

- Sockets, TLS, timers, coroutines and thread pools as such: each awaited operation is one step with an arbitrary outcome.
- SQLite: rows are maps, a transaction is one step; record limits, text validation and time stamps of rows are not modelled.
- The public server and the protocol state machine: the server is arbitrary, or answers each request once where that is said.
- HMAC, randomness and clocks: parameters.
- Error codes and texts of failures, except where a contract names a code.
- Parsing of documents, endpoints and credential files: a declarative document starts out parsed, with its files read; checks of one entry that do not look at the state belong to that parsing.
- Two rows that refer to one and the same credential key: each key is referred to at most once, and a slot only by its own server and kind.
- UTF-8 and finite-number checks of the recursive JSON validator: only its limits are compared with the event machine.
- Memory exhaustion, secure erasure, logging, metrics, failpoints, CLI, admin HTTP server, packaging.
- SOCKS5, the P2P connector, byte and datagram relays, reconnect jitter, port ranges: mostly socket calls or easy.
- Fence.StoredActiveWasAccepted: assumes that an attempt asks only for stored revisions and reports a tunnel active only after it was accepted; the second is what `Session` proves of it, the first is that a snapshot is read from the same rows. An id is added once; one that is declared again starts at revision 1, which this excludes.
- Fence.TunnelReconciler.Transition: kinds of identifiers are types here, so that their check is not modelled.
- Idempotence.LateTunnelsAreExact: assumes that a row keeps its owner and that an equal revision means an equal management flag.
- Lifecycle.ReuseIsSafeIff: is about sessions; that plans must not know the id either is a condition of it, and `Lifecycle.StalePlanBreaks` shows why.
- Session.ServerSession.ReconcileTunnels: asks storage for unique row ids, and frames whose payload cannot be encoded are not modelled. What it says of bindings holds while a revision stands for one binding, which an id declared again, at revision 1, may break.
- Workers.BudgetsAreConserved: a worker session is destroyed in one step once nobody owns it, and handlers of one pool do not overlap.
- Messages.RoundTrip: an error code stands in a message by its name; `ErrorNames` ties names and codes.
- Apply.ApplyDocument: others may change any row between planning and committing but not the credential references, which the control service's lock rules out.
