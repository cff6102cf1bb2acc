/**
  The hub of a cloud-agent run (internal/console/chat_cloud_agent_stream.go) as a transition system.
  The worker goroutine merges an update into the run in one critical section and broadcasts it in a
  later one; at the end it marks the run done and broadcasts a final event. A broadcast happens
  under the lock and evicts (closes and forgets) every subscriber whose channel is full.
  `log`, `known`, `first` and `upto` are history variables.
*/
module RunHub {
  import opened Text
  import opened Channels

  const CHANNEL_CAPACITY: nat := 32

  datatype Operation = Operation(id: string, name: string, status: string, detail: string,
                                 category: string, url: string, screenshotURL: string)

  datatype Update = TextDelta(text: string) | Reasoning(text: string) | Step(operation: Operation)

  /** Updates that the append methods drop: empty texts, operations with neither id nor name. */
  predicate Ignored(u: Update)
  {
    match u
    case TextDelta(text) => text == ""
    case Reasoning(text) => text == ""
    case Step(op) => TrimSpace(op.id) == "" && TrimSpace(op.name) == ""
  }

  datatype Progress = Progress(content: string, reasoning: string, operations: seq<Operation>)

  const NO_PROGRESS := Progress("", "", [])

  // ----- merging

  predicate SameOperation(a: Operation, b: Operation)
  {
    TrimSpace(a.id) == TrimSpace(b.id)
  }

  function Keep(old_: string, new_: string): string
  {
    if TrimSpace(new_) != "" then new_ else old_
  }

  /** The fields of `op` that are not blank replace those of `existing`; the id stays. */
  function Overlay(existing: Operation, op: Operation): Operation
  {
    Operation(existing.id, Keep(existing.name, op.name), Keep(existing.status, op.status),
              Keep(existing.detail, op.detail), Keep(existing.category, op.category), Keep(existing.url, op.url),
              Keep(existing.screenshotURL, op.screenshotURL))
  }

  /** `mergeOperation`: overlay the first operation with the same id, or append. */
  function MergeOperation(ops: seq<Operation>, op: Operation): seq<Operation>
  {
    if ops == [] then [op]
    else if SameOperation(ops[0], op) then [Overlay(ops[0], op)] + ops[1..]
    else [ops[0]] + MergeOperation(ops[1..], op)
  }

  function Merge(p: Progress, u: Update): Progress
  {
    match u
    case TextDelta(text) => p.(content := p.content + text)
    case Reasoning(text) => p.(reasoning := p.reasoning + text)
    case Step(op) => p.(operations := MergeOperation(p.operations, op))
  }

  function MergeAll(p: Progress, updates: seq<Update>): Progress
    decreases |updates|
  {
    if updates == [] then p else MergeAll(Merge(p, updates[0]), updates[1..])
  }

  // ----- the system

  datatype Event = Live(update: Update) | Done | Error

  /** A subscription: `sync` is the progress shown on joining, if any was. */
  datatype Reader = Reader(
    synced: bool, sync: Progress,
    known: nat,               // history: updates merged before joining
    first: nat,               // history: updates broadcast before joining
    upto: nat,                // history: broadcasts seen by this subscription end here
    queue: seq<Event>, open: bool, received: seq<Event>,
    attached: bool)           // the handler has not run its deferred unsubscribe

  datatype Worker = Ready | Merged(update: Update) | Completing(failed: bool, recorded: bool) | Finished(event: Event)

  datatype System = System(progress: Progress, done: bool, errorRecorded: bool, subscribers: set<nat>, nextSubID: nat,
                           log: seq<Update>, worker: Worker, readers: map<nat, Reader>, panicked: bool)

  const START := System(NO_PROGRESS, false, false, {}, 0, [], Ready, map[], false)

  datatype Action =
    | MergeUpdate(update: Update)
    | BroadcastUpdate
    | Complete(failed: bool)
    | RecordError
    | BroadcastFinal
    | Subscribe
    | Receive(id: nat)
    | Leave(id: nat)

  predicate IsFinal(e: Event)
  {
    !e.Live?
  }

  predicate Enabled(s: System, a: Action)
  {
    match a
    case MergeUpdate(u) => s.worker.Ready? && !Ignored(u)
    case BroadcastUpdate => s.worker.Merged? && s.subscribers <= s.readers.Keys
    case Complete(_) => s.worker.Ready?
    case RecordError => s.worker.Completing? && s.worker.failed && !s.worker.recorded
    case BroadcastFinal =>
      s.worker.Completing? && s.worker.failed == s.worker.recorded && s.subscribers <= s.readers.Keys
    case Subscribe => true
    case Receive(id) => id in s.readers && CanReceive(s.readers[id])
    case Leave(id) => id in s.readers && s.readers[id].attached
  }

  predicate CanReceive(r: Reader)
  {
    r.attached && r.queue != [] && (r.received != [] ==> !IsFinal(Last(r.received)))
  }

  /** Whether joining shows the progress so far: only when something visible is there. */
  predicate Visible(p: Progress)
  {
    TrimSpace(p.content) != "" || TrimSpace(p.reasoning) != "" || p.operations != []
  }

  /** One subscriber's part of a broadcast. */
  function Cast(r: Reader, e: Event): Reader
  {
    if |r.queue| < CHANNEL_CAPACITY then
      r.(queue := Offer(r.queue, e, CHANNEL_CAPACITY), upto := if e.Live? then r.upto + 1 else r.upto)
    else r.(open := false)
  }

  function Broadcast(s: System, e: Event): System
    requires s.subscribers <= s.readers.Keys
  {
    s.(readers := map id | id in s.readers :: if id in s.subscribers then Cast(s.readers[id], e) else s.readers[id],
       subscribers := (set id | id in s.subscribers && |s.readers[id].queue| < CHANNEL_CAPACITY),
       panicked := s.panicked || (exists id :: id in s.subscribers && !s.readers[id].open))
  }

  /** Joining an unfinished run. */
  function Join(s: System): Reader
  {
    Reader(Visible(s.progress), s.progress, |s.log|, if s.worker.Merged? && s.log != [] then |s.log| - 1 else |s.log|,
           if s.worker.Merged? && s.log != [] then |s.log| - 1 else |s.log|, [], true, [], true)
  }

  function DoMerge(s: System, u: Update): System
  {
    s.(progress := Merge(s.progress, u), log := s.log + [u], worker := Merged(u))
  }

  function DoBroadcastUpdate(s: System): System
    requires Enabled(s, BroadcastUpdate)
  {
    Broadcast(s, Live(s.worker.update)).(worker := Ready)
  }

  function DoBroadcastFinal(s: System): System
    requires Enabled(s, BroadcastFinal)
  {
    var event := if s.worker.failed then Error else Done;
    Broadcast(s, event).(worker := Finished(event))
  }

  function DoSubscribe(s: System): System
  {
    if s.done then s
    else
      s.(readers := s.readers[s.nextSubID := Join(s)],
         subscribers := s.subscribers + {s.nextSubID}, nextSubID := s.nextSubID + 1)
  }

  function Take(r: Reader): Reader
    requires r.queue != []
  {
    r.(queue := r.queue[1..], received := r.received + [r.queue[0]])
  }

  function DoReceive(s: System, id: nat): System
    requires Enabled(s, Receive(id))
  {
    s.(readers := s.readers[id := Take(s.readers[id])])
  }

  function DoLeave(s: System, id: nat): System
    requires Enabled(s, Leave(id))
  {
    var r := s.readers[id];
    if id in s.subscribers then
      s.(subscribers := s.subscribers - {id}, panicked := s.panicked || !r.open,
         readers := s.readers[id := r.(open := false, attached := false)])
    else s.(readers := s.readers[id := r.(attached := false)])
  }

  function Apply(s: System, a: Action): System
    requires Enabled(s, a)
  {
    match a
    case MergeUpdate(u) => DoMerge(s, u)
    case BroadcastUpdate => DoBroadcastUpdate(s)
    case Complete(failed) => s.(done := true, worker := Completing(failed, false))
    case RecordError => s.(errorRecorded := true, worker := s.worker.(recorded := true))
    case BroadcastFinal => DoBroadcastFinal(s)
    case Subscribe => DoSubscribe(s)
    case Receive(id) => DoReceive(s, id)
    case Leave(id) => DoLeave(s, id)
  }

  /** What a subscriber of a finished run is handed instead of a channel. */
  function LateEvent(s: System): Event
  {
    if s.errorRecorded then Error else Done
  }

  predicate IsRun(s: System, actions: seq<Action>)
    decreases |actions|
  {
    actions == [] || (Enabled(s, actions[0]) && IsRun(Apply(s, actions[0]), actions[1..]))
  }

  function Run(s: System, actions: seq<Action>): System
    requires IsRun(s, actions)
    decreases |actions|
  {
    if actions == [] then s else Run(Apply(s, actions[0]), actions[1..])
  }

  // ----- the invariant

  function Sent(updates: seq<Update>): seq<Event>
  {
    seq(|updates|, i requires 0 <= i < |updates| => Live(updates[i]))
  }

  /** Updates broadcast so far: all that were merged, except one in between. */
  function Broadcasts(s: System): nat
  {
    if s.worker.Merged? && s.log != [] then |s.log| - 1 else |s.log|
  }

  /** A subscription has been sent the updates from `first` to `upto`, all of them and once each, and
      nothing after them but the final event of a finished run. */
  ghost predicate ReaderOk(r: Reader, log: seq<Update>, broadcasts: nat, worker: Worker)
  {
    && r.first <= r.upto <= broadcasts <= |log|
    && r.first <= r.known <= r.first + 1 && r.known <= |log|
    && r.sync == MergeAll(NO_PROGRESS, log[..r.known]) && r.synced == Visible(r.sync)
    && |r.queue| <= CHANNEL_CAPACITY
    && (r.open ==> r.upto == broadcasts && r.attached)
    && EventsOk(r.received + r.queue, Sent(log[r.first..r.upto]), worker)
    && (r.open && worker.Finished? ==> r.received + r.queue != [] && Last(r.received + r.queue) == worker.event)
  }

  ghost predicate EventsOk(events: seq<Event>, live: seq<Event>, worker: Worker)
  {
    || events == live
    || (worker.Finished? && IsFinal(worker.event) && events == live + [worker.event])
  }

  ghost predicate Inv(s: System)
  {
    Core(s) && ReadersOk(s.readers, s.log, Broadcasts(s), s.worker)
  }

  /** The run itself, and: a subscription is registered exactly while its channel is open. */
  ghost predicate Core(s: System)
  {
    && !s.panicked
    && s.progress == MergeAll(NO_PROGRESS, s.log)
    && (s.worker.Merged? ==> s.log != [] && Last(s.log) == s.worker.update)
    && (s.done <==> s.worker.Completing? || s.worker.Finished?)
    && (s.worker.Completing? ==> s.errorRecorded == s.worker.recorded && (s.worker.recorded ==> s.worker.failed))
    && (s.worker.Finished? ==> s.worker.event == LateEvent(s))
    && (!s.done ==> !s.errorRecorded)
    && (forall id :: id in s.readers <==> 0 <= id < s.nextSubID)
    && (forall id :: id in s.subscribers <==> id in s.readers && s.readers[id].open)
  }

  ghost predicate ReadersOk(readers: map<nat, Reader>, log: seq<Update>, broadcasts: nat, worker: Worker)
  {
    forall id :: id in readers ==> ReaderOk(readers[id], log, broadcasts, worker)
  }

  lemma {:induction false} MergeAllAppend(p: Progress, a: seq<Update>, b: seq<Update>)
    ensures MergeAll(p, a + b) == MergeAll(MergeAll(p, a), b)
    decreases |a|
  {
    if a == [] {
      assert a + b == b;
    } else {
      assert (a + b)[1..] == a[1..] + b;
      MergeAllAppend(Merge(p, a[0]), a[1..], b);
    }
  }

  lemma MergeAllSnoc(p: Progress, a: seq<Update>, u: Update)
    ensures MergeAll(p, a + [u]) == Merge(MergeAll(p, a), u)
  {
    MergeAllAppend(p, a, [u]);
    assert MergeAll(Merge(MergeAll(p, a), u), [u][1..]) == Merge(MergeAll(p, a), u);
  }

  /** A step that sends a reader nothing keeps its part of the invariant; it may receive, lose its
      channel or leave. */
  lemma NothingSent(r: Reader, u: Reader, log: seq<Update>, more: seq<Update>, b: nat, c: nat,
                    worker: Worker, next: Worker)
    requires ReaderOk(r, log, b, worker)
    requires u == r.(queue := u.queue, received := u.received, open := u.open, attached := u.attached)
    requires u.received + u.queue == r.received + r.queue && |u.queue| <= |r.queue|
    requires b <= c <= |log + more|
    requires u.open ==> r.open && u.attached && b == c && (next.Finished? ==> worker.Finished?)
    requires worker.Finished? ==> next == worker
    ensures ReaderOk(u, log + more, c, next)
  {
    assert (log + more)[..r.known] == log[..r.known];
    assert (log + more)[r.first..r.upto] == log[r.first..r.upto];
  }

  lemma SentSnoc(updates: seq<Update>, u: Update)
    ensures Sent(updates + [u]) == Sent(updates) + [Live(u)]
  {
  }

  /** One subscriber's part of a broadcast of the latest update. */
  lemma CastUpdate(r: Reader, log: seq<Update>, worker: Worker)
    requires log != [] && worker == Merged(Last(log)) && r.open && ReaderOk(r, log, |log| - 1, worker)
    ensures ReaderOk(Cast(r, Live(Last(log))), log, |log|, Ready)
  {
    var u := Cast(r, Live(Last(log)));
    if u.open {
      SentSnoc(log[r.first..r.upto], log[r.upto]);
      assert u.received + u.queue == (r.received + r.queue) + [Live(Last(log))];
      assert log[u.first..u.upto] == log[r.first..r.upto] + [log[r.upto]];
    }
  }

  lemma CastFinal(r: Reader, log: seq<Update>, worker: Worker, event: Event)
    requires worker.Completing? && IsFinal(event) && r.open && ReaderOk(r, log, |log|, worker)
    ensures ReaderOk(Cast(r, event), log, |log|, Finished(event))
  {
    var u := Cast(r, event);
    if u.open {
      assert u.received + u.queue == (r.received + r.queue) + [event];
    }
  }

  lemma NewReader(s: System)
    requires Core(s) && !s.done
    ensures ReaderOk(Join(s), s.log, Broadcasts(s), s.worker)
  {
    var r := Join(s);
    assert s.log[..|s.log|] == s.log;
    assert r.received + r.queue == [] && Sent(s.log[r.first..r.upto]) == [];
  }

  // Each step, first for the run and its registry, then for the readers.

  lemma CoreMerge(s: System, u: Update)
    requires Core(s) && Enabled(s, MergeUpdate(u))
    ensures Core(DoMerge(s, u))
  {
    MergeAllSnoc(NO_PROGRESS, s.log, u);
  }

  lemma ReadersMerge(s: System, u: Update)
    requires ReadersOk(s.readers, s.log, |s.log|, s.worker) && s.worker.Ready?
    ensures ReadersOk(s.readers, s.log + [u], |s.log|, Merged(u))
  {
    forall id | id in s.readers ensures ReaderOk(s.readers[id], s.log + [u], |s.log|, Merged(u)) {
      NothingSent(s.readers[id], s.readers[id], s.log, [u], |s.log|, |s.log|, s.worker, Merged(u));
    }
  }

  lemma CoreBroadcastUpdate(s: System)
    requires Core(s) && Enabled(s, BroadcastUpdate)
    ensures Core(DoBroadcastUpdate(s))
  {
  }

  lemma CoreBroadcastFinal(s: System)
    requires Core(s) && Enabled(s, BroadcastFinal)
    ensures Core(DoBroadcastFinal(s))
  {
  }

  lemma ReadersBroadcastUpdate(s: System)
    requires Core(s) && ReadersOk(s.readers, s.log, Broadcasts(s), s.worker) && Enabled(s, BroadcastUpdate)
    ensures ReadersOk(DoBroadcastUpdate(s).readers, s.log, |s.log|, Ready)
  {
    var t := Broadcast(s, Live(s.worker.update));
    forall id | id in t.readers ensures ReaderOk(t.readers[id], s.log, |s.log|, Ready) {
      var r := s.readers[id];
      if id in s.subscribers {
        CastUpdate(r, s.log, s.worker);
      } else {
        NothingSent(r, r, s.log, [], Broadcasts(s), |s.log|, s.worker, Ready);
        assert s.log + [] == s.log;
      }
    }
  }

  lemma ReadersBroadcastFinal(s: System)
    requires Core(s) && ReadersOk(s.readers, s.log, Broadcasts(s), s.worker) && Enabled(s, BroadcastFinal)
    ensures ReadersOk(DoBroadcastFinal(s).readers, s.log, |s.log|, DoBroadcastFinal(s).worker)
  {
    var t := DoBroadcastFinal(s);
    forall id | id in t.readers ensures ReaderOk(t.readers[id], s.log, |s.log|, t.worker) {
      var r := s.readers[id];
      if id in s.subscribers {
        CastFinal(r, s.log, s.worker, t.worker.event);
      } else {
        NothingSent(r, r, s.log, [], |s.log|, |s.log|, s.worker, t.worker);
        assert s.log + [] == s.log;
      }
    }
  }

  /** The worker moves on without broadcasting or merging anything. */
  lemma ReadersWorkerMoves(s: System, worker: Worker)
    requires ReadersOk(s.readers, s.log, |s.log|, s.worker) && !s.worker.Finished? && worker.Completing?
    ensures ReadersOk(s.readers, s.log, |s.log|, worker)
  {
    assert s.log + [] == s.log;
    forall id | id in s.readers ensures ReaderOk(s.readers[id], s.log, |s.log|, worker) {
      NothingSent(s.readers[id], s.readers[id], s.log, [], |s.log|, |s.log|, s.worker, worker);
    }
  }

  lemma CoreSubscribe(s: System)
    requires Core(s)
    ensures Core(DoSubscribe(s))
  {
  }

  lemma ReadersSubscribe(s: System)
    requires Core(s) && ReadersOk(s.readers, s.log, Broadcasts(s), s.worker) && !s.done
    ensures ReadersOk(DoSubscribe(s).readers, s.log, Broadcasts(s), s.worker)
  {
    NewReader(s);
  }

  /** One reader receives, loses its channel or leaves. */
  lemma ReadersOneReader(s: System, b: nat, id: nat, u: Reader)
    requires ReadersOk(s.readers, s.log, b, s.worker) && id in s.readers
    requires var r := s.readers[id];
             && u == r.(queue := u.queue, received := u.received, open := u.open, attached := u.attached)
             && u.received + u.queue == r.received + r.queue && |u.queue| <= |r.queue|
             && (u.open ==> r.open && u.attached)
    ensures ReadersOk(s.readers[id := u], s.log, b, s.worker)
  {
    assert s.log + [] == s.log;
    NothingSent(s.readers[id], u, s.log, [], b, b, s.worker, s.worker);
  }

  lemma TakeKeeps(r: Reader)
    requires r.queue != []
    ensures Take(r).received + Take(r).queue == r.received + r.queue
  {
  }

  lemma CoreReceive(s: System, id: nat)
    requires Core(s) && Enabled(s, Receive(id))
    ensures Core(DoReceive(s, id))
  {
  }

  lemma CoreLeave(s: System, id: nat)
    requires Core(s) && Enabled(s, Leave(id))
    ensures Core(DoLeave(s, id))
  {
  }

  lemma InvReceive(s: System, id: nat)
    requires Inv(s) && Enabled(s, Receive(id))
    ensures Inv(DoReceive(s, id))
  {
    CoreReceive(s, id);
    TakeKeeps(s.readers[id]);
    ReadersOneReader(s, Broadcasts(s), id, Take(s.readers[id]));
  }

  lemma InvLeave(s: System, id: nat)
    requires Inv(s) && Enabled(s, Leave(id))
    ensures Inv(DoLeave(s, id))
  {
    var r := s.readers[id];
    var u := if id in s.subscribers then r.(open := false, attached := false) else r.(attached := false);
    assert u.open ==> id in s.subscribers;
    ReadersOneReader(s, Broadcasts(s), id, u);
    CoreLeave(s, id);
    assert DoLeave(s, id).readers == s.readers[id := u];
  }

  lemma CoreWorkerMoves(s: System, a: Action)
    requires Core(s) && Enabled(s, a) && (a.Complete? || a.RecordError?)
    ensures Core(Apply(s, a))
  {
  }

  lemma InvStep(s: System, a: Action)
    requires Inv(s) && Enabled(s, a)
    ensures Inv(Apply(s, a))
  {
    match a
    case MergeUpdate(u) => CoreMerge(s, u); ReadersMerge(s, u);
    case BroadcastUpdate => CoreBroadcastUpdate(s); ReadersBroadcastUpdate(s);
    case Complete(failed) => CoreWorkerMoves(s, a); ReadersWorkerMoves(s, Completing(failed, false));
    case RecordError => CoreWorkerMoves(s, a); ReadersWorkerMoves(s, s.worker.(recorded := true));
    case BroadcastFinal => CoreBroadcastFinal(s); ReadersBroadcastFinal(s);
    case Subscribe => CoreSubscribe(s); if !s.done { ReadersSubscribe(s); }
    case Receive(id) => InvReceive(s, id);
    case Leave(id) => InvLeave(s, id);
  }

  lemma {:induction false} InvRun(s: System, actions: seq<Action>)
    requires Inv(s) && IsRun(s, actions)
    ensures Inv(Run(s, actions))
    decreases |actions|
  {
    if actions != [] {
      InvStep(s, actions[0]);
      InvRun(Apply(s, actions[0]), actions[1..]);
    }
  }

  lemma InvReachable(actions: seq<Action>)
    requires IsRun(START, actions)
    ensures Inv(Run(START, actions))
  {
    InvRun(START, actions);
  }

  // ----- what every interleaving guarantees

  /** No interleaving closes a channel twice or sends to a closed one: a subscription is registered
      exactly while its channel is open, whoever closed it. */
  lemma RegisteredIffOpen(actions: seq<Action>, id: nat)
    requires IsRun(START, actions)
    ensures var s := Run(START, actions);
            && !s.panicked
            && (id in s.subscribers <==> id in s.readers && s.readers[id].open)
            && s.progress == MergeAll(NO_PROGRESS, s.log)
  {
    InvReachable(actions);
  }

  /** Any subscription, evicted or not, was sent one contiguous run of the updates, beginning with the
      first one broadcast after it joined, and nothing else but the final event. A subscription that
      was not evicted has it up to the latest broadcast. */
  lemma ContiguousRun(actions: seq<Action>, id: nat)
    requires IsRun(START, actions) && id in Run(START, actions).readers
    ensures var s := Run(START, actions);
            var r := s.readers[id];
            var events := r.received + r.queue;
            && r.first <= r.upto <= Broadcasts(s) <= |s.log|
            && (events == Sent(s.log[r.first..r.upto])
                || (s.worker.Finished? && events == Sent(s.log[r.first..r.upto]) + [s.worker.event]))
            && (r.open ==> r.upto == Broadcasts(s))
            && (r.open && s.worker.Finished? ==> events != [] && Last(events) == s.worker.event)
  {
    InvReachable(actions);
    var s := Run(START, actions);
    assert ReaderOk(s.readers[id], s.log, Broadcasts(s), s.worker);
  }

  /** The updates among some events. */
  function Updates(events: seq<Event>): seq<Update>
  {
    if events == [] then []
    else Updates(events[..|events| - 1]) + if IsFinal(Last(events)) then [] else [Last(events).update]
  }

  /** The updates that a subscriber has been sent: those it received and those still in its channel. */
  function Got(r: Reader): seq<Update>
  {
    Updates(r.received + r.queue)
  }

  lemma {:induction false} UpdatesOfSent(updates: seq<Update>)
    ensures Updates(Sent(updates)) == updates
  {
    if updates != [] {
      var front, last := updates[..|updates| - 1], Last(updates);
      assert updates == front + [last];
      SentSnoc(front, last);
      UpdatesOfSent(front);
      assert Sent(updates)[..|updates| - 1] == Sent(front);
    }
  }

  /** What any subscriber was sent is a slice of the updates. */
  lemma GotIsSlice(s: System, id: nat)
    requires Inv(s) && id in s.readers
    ensures var r := s.readers[id];
            && ReaderOk(r, s.log, Broadcasts(s), s.worker)
            && Got(r) == s.log[r.first..r.upto]
  {
    var r := s.readers[id];
    assert ReaderOk(r, s.log, Broadcasts(s), s.worker);
    var live, events := Sent(s.log[r.first..r.upto]), r.received + r.queue;
    UpdatesOfSent(s.log[r.first..r.upto]);
    if events != live {
      assert events[..|events| - 1] == live && Last(events) == s.worker.event;
    }
  }

  /** The progress shown on joining covers every update broadcast before, and at most one more: the one
      that was merged and not yet broadcast, which the subscription is then also sent. */
  lemma SnapshotOverlapsByAtMostOne(actions: seq<Action>, id: nat)
    requires IsRun(START, actions) && id in Run(START, actions).readers
    ensures var s := Run(START, actions);
            var r := s.readers[id];
            && r.first <= r.known <= r.first + 1 && r.known <= |s.log|
            && r.sync == MergeAll(NO_PROGRESS, s.log[..r.known]) && r.synced == Visible(r.sync)
  {
    InvReachable(actions);
    var s := Run(START, actions);
    assert ReaderOk(s.readers[id], s.log, Broadcasts(s), s.worker);
  }

  // ----- the texts a subscriber sees

  function DeltaText(u: Update): string
  {
    if u.TextDelta? then u.text else ""
  }

  function ReasoningText(u: Update): string
  {
    if u.Reasoning? then u.text else ""
  }

  /** The texts of one kind, one after the other. */
  function TextsOf(updates: seq<Update>, of: Update -> string): string
  {
    if updates == [] then "" else of(updates[0]) + TextsOf(updates[1..], of)
  }

  function ContentOf(updates: seq<Update>): string
  {
    TextsOf(updates, DeltaText)
  }

  function ReasoningOf(updates: seq<Update>): string
  {
    TextsOf(updates, ReasoningText)
  }

  lemma {:induction false} TextsOfAppend(a: seq<Update>, b: seq<Update>, of: Update -> string)
    ensures TextsOf(a + b, of) == TextsOf(a, of) + TextsOf(b, of)
  {
    if a == [] {
      assert a + b == b;
    } else {
      assert (a + b)[1..] == a[1..] + b;
      TextsOfAppend(a[1..], b, of);
      Associate(of(a[0]), TextsOf(a[1..], of), TextsOf(b, of));
    }
  }

  lemma {:induction false} MergedTexts(p: Progress, updates: seq<Update>)
    ensures MergeAll(p, updates).content == p.content + ContentOf(updates)
    ensures MergeAll(p, updates).reasoning == p.reasoning + ReasoningOf(updates)
    decreases |updates|
  {
    if updates != [] {
      var u := updates[0];
      MergedTexts(Merge(p, u), updates[1..]);
      Associate(p.content, DeltaText(u), ContentOf(updates[1..]));
      Associate(p.reasoning, ReasoningText(u), ReasoningOf(updates[1..]));
    }
  }

  lemma ProgressOf(updates: seq<Update>)
    ensures MergeAll(NO_PROGRESS, updates).content == ContentOf(updates)
    ensures MergeAll(NO_PROGRESS, updates).reasoning == ReasoningOf(updates)
  {
    MergedTexts(NO_PROGRESS, updates);
  }

  /** In every interleaving the run's text is the concatenation of all deltas, its reasoning that of all
      reasoning texts, each in the order in which the updates came, and it has one operation for each id. */
  lemma RunIsItsUpdates(actions: seq<Action>)
    requires IsRun(START, actions)
    ensures var s := Run(START, actions);
            && s.progress.content == ContentOf(s.log) && s.progress.reasoning == ReasoningOf(s.log)
            && DistinctIds(s.progress.operations) && Ids(s.progress.operations) == MentionedIds(s.log)
  {
    InvReachable(actions);
    ProgressOf(Run(START, actions).log);
    OperationsAreMentioned(Run(START, actions).log);
  }

  /** The text on a subscriber's screen: the progress shown on joining, if any, then the deltas. */
  function ScreenText(r: Reader, updates: seq<Update>): string
  {
    (if r.synced then r.sync.content else "") + ContentOf(updates)
  }

  /** The reasoning on it, likewise. */
  function ScreenReasoning(r: Reader, updates: seq<Update>): string
  {
    (if r.synced then r.sync.reasoning else "") + ReasoningOf(updates)
  }

  /** What of the updates a subscriber that is up to date has twice, or not at all: with a snapshot those that
      the snapshot has and that it is sent again, without one those broadcast before it joined. */
  function Overlap(r: Reader, log: seq<Update>): seq<Update>
    requires r.first <= r.known <= |log|
  {
    if r.synced then log[r.first..r.known] else log[..r.first]
  }

  /** Texts up to `known`, if they are shown, and then from `first` on are all texts exactly if there is none
      in what is doubled or missing. */
  lemma ShownIff(r: Reader, log: seq<Update>, of: Update -> string)
    requires r.first <= r.known <= |log|
    ensures (if r.synced then TextsOf(log[..r.known], of) else "") + TextsOf(log[r.first..], of) == TextsOf(log, of)
            <==> TextsOf(Overlap(r, log), of) == ""
  {
    var before, after := TextsOf(log[..r.first], of), TextsOf(log[r.first..], of);
    var overlap := TextsOf(log[r.first..r.known], of);
    TextsOfAppend(log[..r.first], log[r.first..], of);
    TextsOfAppend(log[..r.first], log[r.first..r.known], of);
    assert log == log[..r.first] + log[r.first..] && log[..r.known] == log[..r.first] + log[r.first..r.known];
    if r.synced {
      assert |before + overlap + after| == |before| + |overlap| + |after| == |before + after| + |overlap|;
      if overlap == "" { assert before + overlap == before; }
    } else {
      assert "" + after == after && |before + after| == |before| + |after|;
      if before == "" { assert before + after == after; }
    }
  }

  /** When the screen is right. Once everything merged has been broadcast, a subscriber that was not
      evicted shows, with all that it was sent, exactly the text of the run if and only if, when it joined,
      either the progress was shown and no text was in flight, or nothing was shown and no text at all (not
      even white space) had been broadcast before. For the reasoning the same holds of reasoning texts. */
  lemma ScreenIsRight(actions: seq<Action>, id: nat)
    requires IsRun(START, actions)
    requires var s := Run(START, actions); id in s.readers && s.readers[id].open && Broadcasts(s) == |s.log|
    ensures var s := Run(START, actions);
            var r := s.readers[id];
            && r.first <= r.known <= |s.log|
            && (ScreenText(r, Got(r)) == s.progress.content <==> ContentOf(Overlap(r, s.log)) == "")
            && (ScreenReasoning(r, Got(r)) == s.progress.reasoning <==> ReasoningOf(Overlap(r, s.log)) == "")
  {
    InvReachable(actions);
    var s := Run(START, actions);
    var r := s.readers[id];
    GotIsSlice(s, id);
    assert Got(r) == s.log[r.first..];
    ProgressOf(s.log);
    ProgressOf(s.log[..r.known]);
    ShownIff(r, s.log, DeltaText);
    ShownIff(r, s.log, ReasoningText);
  }

  /** The progress is shown on joining exactly if there is text or reasoning that is not blank, or an
      operation, among the updates merged by then. */
  lemma SnapshotShownIff(actions: seq<Action>, id: nat)
    requires IsRun(START, actions) && id in Run(START, actions).readers
    ensures var s := Run(START, actions);
            var r := s.readers[id];
            && r.known <= |s.log|
            && (r.synced <==>
                  || !AllSpace(ContentOf(s.log[..r.known]))
                  || !AllSpace(ReasoningOf(s.log[..r.known]))
                  || exists i :: 0 <= i < r.known && s.log[i].Step?)
  {
    InvReachable(actions);
    var s := Run(START, actions);
    var r := s.readers[id];
    assert ReaderOk(r, s.log, Broadcasts(s), s.worker);
    var known := s.log[..r.known];
    ProgressOf(known);
    AnyOperation(NO_PROGRESS, known);
    assert forall i :: 0 <= i < r.known ==> known[i] == s.log[i];
    var l, t := TrimSpaceSplits(r.sync.content);
    var m, u := TrimSpaceSplits(r.sync.reasoning);
  }

  lemma {:induction false} AnyOperation(p: Progress, updates: seq<Update>)
    ensures MergeAll(p, updates).operations != [] <==>
            p.operations != [] || exists i :: 0 <= i < |updates| && updates[i].Step?
    decreases |updates|
  {
    if updates != [] {
      AnyOperation(Merge(p, updates[0]), updates[1..]);
      assert forall i :: 0 < i < |updates| ==> updates[i] == updates[1..][i - 1];
      if updates[0].Step? { MergeOperationAt(p.operations, updates[0].operation); }
    }
  }

  lemma SpaceInPart(a: string, b: string)
    requires AllSpace(a + b)
    ensures AllSpace(a)
  {
    forall i | 0 <= i < |a| ensures IsSpace(a[i]) { assert (a + b)[i] == a[i]; }
  }

  /** What a subscriber can miss is white space only: texts that make the progress look empty. */
  lemma OnlyBlankTextIsMissed(actions: seq<Action>, id: nat)
    requires IsRun(START, actions) && id in Run(START, actions).readers && !Run(START, actions).readers[id].synced
    ensures var s := Run(START, actions);
            var r := s.readers[id];
            && r.first <= r.known <= |s.log|
            && AllSpace(ContentOf(s.log[..r.first])) && AllSpace(ReasoningOf(s.log[..r.first]))
  {
    InvReachable(actions);
    var s := Run(START, actions);
    var r := s.readers[id];
    assert ReaderOk(r, s.log, Broadcasts(s), s.worker);
    SnapshotShownIff(actions, id);
    var before, rest := s.log[..r.first], s.log[r.first..r.known];
    assert s.log[..r.known] == before + rest;
    TextsOfAppend(before, rest, DeltaText);
    TextsOfAppend(before, rest, ReasoningText);
    SpaceInPart(ContentOf(before), ContentOf(rest));
    SpaceInPart(ReasoningOf(before), ReasoningOf(rest));
  }

  lemma RunOfThree(s: System, a: Action, b: Action, c: Action)
    requires Enabled(s, a) && Enabled(Apply(s, a), b) && Enabled(Apply(Apply(s, a), b), c)
    ensures IsRun(s, [a, b, c]) && Run(s, [a, b, c]) == Apply(Apply(Apply(s, a), b), c)
  {
    var t := Apply(Apply(Apply(s, a), b), c);
    assert [a, b, c][1..] == [b, c] && [b, c][1..] == [c] && [c][1..] == [];
    assert Run(Apply(Apply(s, a), b), [c]) == t;
    assert Run(Apply(s, a), [b, c]) == t;
  }

  /** It happens: joining after a lone newline misses it. */
  lemma BlankTextCanBeMissed()
    ensures var actions := [MergeUpdate(TextDelta("\n")), BroadcastUpdate, Subscribe];
            IsRun(START, actions) &&
            var s := Run(START, actions);
            && 0 in s.readers && s.readers[0].open && s.progress.content == "\n"
            && ScreenText(s.readers[0], Got(s.readers[0])) == ""
  {
    var s := Apply(Apply(START, MergeUpdate(TextDelta("\n"))), BroadcastUpdate);
    assert TrimLeft("\n") == "" by { assert "\n"[1..] == ""; }
    assert !Visible(s.progress);
    RunOfThree(START, MergeUpdate(TextDelta("\n")), BroadcastUpdate, Subscribe);
  }

  /** And joining between the merge and the broadcast of a delta shows it twice. */
  lemma InFlightTextIsDoubled()
    ensures var actions := [MergeUpdate(TextDelta("a")), Subscribe, BroadcastUpdate];
            IsRun(START, actions) &&
            var s := Run(START, actions);
            && 0 in s.readers && s.readers[0].open && s.progress.content == "a"
            && s.readers[0].queue == [Live(TextDelta("a"))] && ScreenText(s.readers[0], Got(s.readers[0])) == "aa"
  {
    var s := Apply(START, MergeUpdate(TextDelta("a")));
    assert s.progress.content == "a" && Visible(s.progress);
    RunOfThree(START, MergeUpdate(TextDelta("a")), Subscribe, BroadcastUpdate);
    assert ContentOf([TextDelta("a")]) == "a" by { assert [TextDelta("a")][1..] == []; }
    var r := Run(START, [MergeUpdate(TextDelta("a")), Subscribe, BroadcastUpdate]).readers[0];
    assert r.received + r.queue == Sent([TextDelta("a")]);
    UpdatesOfSent([TextDelta("a")]);
  }

  // ----- operations

  /** No two operations of a list have the same trimmed id. */
  ghost predicate DistinctIds(ops: seq<Operation>)
  {
    forall i, j :: 0 <= i < j < |ops| ==> !SameOperation(ops[i], ops[j])
  }

  /** The first operation with the same trimmed id, or the length of the list. */
  function OperationIndex(ops: seq<Operation>, op: Operation): (k: nat)
    ensures k <= |ops| && (k < |ops| ==> SameOperation(ops[k], op))
    ensures forall i :: 0 <= i < k ==> !SameOperation(ops[i], op)
  {
    if ops == [] || SameOperation(ops[0], op) then 0 else 1 + OperationIndex(ops[1..], op)
  }

  lemma {:induction false} MergeOperationAt(ops: seq<Operation>, op: Operation)
    ensures var k := OperationIndex(ops, op);
            MergeOperation(ops, op) == if k < |ops| then ops[k := Overlay(ops[k], op)] else ops + [op]
  {
    if ops != [] && !SameOperation(ops[0], op) {
      MergeOperationAt(ops[1..], op);
      var k := OperationIndex(ops[1..], op);
      assert ops == [ops[0]] + ops[1..];
      assert k < |ops[1..]| ==> ops[k + 1] == ops[1..][k];
    }
  }

  /** Merging keeps one entry per id, in order of first appearance. */
  lemma MergeKeepsIdsDistinct(ops: seq<Operation>, op: Operation)
    requires DistinctIds(ops)
    ensures DistinctIds(MergeOperation(ops, op))
    ensures |ops| <= |MergeOperation(ops, op)| <= |ops| + 1
    ensures forall i :: 0 <= i < |ops| ==> MergeOperation(ops, op)[i].id == ops[i].id
  {
    MergeOperationAt(ops, op);
  }

  /** Seeing an operation twice in a row is seeing it once, so the doubled in-flight update does no harm
      to operations. */
  lemma {:induction false} MergeTwiceIsOnce(ops: seq<Operation>, op: Operation)
    ensures MergeOperation(MergeOperation(ops, op), op) == MergeOperation(ops, op)
  {
    if ops == [] {
      assert Overlay(op, op) == op;
    } else if !SameOperation(ops[0], op) {
      MergeTwiceIsOnce(ops[1..], op);
    }
  }

  /** The update reports on the operation with a trimmed id. */
  predicate Mentions(u: Update, id: string)
  {
    u.Step? && TrimSpace(u.operation.id) == id
  }

  ghost function MentionedIds(updates: seq<Update>): set<string>
  {
    set i | 0 <= i < |updates| && updates[i].Step? :: TrimSpace(updates[i].operation.id)
  }

  ghost function Ids(ops: seq<Operation>): set<string>
  {
    set i | 0 <= i < |ops| :: TrimSpace(ops[i].id)
  }

  /** The last report of a field of an operation that is not blank or, as long as there is none, the first. */
  ghost function Latest(updates: seq<Update>, id: string, field: Operation -> string): string
  {
    if updates == [] then ""
    else
      var front, last := Init(updates), Last(updates);
      if Mentions(last, id) && (TrimSpace(field(last.operation)) != "" || id !in MentionedIds(front))
      then field(last.operation)
      else Latest(front, id, field)
  }

  /** A field that merging deals with like all others. */
  ghost predicate IsMerged(field: Operation -> string)
  {
    forall a, b :: field(Overlay(a, b)) == if TrimSpace(field(b)) != "" then field(b) else field(a)
  }

  lemma IdsMerged(ops: seq<Operation>, op: Operation)
    ensures Ids(MergeOperation(ops, op)) == Ids(ops) + {TrimSpace(op.id)}
  {
    MergeOperationAt(ops, op);
    var more, k := MergeOperation(ops, op), OperationIndex(ops, op);
    assert TrimSpace(more[k].id) == TrimSpace(op.id);
    forall i | 0 <= i < |ops| ensures TrimSpace(ops[i].id) in Ids(more) { assert more[i].id == ops[i].id; }
    forall i | 0 <= i < |more| ensures TrimSpace(more[i].id) in Ids(ops) + {TrimSpace(op.id)} {
      if i < |ops| { assert more[i].id == ops[i].id; }
    }
  }

  lemma MentionedSnoc(front: seq<Update>, last: Update)
    ensures MentionedIds(front + [last]) ==
            MentionedIds(front) + if last.Step? then {TrimSpace(last.operation.id)} else {}
  {
    var updates := front + [last];
    assert updates[|front|] == last && forall i :: 0 <= i < |front| ==> updates[i] == front[i];
  }

  /** The operations are those that the updates mention, one for each trimmed id. */
  lemma {:induction false} OperationsAreMentioned(updates: seq<Update>)
    ensures var ops := MergeAll(NO_PROGRESS, updates).operations;
            DistinctIds(ops) && Ids(ops) == MentionedIds(updates)
    decreases |updates|
  {
    if updates != [] {
      var front, last := Init(updates), Last(updates);
      assert updates == front + [last];
      OperationsAreMentioned(front);
      MergeAllSnoc(NO_PROGRESS, front, last);
      MentionedSnoc(front, last);
      if last.Step? {
        MergeKeepsIdsDistinct(MergeAll(NO_PROGRESS, front).operations, last.operation);
        IdsMerged(MergeAll(NO_PROGRESS, front).operations, last.operation);
      }
    }
  }

  /** The fields of all operations are the latest. */
  ghost predicate ShowsLatest(ops: seq<Operation>, updates: seq<Update>, field: Operation -> string)
  {
    forall i :: 0 <= i < |ops| ==> field(ops[i]) == Latest(updates, TrimSpace(ops[i].id), field)
  }

  lemma LatestSnoc(front: seq<Update>, last: Update, id: string, field: Operation -> string)
    ensures Latest(front + [last], id, field) ==
            if Mentions(last, id) && (TrimSpace(field(last.operation)) != "" || id !in MentionedIds(front))
            then field(last.operation) else Latest(front, id, field)
  {
    assert Init(front + [last]) == front;
  }

  lemma StepShowsLatest(ops: seq<Operation>, front: seq<Update>, op: Operation, field: Operation -> string)
    requires IsMerged(field) && ShowsLatest(ops, front, field)
    requires DistinctIds(ops) && Ids(ops) == MentionedIds(front)
    ensures ShowsLatest(MergeOperation(ops, op), front + [Step(op)], field)
  {
    MergeOperationAt(ops, op);
    var more, k := MergeOperation(ops, op), OperationIndex(ops, op);
    forall i | 0 <= i < |more| ensures field(more[i]) == Latest(front + [Step(op)], TrimSpace(more[i].id), field) {
      LatestSnoc(front, Step(op), TrimSpace(more[i].id), field);
      if i < |ops| {
        assert more[i].id == ops[i].id && TrimSpace(ops[i].id) in Ids(ops);
        assert i != k ==> !SameOperation(ops[i], op) by {
          if i > k { assert !SameOperation(ops[k], ops[i]); }
        }
      } else {
        assert forall j :: 0 <= j < |ops| ==> !SameOperation(ops[j], op);
        assert TrimSpace(op.id) !in Ids(ops);
      }
    }
  }

  lemma {:induction false} MergedField(updates: seq<Update>, field: Operation -> string)
    requires IsMerged(field)
    ensures ShowsLatest(MergeAll(NO_PROGRESS, updates).operations, updates, field)
    decreases |updates|
  {
    if updates != [] {
      var front, last := Init(updates), Last(updates);
      assert updates == front + [last];
      var ops := MergeAll(NO_PROGRESS, front).operations;
      MergeAllSnoc(NO_PROGRESS, front, last);
      OperationsAreMentioned(front);
      MergedField(front, field);
      if last.Step? {
        StepShowsLatest(ops, front, last.operation, field);
      } else {
        forall i | 0 <= i < |ops| ensures field(ops[i]) == Latest(updates, TrimSpace(ops[i].id), field) {
          LatestSnoc(front, last, TrimSpace(ops[i].id), field);
        }
      }
    }
  }

  /** In every interleaving each operation of the run shows, field by field, the last value that is not blank
      among all the updates with its id. */
  lemma OperationsShowTheLatest(actions: seq<Action>, i: nat)
    requires IsRun(START, actions) && i < |Run(START, actions).progress.operations|
    ensures var s := Run(START, actions);
            var op := s.progress.operations[i];
            var id := TrimSpace(op.id);
            && op.name == Latest(s.log, id, (o: Operation) => o.name)
            && op.status == Latest(s.log, id, (o: Operation) => o.status)
            && op.detail == Latest(s.log, id, (o: Operation) => o.detail)
            && op.category == Latest(s.log, id, (o: Operation) => o.category)
            && op.url == Latest(s.log, id, (o: Operation) => o.url)
            && op.screenshotURL == Latest(s.log, id, (o: Operation) => o.screenshotURL)
  {
    InvReachable(actions);
    var log := Run(START, actions).log;
    MergedField(log, (o: Operation) => o.name);
    MergedField(log, (o: Operation) => o.status);
    MergedField(log, (o: Operation) => o.detail);
    MergedField(log, (o: Operation) => o.category);
    MergedField(log, (o: Operation) => o.url);
    MergedField(log, (o: Operation) => o.screenshotURL);
  }

  lemma {:induction false} OperationsOnly(p: Progress, q: Progress, updates: seq<Update>)
    requires p.operations == q.operations
    ensures MergeAll(p, updates).operations == MergeAll(q, updates).operations
    decreases |updates|
  {
    if updates != [] { OperationsOnly(Merge(p, updates[0]), Merge(q, updates[0]), updates[1..]); }
  }

  /** The progress that a subscriber has on its screen. */
  function Screen(r: Reader): Progress
  {
    MergeAll(if r.synced then r.sync else NO_PROGRESS, Got(r))
  }

  function Max(a: nat, b: nat): nat
  {
    if a < b then b else a
  }

  /** The operations on a subscriber's screen, merged by the same rule from what it was sent, are those of all
      the updates it has heard of, evicted or not. They are those of the run as soon as everything merged has
      been broadcast, unless it was evicted. */
  lemma OperationsAreRight(actions: seq<Action>, id: nat)
    requires IsRun(START, actions) && id in Run(START, actions).readers
    ensures var s := Run(START, actions);
            var r := s.readers[id];
            && Max(r.known, r.upto) <= |s.log|
            && Screen(r).operations == MergeAll(NO_PROGRESS, s.log[..Max(r.known, r.upto)]).operations
            && (r.open && Broadcasts(s) == |s.log| ==> Screen(r).operations == s.progress.operations)
  {
    InvReachable(actions);
    var s := Run(START, actions);
    GotIsSlice(s, id);
    HeardOperations(s.readers[id], s.log, Broadcasts(s), s.worker);
    assert s.log[..|s.log|] == s.log;
  }

  lemma HeardOperations(r: Reader, log: seq<Update>, broadcasts: nat, worker: Worker)
    requires ReaderOk(r, log, broadcasts, worker) && Got(r) == log[r.first..r.upto]
    ensures Screen(r).operations == MergeAll(NO_PROGRESS, log[..Max(r.known, r.upto)]).operations
  {
    OperationsOnly(if r.synced then r.sync else NO_PROGRESS, r.sync, Got(r));
    if r.known <= r.upto {
      var heard := log[..r.upto];
      assert heard[..r.known] == log[..r.known] && heard[r.first..] == log[r.first..r.upto];
      OverlapIsHarmless(heard, r.first, r.known);
    } else {
      assert Got(r) == [];
    }
  }

  /** It takes both: an evicted subscriber misses what was broadcast after its eviction, and any subscriber
      what is in flight. */
  lemma OperationInFlightIsMissed(op: Operation)
    requires !Ignored(Step(op))
    ensures IsRun(START, [Subscribe, MergeUpdate(Step(op))])
    ensures var s := Run(START, [Subscribe, MergeUpdate(Step(op))]);
            && 0 in s.readers && s.readers[0].open && Screen(s.readers[0]).operations == []
            && s.progress.operations == [op]
  {
    var s := Apply(START, Subscribe);
    var t := Apply(s, MergeUpdate(Step(op)));
    assert [Subscribe, MergeUpdate(Step(op))][1..] == [MergeUpdate(Step(op))] && [MergeUpdate(Step(op))][1..] == [];
    assert Run(t, []) == t && Run(s, [MergeUpdate(Step(op))]) == t;
    assert t.readers[0].received + t.readers[0].queue == [];
  }

  lemma OverlapIsHarmless(log: seq<Update>, first: nat, known: nat)
    requires first <= known <= first + 1 && known <= |log|
    ensures MergeAll(MergeAll(NO_PROGRESS, log[..known]), log[first..]).operations ==
            MergeAll(NO_PROGRESS, log).operations
  {
    var before, after := MergeAll(NO_PROGRESS, log[..first]), log[first..];
    assert log == log[..first] + log[first..];
    MergeAllAppend(NO_PROGRESS, log[..first], log[first..]);
    if known == first + 1 {
      var u := log[first];
      assert log[..known] == log[..first] + [u];
      MergeAllSnoc(NO_PROGRESS, log[..first], u);
      if u.Step? { MergeTwiceIsOnce(before.operations, u.operation); }
      assert after[0] == u;
      OperationsOnly(Merge(Merge(before, u), u), Merge(before, u), after[1..]);
    }
  }

  // ----- the end of a run

  /** Once the final event is broadcast, every handler that is still attached ends: by the final event
      or because its channel was closed. Its remaining events are finite, and it can take them all. */
  lemma {:induction false} AttachedHandlerEnds(s: System, id: nat)
    requires Inv(s) && s.worker.Finished? && id in s.readers && s.readers[id].attached
    ensures id in Drain(s, id).readers
    ensures var r := Drain(s, id).readers[id];
            (r.received != [] && IsFinal(Last(r.received))) || (r.queue == [] && !r.open)
    decreases |s.readers[id].queue|
  {
    var r := s.readers[id];
    assert ReaderOk(r, s.log, Broadcasts(s), s.worker);
    if CanReceive(r) {
      InvReceive(s, id);
      AttachedHandlerEnds(DoReceive(s, id), id);
    } else if r.queue == [] && r.open {
      assert r.received + r.queue == r.received;
      assert IsFinal(s.worker.event);
    }
  }

  function Drain(s: System, id: nat): System
    requires id in s.readers
    decreases |s.readers[id].queue|
  {
    if CanReceive(s.readers[id]) then Drain(DoReceive(s, id), id) else s
  }

  /** A subscriber that comes after `done` is set gets a final event at once. It is the one that the
      others get exactly when the run succeeded or its error has been recorded already. */
  lemma LateEventAgrees(actions: seq<Action>)
    requires IsRun(START, actions) && Run(START, actions).done
    ensures var s := Run(START, actions);
            && IsFinal(LateEvent(s)) && DoSubscribe(s) == s
            && (s.worker.Finished? ==> LateEvent(s) == s.worker.event)
            && (s.worker.Completing? ==> (LateEvent(s) == (if s.worker.failed then Error else Done)
                                          <==> !s.worker.failed || s.worker.recorded))
  {
    InvReachable(actions);
  }
}
