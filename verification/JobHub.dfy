/**
  The replay-and-live hub of a background job (internal/ass/jobs.go) as a transition system.
  One step is one critical section of `job.mu`, or one channel operation made outside it. The
  threads are the goroutine that copies the process output (the appender), the one that waits
  for it and finishes the job (the finisher), and any number of stream handlers (the readers).
  The records of a run that the program does not keep (`log`, `joined`, `delivered`, `overflowed`)
  are history variables: no step depends on them.
*/
module JobHub {
  import opened Text
  import opened Channels

  const REPLAY_LIMIT: nat := 4 * 1024 * 1024
  const CHANNEL_CAPACITY: nat := 128

  datatype Event = Delta(text: string) | Done | Error(message: string)

  /** The fields of a job that its mutex guards. `subscribers` holds the ids in the map. */
  datatype Job = Job(replay: string, outputSize: nat, done: bool, exitCode: int, lastError: string,
                     subscribers: set<nat>, nextSubID: nat)

  const NEW_JOB := Job("", 0, false, 0, "", {}, 0)

  // ----- the critical sections

  function AppendLocked(job: Job, delta: string): Job
  {
    job.(replay := Suffix(job.replay + delta, REPLAY_LIMIT), outputSize := job.outputSize + |delta|)
  }

  /** Registering under a new id; a finished job hands out id 0 and registers nothing. */
  function SubscribeLocked(job: Job): (Job, nat)
  {
    if job.done then (job, 0)
    else (job.(nextSubID := job.nextSubID + 1, subscribers := job.subscribers + {job.nextSubID + 1}), job.nextSubID + 1)
  }

  function UnsubscribeLocked(job: Job, id: nat): Job
  {
    if id == 0 then job else job.(subscribers := job.subscribers - {id})
  }

  function FinishLocked(job: Job, exitCode: int, lastError: string): Job
  {
    if job.done then job
    else job.(done := true, exitCode := exitCode, lastError := TrimSpace(lastError), subscribers := {})
  }

  /** The event that `finish` offers to the readers attached at that moment. */
  function FinalEvent(exitCode: int, lastError: string): Event
  {
    if exitCode != 0 && lastError != "" then Error(lastError) else Done
  }

  /** The event that a reader of an already finished job gets instead. */
  function LateFinalEvent(job: Job): Event
  {
    if job.exitCode != 0 && job.lastError != "" then Error(job.lastError) else Done
  }

  // ----- the threads

  /** The channel of one subscription together with the handler that reads it. */
  datatype Reader = Reader(
    snapshot: string,         // the replay that subscribe returned
    joined: nat,              // history: how many deltas had been appended by then
    queue: seq<Event>,        // sent and not yet received
    closed: bool,
    received: seq<Event>,
    delivered: seq<nat>,      // history: the deltas that entered the channel, by position in the log
    overflowed: bool,         // history: some event did not fit
    attached: bool)           // the handler has not unsubscribed

  datatype Appender = Idle | Sending(delta: string, todo: seq<nat>) | Exited
  datatype Finisher = Waiting | Finishing(event: Event, todo: seq<nat>, offered: bool) | Finished

  datatype System = System(job: Job, log: seq<string>, readers: map<nat, Reader>,
                           appender: Appender, finisher: Finisher, panicked: bool)

  const START := System(NEW_JOB, [], map[], Idle, Waiting, false)

  datatype Action =
    | Append(delta: string, order: seq<nat>)
    | SendNext
    | Exit
    | Finish(exitCode: int, lastError: string, order: seq<nat>)
    | OfferNext
    | CloseNext
    | Subscribe
    | Receive(id: nat)
    | Leave(id: nat)

  /** Ranging over a Go map visits every key once, in some order. */
  predicate Enumerates(order: seq<nat>, ids: set<nat>)
  {
    && (forall i :: 0 <= i < |order| ==> order[i] in ids)
    && (forall i, j :: 0 <= i < j < |order| ==> order[i] != order[j])
    && (forall id :: id in ids ==> id in order)
  }

  predicate IsFinal(event: Event)
  {
    !event.Delta?
  }

  /** The handler's loop returns after writing a final event. */
  predicate Ended(r: Reader)
  {
    r.received != [] && IsFinal(Last(r.received))
  }

  predicate CanReceive(r: Reader)
  {
    r.attached && r.queue != [] && !Ended(r)
  }

  predicate Enabled(s: System, a: Action)
  {
    match a
    case Append(delta, order) => s.appender.Idle? && delta != "" && Enumerates(order, s.job.subscribers)
    case SendNext => s.appender.Sending? && s.appender.todo != [] && s.appender.todo[0] in s.readers
    case Exit => s.appender.Idle?
    case Finish(_, _, order) => s.finisher.Waiting? && s.appender.Exited? && Enumerates(order, s.job.subscribers)
    case OfferNext =>
      s.finisher.Finishing? && !s.finisher.offered && s.finisher.todo != [] && s.finisher.todo[0] in s.readers
    case CloseNext =>
      s.finisher.Finishing? && s.finisher.offered && s.finisher.todo != [] && s.finisher.todo[0] in s.readers
    case Subscribe => true
    case Receive(id) => id in s.readers && CanReceive(s.readers[id])
    case Leave(id) => id in s.readers && s.readers[id].attached
  }

  function SendingTo(delta: string, todo: seq<nat>): Appender
  {
    if todo == [] then Idle else Sending(delta, todo)
  }

  function FinishingWith(event: Event, todo: seq<nat>): Finisher
  {
    if todo == [] then Finished else Finishing(event, todo, false)
  }

  function SendTo(r: Reader, event: Event, index: nat): Reader
  {
    if |r.queue| < CHANNEL_CAPACITY then
      r.(queue := Offer(r.queue, event, CHANNEL_CAPACITY),
         delivered := if event.Delta? then r.delivered + [index] else r.delivered)
    else r.(queue := Offer(r.queue, event, CHANNEL_CAPACITY), overflowed := true)
  }

  function Take(r: Reader): Reader
    requires r.queue != []
  {
    r.(queue := r.queue[1..], received := r.received + [r.queue[0]])
  }

  function DoAppend(s: System, delta: string, order: seq<nat>): System
  {
    s.(job := AppendLocked(s.job, delta), log := s.log + [delta], appender := SendingTo(delta, order))
  }

  function DoSend(s: System): System
    requires Enabled(s, SendNext)
  {
    var id, delta := s.appender.todo[0], s.appender.delta;
    if s.readers[id].closed then s.(panicked := true)
    else s.(readers := s.readers[id := SendTo(s.readers[id], Delta(delta), if s.log == [] then 0 else |s.log| - 1)],
            appender := SendingTo(delta, s.appender.todo[1..]))
  }

  function DoFinish(s: System, exitCode: int, lastError: string, order: seq<nat>): System
  {
    s.(job := FinishLocked(s.job, exitCode, lastError),
       finisher := FinishingWith(FinalEvent(exitCode, lastError), order))
  }

  function DoOffer(s: System): System
    requires Enabled(s, OfferNext)
  {
    var id := s.finisher.todo[0];
    if s.readers[id].closed then s.(panicked := true)
    else
      s.(readers := s.readers[id := SendTo(s.readers[id], s.finisher.event, 0)],
         finisher := s.finisher.(offered := true))
  }

  function DoClose(s: System): System
    requires Enabled(s, CloseNext)
  {
    var id := s.finisher.todo[0];
    if s.readers[id].closed then s.(panicked := true)
    else s.(readers := s.readers[id := s.readers[id].(closed := true)],
            finisher := FinishingWith(s.finisher.event, s.finisher.todo[1..]))
  }

  function DoSubscribe(s: System): System
  {
    var (job, id) := SubscribeLocked(s.job);
    if id == 0 then s
    else s.(job := job, readers := s.readers[id := Reader(s.job.replay, |s.log|, [], false, [], [], false, true)])
  }

  function DoReceive(s: System, id: nat): System
    requires Enabled(s, Receive(id))
  {
    s.(readers := s.readers[id := Take(s.readers[id])])
  }

  function DoLeave(s: System, id: nat): System
    requires Enabled(s, Leave(id))
  {
    s.(job := UnsubscribeLocked(s.job, id), readers := s.readers[id := s.readers[id].(attached := false)])
  }

  function Apply(s: System, a: Action): System
    requires Enabled(s, a)
  {
    match a
    case Append(delta, order) => DoAppend(s, delta, order)
    case SendNext => DoSend(s)
    case Exit => s.(appender := Exited)
    case Finish(exitCode, lastError, order) => DoFinish(s, exitCode, lastError, order)
    case OfferNext => DoOffer(s)
    case CloseNext => DoClose(s)
    case Subscribe => DoSubscribe(s)
    case Receive(id) => DoReceive(s, id)
    case Leave(id) => DoLeave(s, id)
  }

  /** Any interleaving: actions from a state, each enabled when it is taken. */
  predicate IsRun(s: System, actions: seq<Action>)
    decreases |actions|
  {
    actions == [] || (Enabled(s, actions[0]) && IsRun(Apply(s, actions[0]), actions[1..]))
  }

  function Run(s: System, actions: seq<Action>): System
    requires IsRun(s, actions)
    decreases |actions|
  {
    if actions == [] then s else Run(Apply(s, actions[0]), actions[1..])
  }

  // ----- the invariant

  function Output(s: System): string
  {
    Concat(s.log)
  }

  ghost function Pick(log: seq<string>, indices: seq<nat>): seq<Event>
    requires forall i :: 0 <= i < |indices| ==> indices[i] < |log|
  {
    seq(|indices|, i requires 0 <= i < |indices| => Delta(log[indices[i]]))
  }

  ghost predicate Ascending(indices: seq<nat>, low: nat, high: nat)
  {
    && (forall i :: 0 <= i < |indices| ==> low <= indices[i] < high)
    && (forall i, j :: 0 <= i < j < |indices| ==> indices[i] < indices[j])
  }

  /** The last appended delta is captured for this reader and not yet sent. */
  ghost predicate Pending(s: System, id: nat)
  {
    s.appender.Sending? && id in s.appender.todo
  }

  /** How many deltas the appender has dealt with for this reader. */
  ghost function Dealt(s: System, id: nat): nat
  {
    if Pending(s, id) && s.log != [] then |s.log| - 1 else |s.log|
  }

  /** The finisher may have offered this reader the final event. */
  ghost predicate Offered(s: System, id: nat)
  {
    && !s.finisher.Waiting?
    && !(s.finisher.Finishing? && id in s.finisher.todo && (s.finisher.offered ==> id != s.finisher.todo[0]))
  }

  /** What has been sent to a reader: distinct deltas in log order, every one since it joined when
      it never overflowed, and after them at most one final event. */
  ghost predicate ReaderOk(r: Reader, log: seq<string>, dealt: nat, offered: bool)
  {
    && r.joined <= dealt <= |log|
    && r.snapshot == Suffix(Concat(log[..r.joined]), REPLAY_LIMIT)
    && |r.queue| <= CHANNEL_CAPACITY
    && Ascending(r.delivered, r.joined, dealt)
    && (r.attached && !r.overflowed ==> |r.delivered| == dealt - r.joined)
    && EventsOk(r.received + r.queue, Pick(log, r.delivered), offered)
  }

  ghost predicate EventsOk(events: seq<Event>, deltas: seq<Event>, offered: bool)
  {
    events == deltas || (offered && |events| == |deltas| + 1 && events[..|deltas|] == deltas && IsFinal(Last(events)))
  }

  ghost predicate ReadersOk(s: System)
  {
    forall id :: id in s.readers ==> ReaderOk(s.readers[id], s.log, Dealt(s, id), Offered(s, id))
  }

  ghost predicate Core(s: System)
  {
    && !s.panicked
    && s.job.outputSize == |Output(s)|
    && s.job.replay == Suffix(Output(s), REPLAY_LIMIT)
    && (forall id :: id in s.readers <==> 1 <= id <= s.job.nextSubID)
    && (s.job.done <==> !s.finisher.Waiting?)
    && (s.job.done ==> s.job.subscribers == {} && s.appender.Exited?)
    && (s.finisher.Waiting? ==> forall id :: id in s.readers ==> !s.readers[id].closed)
    && (forall id :: id in s.job.subscribers ==> id in s.readers && s.readers[id].attached)
    && (forall id :: id in s.readers && s.readers[id].attached && !s.readers[id].closed ==>
          id in s.job.subscribers || (s.finisher.Finishing? && id in s.finisher.todo))
    && (s.appender.Sending? ==>
        && s.log != [] && Last(s.log) == s.appender.delta && s.appender.todo != []
        && Distinct(s.appender.todo) && (forall id :: id in s.appender.todo ==> id in s.readers))
    && (s.finisher.Finishing? ==>
        && s.finisher.todo != [] && IsFinal(s.finisher.event) && Distinct(s.finisher.todo)
        && (forall id :: id in s.finisher.todo ==> id in s.readers && !s.readers[id].closed))
  }

  ghost predicate Inv(s: System)
  {
    Core(s) && ReadersOk(s)
  }

  // ----- every step keeps the invariant: one reader at a time

  lemma PickPrefix(log: seq<string>, more: seq<string>, indices: seq<nat>)
    requires forall i :: 0 <= i < |indices| ==> indices[i] < |log|
    ensures Pick(log + more, indices) == Pick(log, indices)
  {
  }

  lemma PickSnoc(log: seq<string>, indices: seq<nat>, k: nat)
    requires k < |log| && forall i :: 0 <= i < |indices| ==> indices[i] < |log|
    ensures Pick(log, indices + [k]) == Pick(log, indices) + [Delta(log[k])]
  {
  }

  /** A new delta: captured for the registered readers, and none of the others'. */
  lemma DeltaAppended(r: Reader, log: seq<string>, delta: string, captured: bool)
    requires ReaderOk(r, log, |log|, false) && (r.attached ==> captured)
    ensures ReaderOk(r, log + [delta], if captured then |log| else |log| + 1, false)
  {
    PickPrefix(log, [delta], r.delivered);
    assert (log + [delta])[..r.joined] == log[..r.joined];
  }

  lemma DeltaSent(r: Reader, log: seq<string>)
    requires log != [] && ReaderOk(r, log, |log| - 1, false)
    ensures ReaderOk(SendTo(r, Delta(Last(log)), |log| - 1), log, |log|, false)
  {
    if |r.queue| < CHANNEL_CAPACITY {
      PickSnoc(log, r.delivered, |log| - 1);
      assert r.received + (r.queue + [Delta(Last(log))]) == (r.received + r.queue) + [Delta(Last(log))];
    }
  }

  lemma FinalOffered(r: Reader, log: seq<string>, event: Event)
    requires ReaderOk(r, log, |log|, false) && IsFinal(event)
    ensures ReaderOk(SendTo(r, event, 0), log, |log|, true)
  {
    if |r.queue| < CHANNEL_CAPACITY {
      assert r.received + (r.queue + [event]) == (r.received + r.queue) + [event];
    }
  }

  lemma EventTaken(r: Reader, log: seq<string>, dealt: nat, offered: bool)
    requires ReaderOk(r, log, dealt, offered) && r.queue != []
    ensures ReaderOk(Take(r), log, dealt, offered)
  {
    assert Take(r).received + Take(r).queue == r.received + r.queue;
  }

  lemma ReaderJoins(log: seq<string>, replay: string)
    requires replay == Suffix(Concat(log), REPLAY_LIMIT)
    ensures ReaderOk(Reader(replay, |log|, [], false, [], [], false, true), log, |log|, false)
  {
    var none: seq<Event> := [];
    assert log[..|log|] == log && none + none == [] && Pick(log, []) == [];
  }

  // ----- every step keeps the invariant: the job, the goroutines, and all the readers

  lemma CoreAppend(s: System, delta: string, order: seq<nat>)
    requires Core(s) && Enabled(s, Append(delta, order))
    ensures Core(DoAppend(s, delta, order))
  {
    ConcatSnoc(s.log, delta);
    SuffixOfSuffix(Output(s), delta, REPLAY_LIMIT);
  }

  lemma ReadersAppend(s: System, delta: string, order: seq<nat>)
    requires Inv(s) && Enabled(s, Append(delta, order))
    ensures ReadersOk(DoAppend(s, delta, order))
  {
    var t := DoAppend(s, delta, order);
    forall id | id in t.readers ensures ReaderOk(t.readers[id], t.log, Dealt(t, id), Offered(t, id)) {
      DeltaAppended(s.readers[id], s.log, delta, id in s.job.subscribers);
    }
  }

  lemma CoreSend(s: System)
    requires Core(s) && Enabled(s, SendNext)
    ensures Core(DoSend(s))
  {
  }

  lemma OthersSend(s: System, id: nat)
    requires Core(s) && Enabled(s, SendNext) && id in s.readers && id != s.appender.todo[0]
    ensures var t := DoSend(s);
            && id in t.readers && t.readers[id] == s.readers[id] && t.log == s.log
            && Dealt(t, id) == Dealt(s, id) && Offered(t, id) == Offered(s, id)
  {
    var todo := s.appender.todo;
    assert id in todo <==> id in todo[1..];
  }

  lemma ReceiverSend(s: System)
    requires Core(s) && Enabled(s, SendNext)
    ensures var t, id := DoSend(s), s.appender.todo[0];
            && t.log == s.log && Dealt(s, id) == |s.log| - 1 && Dealt(t, id) == |s.log|
            && !Offered(s, id) && !Offered(t, id)
            && id in t.readers && t.readers[id] == SendTo(s.readers[id], Delta(Last(s.log)), |s.log| - 1)
  {
    var todo := s.appender.todo;
    assert todo[0] !in todo[1..];
  }

  lemma ReadersSend(s: System)
    requires Inv(s) && Enabled(s, SendNext)
    ensures ReadersOk(DoSend(s))
  {
    var t, todo := DoSend(s), s.appender.todo;
    forall id | id in t.readers ensures ReaderOk(t.readers[id], t.log, Dealt(t, id), Offered(t, id)) {
      assert ReaderOk(s.readers[id], s.log, Dealt(s, id), Offered(s, id));
      if id == todo[0] {
        ReceiverSend(s);
        DeltaSent(s.readers[id], s.log);
      } else {
        OthersSend(s, id);
      }
    }
  }

  lemma CoreFinish(s: System, exitCode: int, lastError: string, order: seq<nat>)
    requires Core(s) && Enabled(s, Finish(exitCode, lastError, order))
    ensures Core(DoFinish(s, exitCode, lastError, order))
  {
  }

  lemma ReadersFinish(s: System, exitCode: int, lastError: string, order: seq<nat>)
    requires Inv(s) && Enabled(s, Finish(exitCode, lastError, order))
    ensures ReadersOk(DoFinish(s, exitCode, lastError, order))
  {
  }

  lemma CoreOffer(s: System)
    requires Core(s) && Enabled(s, OfferNext)
    ensures Core(DoOffer(s))
  {
  }

  lemma ReadersOffer(s: System)
    requires Inv(s) && Enabled(s, OfferNext)
    ensures ReadersOk(DoOffer(s))
  {
    var t := DoOffer(s);
    forall id | id in t.readers ensures ReaderOk(t.readers[id], t.log, Dealt(t, id), Offered(t, id)) {
      if id == s.finisher.todo[0] { FinalOffered(s.readers[id], s.log, s.finisher.event); }
    }
  }

  lemma CoreClose(s: System)
    requires Core(s) && Enabled(s, CloseNext)
    ensures Core(DoClose(s))
  {
    var todo := s.finisher.todo;
    assert todo[0] !in todo[1..] && forall id :: id in todo ==> id == todo[0] || id in todo[1..];
  }

  lemma ReadersClose(s: System)
    requires Inv(s) && Enabled(s, CloseNext)
    ensures ReadersOk(DoClose(s))
  {
    var t, todo := DoClose(s), s.finisher.todo;
    assert todo[0] !in todo[1..];
    forall id | id in t.readers ensures ReaderOk(t.readers[id], t.log, Dealt(t, id), Offered(t, id)) {
      if id != todo[0] { assert id in todo <==> id in todo[1..]; }
    }
  }

  lemma CoreSubscribe(s: System)
    requires Core(s)
    ensures Core(DoSubscribe(s))
  {
  }

  lemma ReadersSubscribe(s: System)
    requires Inv(s)
    ensures ReadersOk(DoSubscribe(s))
  {
    ReaderJoins(s.log, s.job.replay);
  }

  lemma CoreReceive(s: System, id: nat)
    requires Core(s) && Enabled(s, Receive(id))
    ensures Core(DoReceive(s, id))
  {
  }

  lemma ReadersReceive(s: System, id: nat)
    requires ReadersOk(s) && Enabled(s, Receive(id))
    ensures ReadersOk(DoReceive(s, id))
  {
    var t := DoReceive(s, id);
    forall other | other in t.readers ensures ReaderOk(t.readers[other], t.log, Dealt(t, other), Offered(t, other)) {
      assert Dealt(t, other) == Dealt(s, other) && Offered(t, other) == Offered(s, other);
      if other == id { EventTaken(s.readers[id], s.log, Dealt(s, id), Offered(s, id)); }
    }
  }

  lemma CoreLeave(s: System, id: nat)
    requires Core(s) && Enabled(s, Leave(id))
    ensures Core(DoLeave(s, id))
  {
  }

  lemma ReadersLeave(s: System, id: nat)
    requires ReadersOk(s) && Enabled(s, Leave(id))
    ensures ReadersOk(DoLeave(s, id))
  {
    var t := DoLeave(s, id);
    forall other | other in t.readers ensures ReaderOk(t.readers[other], t.log, Dealt(t, other), Offered(t, other)) {
      assert Dealt(t, other) == Dealt(s, other) && Offered(t, other) == Offered(s, other);
      assert ReaderOk(s.readers[other], s.log, Dealt(s, other), Offered(s, other));
    }
  }

  lemma InvReceive(s: System, id: nat)
    requires Inv(s) && Enabled(s, Receive(id))
    ensures Inv(DoReceive(s, id))
  {
    CoreReceive(s, id);
    ReadersReceive(s, id);
  }

  lemma InvStep(s: System, a: Action)
    requires Inv(s) && Enabled(s, a)
    ensures Inv(Apply(s, a))
  {
    match a
    case Append(delta, order) => CoreAppend(s, delta, order); ReadersAppend(s, delta, order);
    case SendNext => CoreSend(s); ReadersSend(s);
    case Exit =>
    case Finish(exitCode, lastError, order) =>
      CoreFinish(s, exitCode, lastError, order);
      ReadersFinish(s, exitCode, lastError, order);
    case OfferNext => CoreOffer(s); ReadersOffer(s);
    case CloseNext => CoreClose(s); ReadersClose(s);
    case Subscribe => CoreSubscribe(s); ReadersSubscribe(s);
    case Receive(id) => InvReceive(s, id);
    case Leave(id) => CoreLeave(s, id); ReadersLeave(s, id);
  }

  lemma {:induction false} InvRun(s: System, actions: seq<Action>)
    requires Inv(s) && IsRun(s, actions)
    ensures Inv(Run(s, actions))
    decreases |actions|
  {
    if actions != [] {
      InvStep(s, actions[0]);
      InvRun(Apply(s, actions[0]), actions[1..]);
    }
  }

  lemma InvReachable(actions: seq<Action>)
    requires IsRun(START, actions)
    ensures Inv(Run(START, actions))
  {
    InvRun(START, actions);
  }

  // ----- what every interleaving guarantees

  /** The text of the deltas among some events. */
  function TextOf(events: seq<Event>): string
  {
    if events == [] then ""
    else (if events[0].Delta? then events[0].text else "") + TextOf(events[1..])
  }

  lemma {:induction false} TextOfAppend(a: seq<Event>, b: seq<Event>)
    ensures TextOf(a + b) == TextOf(a) + TextOf(b)
  {
    if a == [] {
      assert a + b == b;
    } else {
      assert (a + b)[1..] == a[1..] + b;
      TextOfAppend(a[1..], b);
    }
  }

  lemma {:induction false} TextOfFinals(events: seq<Event>)
    requires forall i :: 0 <= i < |events| ==> IsFinal(events[i])
    ensures TextOf(events) == ""
  {
    if events != [] { TextOfFinals(events[1..]); }
  }

  lemma {:induction false} TextOfPick(log: seq<string>, indices: seq<nat>, low: nat)
    requires low + |indices| <= |log|
    requires forall i :: 0 <= i < |indices| ==> indices[i] == low + i
    ensures TextOf(Pick(log, indices)) == Concat(log[low..low + |indices|])
  {
    if indices != [] {
      var piece := log[low..low + |indices|];
      assert Pick(log, indices)[1..] == Pick(log, indices[1..]);
      assert piece[1..] == log[low + 1..low + 1 + |indices[1..]|];
      TextOfPick(log, indices[1..], low + 1);
    }
  }

  /** Strictly increasing positions that fill their whole range are that range. */
  lemma {:induction false} FullRange(indices: seq<nat>, low: nat, high: nat, i: nat)
    requires low <= high && Ascending(indices, low, high) && |indices| == high - low && i < |indices|
    ensures indices[i] == low + i
    decreases |indices|
  {
    var last := |indices| - 1;
    if indices[last] < high - 1 {
      var shorter := indices[..last];
      TooMany(indices, low, high - 1);
    }
    if i < last {
      assert Ascending(indices[..last], low, high - 1);
      FullRange(indices[..last], low, high - 1, i);
    }
  }

  lemma {:induction false} TooMany(indices: seq<nat>, low: nat, high: nat)
    requires low <= high && Ascending(indices, low, high)
    ensures |indices| <= high - low
    decreases |indices|
  {
    if indices != [] {
      var last := |indices| - 1;
      assert Ascending(indices[..last], low, indices[last]);
      TooMany(indices[..last], low, indices[last]);
    }
  }

  /** Where in the whole output the snapshot of a reader begins. */
  ghost function SnapshotStart(s: System, id: nat): (start: int)
    requires id in s.readers && s.readers[id].joined <= |s.log|
  {
    |Concat(s.log[..s.readers[id].joined])| - |s.readers[id].snapshot|
  }

  /** The delta captured for a reader and not yet sent to it. */
  function InFlight(s: System, id: nat): string
  {
    if s.appender.Sending? && id in s.appender.todo then s.appender.delta else ""
  }

  lemma TextOfEvents(events: seq<Event>, deltas: seq<Event>, offered: bool)
    requires EventsOk(events, deltas, offered)
    ensures TextOf(events) == TextOf(deltas)
  {
    if events != deltas {
      assert events == deltas + [Last(events)];
      TextOfAppend(deltas, [Last(events)]);
      TextOfFinals([Last(events)]);
    }
  }

  /** A reader that lost nothing was sent the text of the log from where it joined. */
  lemma ReaderText(r: Reader, log: seq<string>, dealt: nat, offered: bool)
    requires ReaderOk(r, log, dealt, offered) && r.attached && !r.overflowed
    ensures TextOf(r.received) + TextOf(r.queue) == Concat(log[r.joined..dealt])
  {
    forall i | 0 <= i < |r.delivered| ensures r.delivered[i] == r.joined + i {
      FullRange(r.delivered, r.joined, dealt, i);
    }
    TextOfPick(log, r.delivered, r.joined);
    TextOfAppend(r.received, r.queue);
    TextOfEvents(r.received + r.queue, Pick(log, r.delivered), offered);
  }

  lemma OutputSplits(s: System, id: nat, joined: nat)
    requires Inv(s) && joined <= Dealt(s, id)
    ensures Output(s) == Concat(s.log[..joined]) + (Concat(s.log[joined..Dealt(s, id)]) + InFlight(s, id))
  {
    ConcatSplit(s.log, joined);
    var sent := s.log[joined..Dealt(s, id)];
    if Pending(s, id) {
      assert s.log[joined..] == sent + [s.appender.delta];
      ConcatSnoc(sent, s.appender.delta);
    } else {
      assert s.log[joined..] == sent;
    }
  }

  /** Exactly-once delivery. Whatever the interleaving, a reader that is still attached and whose
      channel never overflowed has its snapshot, then what it received, what is queued and what is
      captured but not yet sent: together the output from the start of the snapshot. */
  lemma ExactlyOnce(actions: seq<Action>, id: nat)
    requires IsRun(START, actions)
    requires var s := Run(START, actions);
             id in s.readers && s.readers[id].attached && !s.readers[id].overflowed
    ensures var s := Run(START, actions);
            var r := s.readers[id];
            && r.joined <= |s.log| && 0 <= SnapshotStart(s, id) <= |Output(s)|
            && r.snapshot + (TextOf(r.received) + TextOf(r.queue) + InFlight(s, id)) ==
               Output(s)[SnapshotStart(s, id)..]
  {
    InvReachable(actions);
    var s := Run(START, actions);
    ExactlyOnceAt(s, id);
  }

  lemma ExactlyOnceAt(s: System, id: nat)
    requires Inv(s) && id in s.readers && s.readers[id].attached && !s.readers[id].overflowed
    ensures var r := s.readers[id];
            && r.joined <= |s.log| && 0 <= SnapshotStart(s, id) <= |Output(s)|
            && r.snapshot + (TextOf(r.received) + TextOf(r.queue) + InFlight(s, id)) ==
               Output(s)[SnapshotStart(s, id)..]
  {
    var r := s.readers[id];
    ReaderText(r, s.log, Dealt(s, id), Offered(s, id));
    OutputSplits(s, id, r.joined);
    var before := Concat(s.log[..r.joined]);
    assert ReaderOk(s.readers[id], s.log, Dealt(s, id), Offered(s, id));
    SuffixDrop(before, TextOf(r.received) + TextOf(r.queue) + InFlight(s, id), REPLAY_LIMIT);
  }

  lemma SuffixDrop(a: string, b: string, n: nat)
    ensures Suffix(a, n) + b == (a + b)[|a| - |Suffix(a, n)|..]
  {
  }

  /** Even a reader that lost events got distinct deltas in the order they were appended, each one
      appended after it joined, and nothing but a final event after them. */
  lemma NoDuplicateNoReorder(actions: seq<Action>, id: nat)
    requires IsRun(START, actions) && id in Run(START, actions).readers
    ensures var s := Run(START, actions);
            var r := s.readers[id];
            && Ascending(r.delivered, r.joined, |s.log|)
            && Pick(s.log, r.delivered) <= r.received + r.queue
            && |r.received + r.queue| <= |r.delivered| + 1
            && (|r.received + r.queue| > |r.delivered| ==> IsFinal(Last(r.received + r.queue)))
  {
    InvReachable(actions);
    var s := Run(START, actions);
    assert ReaderOk(s.readers[id], s.log, Dealt(s, id), Offered(s, id));
  }

  /** The replay is the last bytes of the output, its size the size of all of it, and no
      interleaving sends to a closed channel or closes one twice. */
  lemma ReplayAndSafety(actions: seq<Action>)
    requires IsRun(START, actions)
    ensures var s := Run(START, actions);
            && !s.panicked
            && s.job.replay == Suffix(Output(s), REPLAY_LIMIT)
            && s.job.outputSize == |Output(s)|
  {
    InvReachable(actions);
  }

  /** Neither goroutine can get stuck half way: there is always a next send, offer or close. */
  lemma NeverStuck(actions: seq<Action>)
    requires IsRun(START, actions)
    ensures var s := Run(START, actions);
            && (s.appender.Sending? ==> Enabled(s, SendNext))
            && (s.finisher.Finishing? ==> Enabled(s, OfferNext) || Enabled(s, CloseNext))
  {
    InvReachable(actions);
  }

  /** How many steps of its own the finisher still has to take. */
  function FinisherWork(f: Finisher): nat
  {
    if f.Finishing? then 2 * |f.todo| - (if f.offered && f.todo != [] then 1 else 0) else 0
  }

  lemma FinisherProgress(actions: seq<Action>, a: Action)
    requires IsRun(START, actions) && (a.OfferNext? || a.CloseNext?) && Enabled(Run(START, actions), a)
    ensures var s := Run(START, actions); FinisherWork(Apply(s, a).finisher) == FinisherWork(s.finisher) - 1
  {
    InvReachable(actions);
  }

  /** A finished job stays finished and gains no reader; its output no longer grows. */
  lemma {:induction false} FinishedJobIsSealed(s: System, actions: seq<Action>)
    requires Inv(s) && s.job.done && IsRun(s, actions)
    ensures var t := Run(s, actions);
            t.job.done && t.job.subscribers == {} && t.readers.Keys == s.readers.Keys && t.log == s.log
    decreases |actions|
  {
    if actions != [] {
      InvStep(s, actions[0]);
      var t := Apply(s, actions[0]);
      assert t.job.done && t.readers.Keys == s.readers.Keys && t.log == s.log;
      FinishedJobIsSealed(t, actions[1..]);
    }
  }

  /** Receiving until the handler returns. */
  function Drain(s: System, id: nat): System
    requires id in s.readers
    decreases |s.readers[id].queue|
  {
    if CanReceive(s.readers[id]) then Drain(Apply(s, Receive(id)), id) else s
  }

  /** Once the finisher is done every handler still attached ends: receiving what is queued, at most
      |queue| events, brings it to a final event or to the end of a closed channel. */
  lemma {:induction false} AttachedStreamEnds(s: System, id: nat)
    requires Inv(s) && s.finisher.Finished? && id in s.readers && s.readers[id].attached
    ensures id in Drain(s, id).readers
    ensures var r := Drain(s, id).readers[id]; Ended(r) || (r.queue == [] && r.closed)
    ensures s.readers[id].received <= Drain(s, id).readers[id].received
    ensures |Drain(s, id).readers[id].received| <= |s.readers[id].received| + |s.readers[id].queue|
    decreases |s.readers[id].queue|
  {
    assert ReaderOk(s.readers[id], s.log, Dealt(s, id), Offered(s, id));
    if CanReceive(s.readers[id]) {
      InvReceive(s, id);
      AttachedStreamEnds(Apply(s, Receive(id)), id);
    }
  }

  /** A reader that attaches too late is told the outcome by the job's fields, the others by the
      finisher. They hear the same exactly when the error text has no white space at its ends (or the
      process succeeded): the fields keep a trimmed copy. */
  lemma LateReaderHearsTheSame(job: Job, exitCode: int, lastError: string)
    requires !job.done
    ensures LateFinalEvent(FinishLocked(job, exitCode, lastError)) == FinalEvent(exitCode, lastError)
            <==> exitCode == 0 || Trimmed(lastError)
    ensures FinalEvent(exitCode, lastError) == if exitCode != 0 && lastError != "" then Error(lastError) else Done
    ensures LateFinalEvent(FinishLocked(job, exitCode, lastError)) ==
            if exitCode != 0 && !AllSpace(lastError) then Error(TrimSpace(lastError)) else Done
  {
    var left, right := TrimSpaceSplits(lastError);
    TrimmedIsFixed(lastError);
    assert TrimSpace("") == "";
  }

  /** Such an error text: it ends with a newline. */
  lemma LateReaderCanHearLess(job: Job)
    requires !job.done
    ensures FinalEvent(1, "lost\n") == Error("lost\n")
    ensures LateFinalEvent(FinishLocked(job, 1, "lost\n")) == Error("lost")
  {
    assert "lost\n" == "" + "lost" + "\n";
    TrimSpaceUnique("lost\n", "", "lost", "\n");
  }
}
