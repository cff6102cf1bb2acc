/**
  The job object itself (internal/ass/jobs.go): its fields, its subscriber map of channels and the
  loops that run over them, each method proved against the critical sections and the channel
  operation of the transition system.
*/
module JobSessions {
  import opened Text
  import opened Channels
  import opened JobHub

  type EventChannel = Channel<Event>

  /** The handler's loop over the channel of a finished job: it writes what is queued, stops after a
      final event, and otherwise ends when the closed channel is empty. */
  method DrainClosed(channel: EventChannel) returns (written: seq<Event>)
    requires channel.closed
    modifies channel
    ensures written == UpToFinal(old(channel.queue))
    ensures channel.closed && written + channel.queue == old(channel.queue)
  {
    written := [];
    ghost var all := channel.queue;
    while channel.queue != []
      invariant channel.closed && written + channel.queue == all
      invariant UpToFinal(all) == written + UpToFinal(channel.queue)
      decreases |channel.queue|
    {
      ghost var left := channel.queue;
      var event := channel.Receive();
      assert left[0] == event && left[1..] == channel.queue;
      written := written + [event];
      if IsFinal(event) {
        return;
      }
    }
  }

  /** The events up to and including the first final one. */
  function UpToFinal(events: seq<Event>): seq<Event>
  {
    if events == [] then []
    else if IsFinal(events[0]) then [events[0]]
    else [events[0]] + UpToFinal(events[1..])
  }

  // ----- cutting the output into deltas

  /** `ReadBytes('\n')`: through the first newline, or everything when there is none. */
  function FirstLine(text: string): (line: string)
    ensures line <= text
    ensures text != "" ==> line != ""
    ensures line != "" ==> '\n' !in Init(line)
    ensures line != text ==> line != "" && Last(line) == '\n'
  {
    if text == "" then "" else if text[0] == '\n' then "\n"
    else
      var rest := FirstLine(text[1..]);
      assert rest != "" ==> Init([text[0]] + rest) == [text[0]] + Init(rest);
      [text[0]] + rest
  }

  /** The deltas that reading a whole output produces. */
  function ReadLines(text: string): seq<string>
    decreases |text|
  {
    if text == "" then [] else [FirstLine(text)] + ReadLines(text[|FirstLine(text)|..])
  }

  lemma {:induction false} ReadLinesAreTheOutput(text: string)
    ensures Concat(ReadLines(text)) == text
    decreases |text|
  {
    if text != "" {
      ReadLinesAreTheOutput(text[|FirstLine(text)|..]);
    }
  }

  /** No delta is empty, and every delta but the last ends with its only newline. */
  lemma {:induction false} ReadLinesAreLines(text: string, i: nat)
    requires i < |ReadLines(text)|
    ensures var line := ReadLines(text)[i];
            line != "" && '\n' !in Init(line) && (i < |ReadLines(text)| - 1 ==> Last(line) == '\n')
    decreases |text|
  {
    if i > 0 { ReadLinesAreLines(text[|FirstLine(text)|..], i - 1); }
  }

  function AppendAll(job: Job, deltas: seq<string>): Job
    decreases |deltas|
  {
    if deltas == [] then job else AppendAll(AppendLocked(job, deltas[0]), deltas[1..])
  }

  function OfferAll(queue: seq<Event>, deltas: seq<string>): seq<Event>
    decreases |deltas|
  {
    if deltas == [] then queue else OfferAll(Offer(queue, Delta(deltas[0]), CHANNEL_CAPACITY), deltas[1..])
  }

  /** Appending many deltas is appending their concatenation once: how the output was cut leaves no
      trace in the job. */
  lemma {:induction false} AppendAllIsOneAppend(job: Job, deltas: seq<string>)
    requires |job.replay| <= REPLAY_LIMIT
    ensures AppendAll(job, deltas) == AppendLocked(job, Concat(deltas))
    decreases |deltas|
  {
    if deltas == [] {
      assert job.replay + "" == job.replay;
    } else {
      AppendAllIsOneAppend(AppendLocked(job, deltas[0]), deltas[1..]);
      SuffixOfSuffix(job.replay + deltas[0], Concat(deltas[1..]), REPLAY_LIMIT);
      assert job.replay + deltas[0] + Concat(deltas[1..]) == job.replay + Concat(deltas);
    }
  }

  lemma {:induction false} AppendAllSnoc(job: Job, deltas: seq<string>, last: string)
    ensures AppendAll(job, deltas + [last]) == AppendLocked(AppendAll(job, deltas), last)
    decreases |deltas|
  {
    if deltas != [] {
      assert (deltas + [last])[1..] == deltas[1..] + [last];
      AppendAllSnoc(AppendLocked(job, deltas[0]), deltas[1..], last);
    } else {
      assert AppendAll(AppendLocked(job, last), [last][1..]) == AppendLocked(job, last);
    }
  }

  /** A channel with room for everything gets every delta, in order. */
  lemma {:induction false} OfferAllFits(queue: seq<Event>, deltas: seq<string>)
    requires |queue| + |deltas| <= CHANNEL_CAPACITY
    ensures OfferAll(queue, deltas) == queue + Pick(deltas, seq(|deltas|, i => i))
    decreases |deltas|
  {
    if deltas != [] {
      OfferAllFits(Offer(queue, Delta(deltas[0]), CHANNEL_CAPACITY), deltas[1..]);
      var all := Pick(deltas, seq(|deltas|, i => i));
      assert all == [Delta(deltas[0])] + Pick(deltas[1..], seq(|deltas[1..]|, i => i));
    }
  }

  // ----- the job

  class JobSession {
    var replay: string
    var outputSize: nat
    var done: bool
    var exitCode: int
    var lastError: string
    var subscribers: map<nat, EventChannel>
    var nextSubID: nat

    ghost function View(): Job
      reads this
    {
      Job(replay, outputSize, done, exitCode, lastError, subscribers.Keys, nextSubID)
    }

    /** Registered channels are open, one per id, and a finished job has none. */
    ghost predicate Valid()
      reads this, subscribers.Values
    {
      && |replay| <= REPLAY_LIMIT
      && (forall id :: id in subscribers ==> 
              1 <= id <= nextSubID && !subscribers[id].closed && subscribers[id].capacity == CHANNEL_CAPACITY)
      && (forall a, b :: a in subscribers && b in subscribers && a != b ==> subscribers[a] != subscribers[b])
      && (done ==> subscribers == map[])
    }

    constructor ()
      ensures Valid() && View() == NEW_JOB
    {
      replay, outputSize, done, exitCode, lastError := "", 0, false, 0, "";
      subscribers, nextSubID := map[], 0;
    }

    method Subscribe() returns (id: nat, channel: EventChannel, snapshot: string, finished: bool)
      requires Valid()
      modifies this
      ensures Valid()
      ensures fresh(channel) && channel.queue == [] && !channel.closed && channel.capacity == CHANNEL_CAPACITY
      ensures (View(), id) == SubscribeLocked(old(View()))
      ensures snapshot == old(replay) && finished == old(done)
      ensures subscribers == if id == 0 then old(subscribers) else old(subscribers)[id := channel]
    {
      channel := new Channel<Event>(CHANNEL_CAPACITY);
      snapshot := replay;
      if done {
        return 0, channel, snapshot, true;
      }
      nextSubID := nextSubID + 1;
      id := nextSubID;
      subscribers := subscribers[id := channel];
      assert subscribers.Keys == old(subscribers.Keys) + {id};
      finished := false;
    }

    method Unsubscribe(id: nat)
      requires Valid()
      modifies this
      ensures Valid()
      ensures View() == UnsubscribeLocked(old(View()), id)
      ensures subscribers == if id == 0 then old(subscribers) else old(subscribers) - {id}
    {
      if id == 0 {
        return;
      }
      subscribers := subscribers - {id};
    }

    /** The locked part of `appendDelta`. */
    method Record(delta: string)
      requires Valid()
      modifies this`replay, this`outputSize
      ensures Valid() && View() == AppendLocked(old(View()), delta)
    {
      replay := replay + delta;
      if |replay| > REPLAY_LIMIT {
        replay := replay[|replay| - REPLAY_LIMIT..];
      }
      outputSize := outputSize + |delta|;
    }

    /** `appendDelta`: the locked part, and then the sends to the captured channels. */
    method AppendDelta(delta: string)
      requires Valid()
      modifies this`replay, this`outputSize, subscribers.Values
      ensures Valid()
      ensures View() == if delta == "" then old(View()) else AppendLocked(old(View()), delta)
      ensures forall id :: id in subscribers ==>
                subscribers[id].queue == if delta == "" then old(subscribers[id].queue)
                                         else Offer(old(subscribers[id].queue), Delta(delta), CHANNEL_CAPACITY)
    {
      if delta == "" {
        return;
      }
      Record(delta);
      var captured := subscribers;
      var todo := captured.Keys;
      while todo != {}
        invariant todo <= captured.Keys
        invariant forall id :: id in captured ==> !captured[id].closed
        invariant forall id :: id in todo ==> captured[id].queue == old(captured[id].queue)
        invariant forall id :: id in captured && id !in todo ==>
                    captured[id].queue == Offer(old(captured[id].queue), Delta(delta), CHANNEL_CAPACITY)
        modifies captured.Values
      {
        var id :| id in todo;
        var sent := captured[id].TrySend(Delta(delta));
        todo := todo - {id};
      }
    }

    /** The locked part of `finish`: the outcome is recorded and the subscribers are captured. */
    method Seal(code: int, message: string) returns (captured: map<nat, EventChannel>)
      requires Valid()
      modifies this
      ensures Valid() && View() == FinishLocked(old(View()), code, message)
      ensures captured == if old(done) then map[] else old(subscribers)
      ensures old(done) ==> subscribers == old(subscribers)
    {
      if done {
        return map[];
      }
      done := true;
      exitCode := code;
      lastError := TrimSpace(message);
      captured := subscribers;
      subscribers := map[];
    }

    /** `finish`: only its first call has an effect; every channel it captured is offered the final
        event and then closed. */
    method Finish(code: int, message: string)
      requires Valid()
      modifies this, subscribers.Values
      ensures Valid() && View() == FinishLocked(old(View()), code, message)
      ensures old(done) ==> subscribers == old(subscribers)
      ensures !old(done) ==> forall id :: id in old(subscribers) ==>
                && old(subscribers)[id].closed
                && old(subscribers)[id].queue ==
                   Offer(old(subscribers[id].queue), FinalEvent(code, message), CHANNEL_CAPACITY)
    {
      var captured := Seal(code, message);
      var event := Done;
      if code != 0 && message != "" {
        event := Error(message);
      }
      var todo := captured.Keys;
      while todo != {}
        invariant todo <= captured.Keys
        invariant forall id :: id in todo ==> !captured[id].closed && captured[id].queue == old(captured[id].queue)
        invariant forall id :: id in captured && id !in todo ==>
                    captured[id].closed && captured[id].queue == Offer(old(captured[id].queue), event, CHANNEL_CAPACITY)
        modifies captured.Values
      {
        var id :| id in todo;
        var sent := captured[id].TrySend(event);
        captured[id].Close();
        todo := todo - {id};
      }
    }

    /** The loop of `copyOutput`: the output of the process, line by line, until its pipe ends. */
    method CopyLines(output: string)
      requires Valid()
      modifies this`replay, this`outputSize, subscribers.Values
      ensures Valid()
      ensures View() == AppendAll(old(View()), Deltas(output, false))
      ensures forall id :: id in subscribers ==>
                subscribers[id].queue == OfferAll(old(subscribers[id].queue), Deltas(output, false))
    {
      ghost var lines := Deltas(output, false);
      var rest := output;
      ghost var i := 0;
      ghost var job := View();
      ghost var queues := map id | id in subscribers :: subscribers[id].queue;
      assert lines[0..] == lines;
      while true
        invariant 0 <= i <= |lines| && lines[i..] == ReadLines(rest)
        invariant Valid() && queues.Keys == subscribers.Keys
        invariant View() == AppendAll(job, lines[..i])
        invariant forall id :: id in queues ==> subscribers[id].queue == OfferAll(queues[id], lines[..i])
        decreases |rest|
      {
        var line := FirstLine(rest);
        var ended := line == "" || line[|line| - 1] != '\n';
        if |line| > 0 {
          TakeOneMore(job, lines, i, line);
          AppendDelta(line);
          i := i + 1;
          rest := rest[|line|..];
        }
        if ended {
          break;
        }
      }
      assert rest == "" && lines[..i] == lines;
    }

    /** `copyOutput`: a read error that is not about the pipe itself adds one more newline. */
    method CopyOutput(output: string, broken: bool)
      requires Valid()
      modifies this`replay, this`outputSize, subscribers.Values
      ensures Valid()
      ensures View() == AppendLocked(old(View()), output + if broken then "\n" else "")
      ensures forall id :: id in subscribers ==>
                subscribers[id].queue == OfferAll(old(subscribers[id].queue), Deltas(output, broken))
    {
      CopyLines(output);
      DeltasAreTheOutput(old(View()), output, broken);
      if broken {
        AppendDelta("\n");
        OfferAllSnoc(Deltas(output, false), "\n");
      }
    }
  }

  /** The deltas that copying an output appends. */
  function Deltas(output: string, broken: bool): seq<string>
  {
    if broken then ReadLines(output) + ["\n"] else ReadLines(output)
  }

  lemma DeltasAreTheOutput(job: Job, output: string, broken: bool)
    requires |job.replay| <= REPLAY_LIMIT
    ensures AppendAll(job, Deltas(output, false)) == AppendLocked(job, output)
    ensures AppendAll(job, Deltas(output, broken)) == AppendLocked(job, output + if broken then "\n" else "")
    ensures broken ==> AppendAll(job, Deltas(output, true)) == AppendLocked(AppendAll(job, Deltas(output, false)), "\n")
  {
    ReadLinesAreTheOutput(output);
    AppendAllIsOneAppend(job, ReadLines(output));
    AppendAllIsOneAppend(job, Deltas(output, broken));
    ConcatSnoc(ReadLines(output), "\n");
    AppendAllSnoc(job, ReadLines(output), "\n");
    assert output + "" == output;
  }

  /** One more delta dealt with, for the job and for every channel. */
  lemma TakeOneMore(job: Job, lines: seq<string>, i: nat, line: string)
    requires i < |lines| && lines[i..] == [line] + lines[i..][1..]
    ensures lines[i..][1..] == lines[i + 1..]
    ensures AppendAll(job, lines[..i + 1]) == AppendLocked(AppendAll(job, lines[..i]), line)
    ensures forall queue ::
              OfferAll(queue, lines[..i + 1]) == Offer(OfferAll(queue, lines[..i]), Delta(line), CHANNEL_CAPACITY)
  {
    assert lines[i] == lines[i..][0] == line;
    assert lines[..i + 1] == lines[..i] + [line];
    AppendAllSnoc(job, lines[..i], line);
    OfferAllSnoc(lines[..i], line);
  }

  lemma OfferAllSnoc(deltas: seq<string>, last: string)
    ensures forall queue ::
              OfferAll(queue, deltas + [last]) == Offer(OfferAll(queue, deltas), Delta(last), CHANNEL_CAPACITY)
  {
    forall queue { OfferAllSnocOne(queue, deltas, last); }
  }

  lemma {:induction false} OfferAllSnocOne(queue: seq<Event>, deltas: seq<string>, last: string)
    ensures OfferAll(queue, deltas + [last]) == Offer(OfferAll(queue, deltas), Delta(last), CHANNEL_CAPACITY)
    decreases |deltas|
  {
    if deltas != [] {
      assert (deltas + [last])[1..] == deltas[1..] + [last];
      OfferAllSnocOne(Offer(queue, Delta(deltas[0]), CHANNEL_CAPACITY), deltas[1..], last);
    } else {
      var sent := Offer(queue, Delta(last), CHANNEL_CAPACITY);
      assert OfferAll(sent, [last][1..]) == sent;
    }
  }

  // ----- the registry

  class Registry {
    var jobs: map<string, JobSession>

    constructor ()
      ensures jobs == map[]
    {
      jobs := map[];
    }

    /** Both checks of `start`: the registered job, unless it is done. */
    method Active(id: string) returns (job: JobSession?)
      ensures job == if id in jobs && !jobs[id].done then jobs[id] else null
    {
      job := null;
      if id in jobs && !jobs[id].done {
        job := jobs[id];
      }
    }

    /** `start` with nobody in between; whether preparing and starting the process succeed is up to the
        system. A start that fails takes away whatever was registered, which can be the finished job of an
        earlier start. */
    method Start(id: string, prepares: bool, starts: bool) returns (job: JobSession?, created: bool)
      modifies this
      ensures old(id in jobs && !jobs[id].done) ==> job == old(jobs[id]) && !created && jobs == old(jobs)
      ensures !old(id in jobs && !jobs[id].done) ==>
                if !prepares then job == null && !created && jobs == old(jobs)
                else if !starts then job == null && !created && jobs == old(jobs) - {id}
                else
                  && job != null && fresh(job) && job.Valid() && job.View() == NEW_JOB && created
                  && jobs == old(jobs)[id := job]
    {
      created := false;
      job := Active(id);
      if job != null {
        return;
      }
      if !prepares {
        return;
      }
      var newJob := new JobSession();
      var existing := Active(id);
      if existing != null {
        return existing, false;
      }
      jobs := jobs[id := newJob];
      if !starts {
        jobs := jobs - {id};
        return;
      }
      return newJob, true;
    }
  }
}
