/**
  The hub and the parser together (internal/ass/jobs.go, internal/console/chat_cloud_agent_stream.go):
  a console that resumes a job attaches to its hub at an arbitrary moment, feeds what it is sent to
  the line parser and finishes. It ends as if the whole output had been parsed in one go.
*/
module AttachAnywhere {
  import opened Text
  import opened StreamParser
  import opened JobHub

  /** What the resuming console is sent: the snapshot as a `sync` event (when there is one), then the
      events of the channel. */
  datatype Incoming = Piece(text: string) | Failure(message: string) | End

  function AsIncoming(event: Event): Incoming
  {
    match event
    case Delta(text) => Piece(text)
    case Error(message) => Failure(message)
    case Done => End
  }

  function AsIncomingAll(events: seq<Event>): seq<Incoming>
  {
    if events == [] then [] else [AsIncoming(events[0])] + AsIncomingAll(events[1..])
  }

  function Sent(snapshot: string, events: seq<Event>): seq<Incoming>
  {
    (if snapshot == "" then [] else [Piece(snapshot)]) + AsIncomingAll(events)
  }

  /** The callback of the resuming console: pieces go to the parser, a non-blank error text ends the
      stream with that error, anything else is ignored. */
  function Follow<S>(decode: Decoder<S>, parser: Parser<S>, incoming: seq<Incoming>): Fed<S>
    decreases |incoming|
  {
    if incoming == [] then Fed(parser, false, "")
    else
      match incoming[0]
      case Piece(text) =>
        var fed := FeedChunk(decode, parser, text);
        if fed.failed then fed else Follow(decode, fed.parser, incoming[1..])
      case Failure(message) =>
        if TrimSpace(message) != "" then Fed(parser, true, TrimSpace(message))
        else Follow(decode, parser, incoming[1..])
      case End => Follow(decode, parser, incoming[1..])
  }

  /** The whole resumption: follow the stream, then `finish`; the first error is reported. */
  function Resume<S>(decode: Decoder<S>, state: S, incoming: seq<Incoming>): Outcome<S>
  {
    var fed := Follow(decode, Parser("", state), incoming);
    var end := FinishParser(decode, fed.parser);
    if fed.failed then Failed(end.parser.state, fed.error)
    else if end.failed then Failed(end.parser.state, end.error)
    else Continue(end.parser.state)
  }

  /** A final event that carries an error text the console would report. */
  predicate ReportsError(events: seq<Event>)
  {
    events != [] && Last(events).Error? && TrimSpace(Last(events).message) != ""
  }

  predicate FinalOnlyAtEnd(events: seq<Event>)
  {
    forall i :: 0 <= i < |events| - 1 ==> events[i].Delta?
  }

  function Texts(events: seq<Event>): seq<string>
  {
    if events == [] then []
    else (if events[0].Delta? then [events[0].text] else []) + Texts(events[1..])
  }

  lemma {:induction false} ConcatTexts(events: seq<Event>)
    ensures Concat(Texts(events)) == TextOf(events)
  {
    if events != [] {
      ConcatTexts(events[1..]);
      if events[0].Delta? {
        assert Texts(events)[1..] == Texts(events[1..]);
      } else {
        assert Texts(events) == Texts(events[1..]);
      }
    }
  }

  /** Following a channel feeds the parser the texts of the deltas; only a reported error at the end
      makes a difference. */
  lemma {:induction false} FollowFeeds<S>(decode: Decoder<S>, parser: Parser<S>, events: seq<Event>)
    requires FinalOnlyAtEnd(events)
    ensures var fed := FeedChunks(decode, parser, Texts(events));
            Follow(decode, parser, AsIncomingAll(events)) ==
            if fed.failed || !ReportsError(events) then fed
            else Fed(fed.parser, true, TrimSpace(Last(events).message))
    decreases |events|
  {
    if events != [] {
      assert AsIncomingAll(events)[1..] == AsIncomingAll(events[1..]);
      if events[0].Delta? {
        assert Texts(events)[1..] == Texts(events[1..]);
        var fed := FeedChunk(decode, parser, events[0].text);
        if !fed.failed { FollowFeeds(decode, fed.parser, events[1..]); }
      } else {
        assert |events| == 1 && events[1..] == [] && Texts(events) == [];
        assert Follow(decode, parser, AsIncomingAll(events[1..])) == Fed(parser, false, "");
      }
    }
  }

  /** What resuming from a snapshot and a channel yields: the state of parsing their text line by
      line, and its error unless the stream itself reported one first. */
  lemma ResumeParsesText<S>(decode: Decoder<S>, state: S, snapshot: string, events: seq<Event>)
    requires FinalOnlyAtEnd(events)
    ensures var batch := ConsumeLines(decode, state, SplitLines(snapshot + TextOf(events)));
            var resumed := Resume(decode, state, Sent(snapshot, events));
            && resumed.state == batch.state
            && (!ReportsError(events) ==> resumed == batch)
            && (batch.Failed? ==> resumed.Failed?)
  {
    var parser := Parser("", state);
    var chunks := [snapshot] + Texts(events);
    ConcatTexts(events);
    assert chunks[1..] == Texts(events);
    assert Concat(chunks) == snapshot + TextOf(events);
    ChunkingIndependence(decode, state, chunks);
    var first := FeedChunk(decode, parser, snapshot);
    FollowFeeds(decode, first.parser, events);
    if snapshot == "" {
      assert Sent(snapshot, events) == AsIncomingAll(events);
    } else {
      assert Sent(snapshot, events)[0] == Piece(snapshot) && Sent(snapshot, events)[1..] == AsIncomingAll(events);
    }
  }

  /** The channel of a reader holds deltas and, at most as its last event, a final one. */
  lemma ReceivedShape(s: System, id: nat)
    requires Inv(s) && id in s.readers
    ensures FinalOnlyAtEnd(s.readers[id].received + s.readers[id].queue)
    ensures Ended(s.readers[id]) ==> s.readers[id].queue == []
  {
    var r := s.readers[id];
    assert ReaderOk(s.readers[id], s.log, Dealt(s, id), Offered(s, id));
    var all := r.received + r.queue;
    assert forall i :: 0 <= i < |r.delivered| ==> all[i] == Pick(s.log, r.delivered)[i];
    if Ended(r) {
      assert all[|r.received| - 1] == Last(r.received);
    }
  }

  /** A reader that has received everything sent to it holds the whole output of a job that fits the
      replay. */
  lemma CaughtUp(s: System, id: nat)
    requires Inv(s) && id in s.readers && s.readers[id].attached && !s.readers[id].overflowed
    requires s.readers[id].queue == [] && !Pending(s, id) && |Output(s)| <= REPLAY_LIMIT
    ensures s.readers[id].snapshot + TextOf(s.readers[id].received) == Output(s)
  {
    ExactlyOnceAt(s, id);
    var r := s.readers[id];
    assert ReaderOk(s.readers[id], s.log, Dealt(s, id), Offered(s, id));
    ConcatSplit(s.log, r.joined);
    assert TextOf(r.queue) == "";
    assert SnapshotStart(s, id) == 0;
    assert TextOf(r.received) + "" + "" == TextOf(r.received);
  }

  /** Attaching at any moment is as good as having been there from the start. Take any interleaving
      after which a reader is still attached, has lost nothing and has received all that was sent to
      it, of a job whose output fits the replay. Feeding its snapshot and its events to the parser
      gives the state (callbacks included) and the error of parsing the whole output in one go; only
      an error that the job itself reported at the end may take the place of a parse error. */
  lemma AttachAnywhereIsBatch<S>(actions: seq<Action>, id: nat, decode: Decoder<S>, state: S)
    requires IsRun(START, actions)
    requires var s := Run(START, actions);
             && id in s.readers && s.readers[id].attached && !s.readers[id].overflowed
             && s.readers[id].queue == [] && !Pending(s, id) && |Output(s)| <= REPLAY_LIMIT
    ensures var s := Run(START, actions);
            var r := s.readers[id];
            var batch := ConsumeLines(decode, state, SplitLines(Output(s)));
            var resumed := Resume(decode, state, Sent(r.snapshot, r.received));
            && resumed.state == batch.state
            && (!ReportsError(r.received) ==> resumed == batch)
            && (batch.Failed? ==> resumed.Failed?)
  {
    InvReachable(actions);
    var s := Run(START, actions);
    var r := s.readers[id];
    CaughtUp(s, id);
    ReceivedShape(s, id);
    assert r.received + r.queue == r.received;
    ResumeParsesText(decode, state, r.snapshot, r.received);
  }

  lemma {:induction false} DrainOnlyReceives(s: System, id: nat)
    requires Inv(s) && s.finisher.Finished? && id in s.readers && s.readers[id].attached && !s.readers[id].overflowed
    ensures var t := Drain(s, id);
            && Inv(t) && t.log == s.log && t.appender == s.appender
            && id in t.readers && t.readers[id].attached && !t.readers[id].overflowed
    decreases |s.readers[id].queue|
  {
    if CanReceive(s.readers[id]) {
      InvReceive(s, id);
      DrainOnlyReceives(Apply(s, Receive(id)), id);
    }
  }

  /** End to end, for a job that has finished: whatever happened before, a reader still attached that
      lost nothing only has to read to the end of its stream, which it does, and has then parsed
      exactly the output of the job. */
  lemma AttachedReaderEndsAsBatch<S>(actions: seq<Action>, id: nat, decode: Decoder<S>, state: S)
    requires IsRun(START, actions)
    requires var s := Run(START, actions);
             && s.finisher.Finished? && |Output(s)| <= REPLAY_LIMIT
             && id in s.readers && s.readers[id].attached && !s.readers[id].overflowed
    ensures var s := Run(START, actions);
            var t := Drain(s, id);
            id in t.readers &&
            var r := t.readers[id];
            var batch := ConsumeLines(decode, state, SplitLines(Output(s)));
            var resumed := Resume(decode, state, Sent(r.snapshot, r.received));
            && (Ended(r) || (r.queue == [] && r.closed))
            && resumed.state == batch.state
            && (!ReportsError(r.received) ==> resumed == batch)
            && (batch.Failed? ==> resumed.Failed?)
  {
    InvReachable(actions);
    var s := Run(START, actions);
    var t := Drain(s, id);
    AttachedStreamEnds(s, id);
    DrainOnlyReceives(s, id);
    ReceivedShape(t, id);
    var r := t.readers[id];
    CaughtUp(t, id);
    assert r.received + r.queue == r.received;
    ResumeParsesText(decode, state, r.snapshot, r.received);
  }

  /** A reader that comes after the end gets the replay and the recorded outcome, and parses the same. */
  lemma LateReaderIsBatch<S>(actions: seq<Action>, decode: Decoder<S>, state: S)
    requires IsRun(START, actions)
    requires var s := Run(START, actions); s.job.done && |Output(s)| <= REPLAY_LIMIT
    ensures var s := Run(START, actions);
            var batch := ConsumeLines(decode, state, SplitLines(Output(s)));
            var resumed := Resume(decode, state, Sent(s.job.replay, [LateFinalEvent(s.job)]));
            && SubscribeLocked(s.job) == (s.job, 0)
            && resumed.state == batch.state
            && (LateFinalEvent(s.job).Done? ==> resumed == batch)
  {
    InvReachable(actions);
    var s := Run(START, actions);
    var events := [LateFinalEvent(s.job)];
    ResumeParsesText(decode, state, s.job.replay, events);
    assert TextOf(events) == "" by { assert events[1..] == []; }
    assert s.job.replay + "" == s.job.replay;
  }
}
