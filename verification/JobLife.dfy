/**
  Registry and hubs of the background jobs together (internal/ass/jobs.go): every job that a call stores has
  a hub, which handlers attach to as soon as the job can be found. The goroutines that feed and finish the hub
  exist only if the process was started; when it was not, the call that stored the job deletes the registry's
  entry and nothing else.
*/
module JobLife {
  import R = JobRegistry
  import H = JobHub

  datatype System = System(registry: R.System, hubs: seq<H.System>)

  const START := System(R.START, [])

  /** A step of a `start` call, or one of the hub of a job. */
  datatype Action = Start(inCall: R.Action) | Act(job: nat, inHub: H.Action)

  /** The steps that are not those of a handler. */
  predicate OfGoroutine(a: H.Action)
  {
    !a.Subscribe? && !a.Receive? && !a.Leave?
  }

  predicate Enabled(s: System, a: Action)
  {
    match a
    case Start(step) => !step.FinishJob? && R.Enabled(s.registry, step)
    case Act(j, step) =>
      && j < |s.hubs| && j < |s.registry.jobs| && H.Enabled(s.hubs[j], step)
      && (OfGoroutine(step) ==> R.Started(s.registry.jobs[j].phase))
      && (step.Finish? ==> R.Enabled(s.registry, R.FinishJob(j)))
  }

  /** Storing a job makes its hub; finishing one is seen by registry and hub at once. */
  function Apply(s: System, a: Action): System
    requires Enabled(s, a)
  {
    match a
    case Start(step) =>
      var registry := R.Apply(s.registry, step);
      System(registry, if |registry.jobs| > |s.registry.jobs| then s.hubs + [H.START] else s.hubs)
    case Act(j, step) =>
      System(if step.Finish? then R.Apply(s.registry, R.FinishJob(j)) else s.registry,
             s.hubs[j := H.Apply(s.hubs[j], step)])
  }

  predicate IsRun(s: System, actions: seq<Action>)
    decreases |actions|
  {
    actions == [] || (Enabled(s, actions[0]) && IsRun(Apply(s, actions[0]), actions[1..]))
  }

  function Run(s: System, actions: seq<Action>): System
    requires IsRun(s, actions)
    decreases |actions|
  {
    if actions == [] then s else Run(Apply(s, actions[0]), actions[1..])
  }

  // ----- the invariant

  /** Nothing has happened in the hub but attaching and leaving. */
  ghost predicate Quiet(hub: H.System)
  {
    && hub.finisher.Waiting? && hub.appender.Idle?
    && forall id :: id in hub.readers ==>
         hub.readers[id].queue == [] && hub.readers[id].received == [] && !hub.readers[id].closed
  }

  ghost predicate HubOk(phase: R.Phase, hub: H.System)
  {
    && H.Inv(hub)
    && (!R.Started(phase) ==> Quiet(hub))
    && (R.Started(phase) ==> (phase == R.Running <==> hub.finisher.Waiting?))
  }

  ghost predicate Inv(s: System)
  {
    && R.Inv(s.registry) && |s.hubs| == |s.registry.jobs|
    && forall j :: 0 <= j < |s.hubs| ==> HubOk(s.registry.jobs[j].phase, s.hubs[j])
  }

  lemma StartIsOk()
    ensures H.Inv(H.START) && Quiet(H.START)
  {
    H.InvReachable([]);
  }

  /** How a step of a call changes phases. */
  lemma PhasesStep(s: R.System, a: R.Action, j: nat)
    requires R.Inv(s) && R.Enabled(s, a) && !a.FinishJob? && j < |s.jobs|
    ensures var t := R.Apply(s, a);
            && |s.jobs| <= |t.jobs| <= |s.jobs| + 1
            && (t.jobs[j].phase == s.jobs[j].phase
                || (s.jobs[j].phase == R.Stored && (t.jobs[j].phase == R.Running || t.jobs[j].phase == R.NeverStarted)))
  {
  }

  lemma NewJobIsStored(s: R.System, a: R.Action)
    requires R.Enabled(s, a) && |R.Apply(s, a).jobs| > |s.jobs|
    ensures R.Apply(s, a).jobs[|s.jobs|].phase == R.Stored && |R.Apply(s, a).jobs| == |s.jobs| + 1
  {
  }

  lemma HubAfterStart(s: System, a: R.Action, j: nat)
    requires Inv(s) && Enabled(s, Start(a)) && j < |Apply(s, Start(a)).hubs|
    ensures j < |R.Apply(s.registry, a).jobs|
    ensures HubOk(R.Apply(s.registry, a).jobs[j].phase, Apply(s, Start(a)).hubs[j])
  {
    if j < |s.hubs| {
      assert HubOk(s.registry.jobs[j].phase, s.hubs[j]);
      PhasesStep(s.registry, a, j);
    } else {
      NewJobIsStored(s.registry, a);
      StartIsOk();
    }
  }

  lemma JobsGrow(s: R.System, a: R.Action)
    requires R.Enabled(s, a)
    ensures |s.jobs| <= |R.Apply(s, a).jobs| <= |s.jobs| + 1
  {
  }

  lemma InvStart(s: System, a: R.Action)
    requires Inv(s) && Enabled(s, Start(a))
    ensures Inv(Apply(s, Start(a)))
  {
    R.InvStep(s.registry, a);
    JobsGrow(s.registry, a);
    var t := Apply(s, Start(a));
    forall j | 0 <= j < |t.hubs| ensures HubOk(t.registry.jobs[j].phase, t.hubs[j]) { HubAfterStart(s, a, j); }
  }

  lemma QuietStep(hub: H.System, a: H.Action)
    requires H.Inv(hub) && Quiet(hub) && H.Enabled(hub, a) && !OfGoroutine(a)
    ensures Quiet(H.Apply(hub, a))
  {
  }

  lemma FinisherStep(hub: H.System, a: H.Action)
    requires H.Inv(hub) && H.Enabled(hub, a)
    ensures H.Apply(hub, a).finisher.Waiting? <==> hub.finisher.Waiting? && !a.Finish?
  {
  }

  /** One hub's step; finishing is the only one that changes the phase. */
  lemma HubStep(phase: R.Phase, hub: H.System, a: H.Action)
    requires HubOk(phase, hub) && H.Enabled(hub, a)
    requires (OfGoroutine(a) ==> R.Started(phase)) && (a.Finish? ==> phase == R.Running)
    ensures HubOk(if a.Finish? then R.Done else phase, H.Apply(hub, a))
  {
    H.InvStep(hub, a);
    FinisherStep(hub, a);
    if !R.Started(phase) { QuietStep(hub, a); }
  }

  lemma InvAct(s: System, j: nat, a: H.Action)
    requires Inv(s) && Enabled(s, Act(j, a))
    ensures Inv(Apply(s, Act(j, a)))
  {
    var r := s.registry;
    assert HubOk(r.jobs[j].phase, s.hubs[j]);
    HubStep(r.jobs[j].phase, s.hubs[j], a);
    if a.Finish? {
      R.InvStep(r, R.FinishJob(j));
      assert R.Apply(r, R.FinishJob(j)).jobs == r.jobs[j := r.jobs[j].(phase := R.Done)];
    }
  }

  lemma {:induction false} InvRun(s: System, actions: seq<Action>)
    requires Inv(s) && IsRun(s, actions)
    ensures Inv(Run(s, actions))
    decreases |actions|
  {
    if actions != [] {
      match actions[0] {
        case Start(a) => InvStart(s, a);
        case Act(j, a) => InvAct(s, j, a);
      }
      InvRun(Apply(s, actions[0]), actions[1..]);
    }
  }

  // ----- when an attached handler ends

  /** The handler returns: it has written a final event, or its channel is closed and empty. */
  predicate Over(r: H.Reader)
  {
    H.Ended(r) || (r.queue == [] && r.closed)
  }

  predicate Attached(s: System, j: nat, id: nat)
  {
    j < |s.hubs| && id in s.hubs[j].readers && s.hubs[j].readers[id].attached
  }

  predicate HasEnded(s: System, j: nat, id: nat)
  {
    Attached(s, j, id) && Over(s.hubs[j].readers[id])
  }

  ghost predicate CanEnd(s: System, j: nat, id: nat)
  {
    exists more :: IsRun(s, more) && HasEnded(Run(s, more), j, id)
  }

  /** The process could not be started: the entry of the job is deleted, or will be next. */
  predicate Doomed(s: R.System, j: nat)
  {
    && j < |s.jobs| && s.jobs[j].starter < |s.callers|
    && (s.jobs[j].phase == R.NeverStarted || s.callers[s.jobs[j].starter] == R.Deleting(j))
  }

  lemma StarterIsThere(s: R.System, j: nat)
    requires R.Inv(s) && j < |s.jobs|
    ensures s.jobs[j].starter < |s.callers| && R.Matches(s.jobs[j], j, s.callers[s.jobs[j].starter])
  {
  }

  lemma DoomedCall(s: R.System, a: R.Action, j: nat)
    requires R.Inv(s) && R.Enabled(s, a) && Doomed(s, j)
    ensures Doomed(R.Apply(s, a), j)
  {
    StarterIsThere(s, j);
  }

  lemma DoomedStep(s: System, a: Action, j: nat)
    requires Inv(s) && Enabled(s, a) && Doomed(s.registry, j)
    ensures Doomed(Apply(s, a).registry, j)
  {
    match a
    case Start(step) => DoomedCall(s.registry, step, j);
    case Act(k, step) => if step.Finish? { DoomedCall(s.registry, R.FinishJob(k), j); }
  }

  lemma {:induction false} DoomedStays(s: System, more: seq<Action>, j: nat, id: nat)
    requires Inv(s) && IsRun(s, more) && Doomed(s.registry, j)
    ensures j < |Run(s, more).hubs| && Quiet(Run(s, more).hubs[j]) && !HasEnded(Run(s, more), j, id)
    decreases |more|
  {
    StarterIsThere(s.registry, j);
    assert HubOk(s.registry.jobs[j].phase, s.hubs[j]);
    if more != [] {
      DoomedStep(s, more[0], j);
      match more[0] {
        case Start(a) => InvStart(s, a);
        case Act(k, a) => InvAct(s, k, a);
      }
      DoomedStays(Apply(s, more[0]), more[1..], j, id);
    }
  }

  // ----- a started job can always be finished

  lemma {:induction false} EnumerationOf(ids: set<nat>) returns (order: seq<nat>)
    ensures H.Enumerates(order, ids)
    decreases |ids|
  {
    if ids == {} {
      order := [];
    } else {
      var id :| id in ids;
      var rest := EnumerationOf(ids - {id});
      order := [id] + rest;
      assert forall other :: other in ids && other != id ==> other in rest;
    }
  }

  function Stage(f: H.Finisher): nat
  {
    if f.Waiting? then 2 else if f.Finishing? then 1 else 0
  }

  /** What is left to do before the handler returns, in the current stage. */
  function Left(hub: H.System, id: nat): nat
    requires id in hub.readers
  {
    if hub.finisher.Finishing? then H.FinisherWork(hub.finisher)
    else if hub.finisher.Finished? then |hub.readers[id].queue|
    else if hub.appender.Exited? then 0
    else if hub.appender.Idle? then 1
    else 2 + |hub.appender.todo|
  }

  predicate Nearer(hub: H.System, a: H.Action, id: nat)
    requires H.Enabled(hub, a) && id in hub.readers
  {
    var next := H.Apply(hub, a);
    && id in next.readers && next.readers[id].attached
    && (Stage(next.finisher) < Stage(hub.finisher)
        || (Stage(next.finisher) == Stage(hub.finisher) && Left(next, id) < Left(hub, id)))
  }

  /** While the job runs, its output is dealt with and it finishes. */
  lemma RunningGoesOn(hub: H.System, id: nat) returns (a: H.Action)
    requires H.Inv(hub) && hub.finisher.Waiting? && id in hub.readers && hub.readers[id].attached
    ensures H.Enabled(hub, a) && Nearer(hub, a, id)
  {
    if hub.appender.Sending? {
      a := H.SendNext;
    } else if hub.appender.Idle? {
      a := H.Exit;
    } else {
      var order := EnumerationOf(hub.job.subscribers);
      a := H.Finish(0, "", order);
    }
  }

  lemma FinishingGoesOn(hub: H.System, id: nat) returns (a: H.Action)
    requires H.Inv(hub) && hub.finisher.Finishing? && id in hub.readers && hub.readers[id].attached
    ensures H.Enabled(hub, a) && Nearer(hub, a, id)
  {
    a := if hub.finisher.offered then H.CloseNext else H.OfferNext;
  }

  lemma ReadingGoesOn(hub: H.System, id: nat) returns (a: H.Action)
    requires H.Inv(hub) && hub.finisher.Finished? && id in hub.readers && hub.readers[id].attached
    requires !Over(hub.readers[id])
    ensures H.Enabled(hub, a) && Nearer(hub, a, id)
  {
    a := H.Receive(id);
  }

  lemma GoesOn(hub: H.System, id: nat) returns (a: H.Action)
    requires H.Inv(hub) && id in hub.readers && hub.readers[id].attached && !Over(hub.readers[id])
    ensures H.Enabled(hub, a) && Nearer(hub, a, id) && (a.Finish? ==> hub.finisher.Waiting?)
  {
    if hub.finisher.Waiting? { a := RunningGoesOn(hub, id); }
    else if hub.finisher.Finishing? { a := FinishingGoesOn(hub, id); }
    else { a := ReadingGoesOn(hub, id); }
  }

  lemma CanAct(s: System, j: nat, a: H.Action)
    requires Inv(s) && j < |s.hubs| && R.Started(s.registry.jobs[j].phase)
    requires H.Enabled(s.hubs[j], a) && (a.Finish? ==> s.hubs[j].finisher.Waiting?)
    ensures Enabled(s, Act(j, a))
  {
    assert HubOk(s.registry.jobs[j].phase, s.hubs[j]);
  }

  lemma PhaseAfterAct(s: System, j: nat, a: H.Action)
    requires Enabled(s, Act(j, a)) && R.Started(s.registry.jobs[j].phase)
    ensures var t := Apply(s, Act(j, a));
            && j < |t.registry.jobs| && R.Started(t.registry.jobs[j].phase)
            && t.hubs == s.hubs[j := H.Apply(s.hubs[j], a)]
  {
  }

  lemma {:induction false} StartedCanEnd(s: System, j: nat, id: nat)
    requires Inv(s) && Attached(s, j, id) && R.Started(s.registry.jobs[j].phase)
    ensures CanEnd(s, j, id)
    decreases Stage(s.hubs[j].finisher), Left(s.hubs[j], id)
  {
    var hub := s.hubs[j];
    if Over(hub.readers[id]) {
      assert IsRun(s, []) && Run(s, []) == s;
    } else {
      assert HubOk(s.registry.jobs[j].phase, hub);
      var a := GoesOn(hub, id);
      CanAct(s, j, a);
      PhaseAfterAct(s, j, a);
      InvAct(s, j, a);
      StartedCanEnd(Apply(s, Act(j, a)), j, id);
      OneStepEarlier(s, Act(j, a), j, id);
    }
  }

  lemma OneStepEarlier(s: System, a: Action, j: nat, id: nat)
    requires Enabled(s, a) && CanEnd(Apply(s, a), j, id)
    ensures CanEnd(s, j, id)
  {
    var t := Apply(s, a);
    var more :| IsRun(t, more) && HasEnded(Run(t, more), j, id);
    RunCons(s, a, more);
    assert IsRun(s, [a] + more) && HasEnded(Run(s, [a] + more), j, id);
  }

  lemma StoredCanEnd(s: System, j: nat, id: nat)
    requires Inv(s) && Attached(s, j, id) && s.registry.jobs[j].phase == R.Stored && !Doomed(s.registry, j)
    ensures CanEnd(s, j, id)
  {
    StarterIsThere(s.registry, j);
    var a := R.ProcessStarts(s.registry.jobs[j].starter);
    assert R.Enabled(s.registry, a) && R.Apply(s.registry, a).jobs[j].phase == R.Running;
    InvStart(s, a);
    StartedCanEnd(Apply(s, Start(a)), j, id);
    OneStepEarlier(s, Start(a), j, id);
  }

  /** Whatever happens next, the channel stays open and empty. */
  ghost predicate Hangs(s: System, j: nat, id: nat)
  {
    forall more :: IsRun(s, more) ==>
      var t := Run(s, more); j < |t.hubs| && Quiet(t.hubs[j]) && !HasEnded(t, j, id)
  }

  /** A handler attached to a job ends in some continuation exactly if the start of the job's process has not
      failed. If it has, the handler waits for ever. */
  lemma AttachedHandlerEndsIff(actions: seq<Action>, j: nat, id: nat)
    requires IsRun(START, actions) && Attached(Run(START, actions), j, id)
    ensures var s := Run(START, actions);
            && (CanEnd(s, j, id) <==> !Doomed(s.registry, j))
            && (Doomed(s.registry, j) ==> Hangs(s, j, id))
  {
    StartIsInv();
    InvRun(START, actions);
    var s := Run(START, actions);
    if Doomed(s.registry, j) {
      forall more | IsRun(s, more)
        ensures j < |Run(s, more).hubs| && Quiet(Run(s, more).hubs[j]) && !HasEnded(Run(s, more), j, id)
      {
        DoomedStays(s, more, j, id);
      }
    } else if s.registry.jobs[j].phase == R.Stored {
      StoredCanEnd(s, j, id);
    } else {
      StarterIsThere(s.registry, j);
      StartedCanEnd(s, j, id);
    }
  }

  lemma StartIsInv()
    ensures Inv(START)
  {
    R.InvReachable([]);
  }

  /** Such a run: a handler attaches between storing and starting. */
  lemma HandlerOfFailedJobHangs()
    ensures var actions :=
              [Start(R.Call("j")), Start(R.CheckAgain(0)), Act(0, H.Subscribe), Start(R.ProcessFails(0))];
            IsRun(START, actions) && Attached(Run(START, actions), 0, 1) && Hangs(Run(START, actions), 0, 1)
  {
    var actions := [Start(R.Call("j")), Start(R.CheckAgain(0)), Act(0, H.Subscribe), Start(R.ProcessFails(0))];
    StartIsInv();
    RunFour(START, actions[0], actions[1], actions[2], actions[3]);
    AttachedHandlerEndsIff(actions, 0, 1);
  }

  lemma RunFour(s: System, a: Action, b: Action, c: Action, d: Action)
    requires Enabled(s, a) && Enabled(Apply(s, a), b) && Enabled(Apply(Apply(s, a), b), c)
    requires Enabled(Apply(Apply(Apply(s, a), b), c), d)
    ensures IsRun(s, [a, b, c, d]) && Run(s, [a, b, c, d]) == Apply(Apply(Apply(Apply(s, a), b), c), d)
  {
    var t := Apply(Apply(Apply(s, a), b), c);
    assert IsRun(Apply(t, d), []) && Run(Apply(t, d), []) == Apply(t, d);
    RunCons(t, d, []);
    RunCons(Apply(Apply(s, a), b), c, [d]);
    RunCons(Apply(s, a), b, [c, d]);
    RunCons(s, a, [b, c, d]);
    assert [a] + ([b] + ([c] + ([d] + []))) == [a, b, c, d];
  }

  lemma RunCons(s: System, a: Action, rest: seq<Action>)
    requires Enabled(s, a) && IsRun(Apply(s, a), rest)
    ensures IsRun(s, [a] + rest) && Run(s, [a] + rest) == Run(Apply(s, a), rest)
  {
    assert ([a] + rest)[1..] == rest;
  }
}
