/**
  The registry of background jobs (internal/ass/jobs.go, jobRegistry.start) as a transition system:
  any number of concurrent `start` calls run check / prepare / check again and store / start the
  process, and a call whose process does not start deletes the entry of its id without looking whose
  it is. A job that finishes stays registered until another one replaces it.
*/
module JobRegistry {

  datatype Phase = Stored | Running | Done | NeverStarted

  /** `starter` is a history variable: the call that stored the job. */
  datatype Job = Job(id: string, phase: Phase, starter: nat)

  datatype Caller = Preparing(id: string) | Starting(job: nat) | Deleting(job: nat)
                  | Returned(job: nat, created: bool) | Failed

  datatype System = System(registered: map<string, nat>, jobs: seq<Job>, callers: seq<Caller>)

  const START := System(map[], [], [])

  datatype Action =
    | Call(id: string)
    | PrepareFails(caller: nat)
    | CheckAgain(caller: nat)
    | ProcessStarts(caller: nat)
    | ProcessFails(caller: nat)
    | DeleteEntry(caller: nat)
    | FinishJob(job: nat)

  /** The registered job of an id, unless it is done. */
  predicate HasActive(s: System, id: string)
  {
    id in s.registered && s.registered[id] < |s.jobs| && s.jobs[s.registered[id]].phase != Done
  }

  predicate Enabled(s: System, a: Action)
  {
    match a
    case Call(_) => true
    case PrepareFails(c) => c < |s.callers| && s.callers[c].Preparing?
    case CheckAgain(c) => c < |s.callers| && s.callers[c].Preparing?
    case ProcessStarts(c) => c < |s.callers| && s.callers[c].Starting? && s.callers[c].job < |s.jobs|
    case ProcessFails(c) => c < |s.callers| && s.callers[c].Starting? && s.callers[c].job < |s.jobs|
    case DeleteEntry(c) => c < |s.callers| && s.callers[c].Deleting? && s.callers[c].job < |s.jobs|
    case FinishJob(j) => j < |s.jobs| && s.jobs[j].phase == Running
  }

  function SetPhase(s: System, j: nat, phase: Phase): System
    requires j < |s.jobs|
  {
    s.(jobs := s.jobs[j := s.jobs[j].(phase := phase)])
  }

  function Apply(s: System, a: Action): System
    requires Enabled(s, a)
  {
    match a
    case Call(id) =>
      s.(callers := s.callers + [if HasActive(s, id) then Returned(s.registered[id], false) else Preparing(id)])
    case PrepareFails(c) => s.(callers := s.callers[c := Failed])
    case CheckAgain(c) =>
      var id := s.callers[c].id;
      if HasActive(s, id) then s.(callers := s.callers[c := Returned(s.registered[id], false)])
      else s.(registered := s.registered[id := |s.jobs|], jobs := s.jobs + [Job(id, Stored, c)],
              callers := s.callers[c := Starting(|s.jobs|)])
    case ProcessStarts(c) =>
      SetPhase(s, s.callers[c].job, Running).(callers := s.callers[c := Returned(s.callers[c].job, true)])
    case ProcessFails(c) => s.(callers := s.callers[c := Deleting(s.callers[c].job)])
    case DeleteEntry(c) =>
      var j := s.callers[c].job;
      SetPhase(s, j, NeverStarted).(registered := s.registered - {s.jobs[j].id}, callers := s.callers[c := Failed])
    case FinishJob(j) => SetPhase(s, j, Done)
  }

  predicate IsRun(s: System, actions: seq<Action>)
    decreases |actions|
  {
    actions == [] || (Enabled(s, actions[0]) && IsRun(Apply(s, actions[0]), actions[1..]))
  }

  function Run(s: System, actions: seq<Action>): System
    requires IsRun(s, actions)
    decreases |actions|
  {
    if actions == [] then s else Run(Apply(s, actions[0]), actions[1..])
  }

  /** What is registered is a stored, running or finished job of that id, and an unfinished job is
      registered under its id. */
  ghost predicate RegistryOk(s: System)
  {
    && (forall id :: id in s.registered ==>
          && s.registered[id] < |s.jobs| && s.jobs[s.registered[id]].id == id
          && s.jobs[s.registered[id]].phase != NeverStarted)
    && (forall j :: 0 <= j < |s.jobs| && (s.jobs[j].phase == Stored || s.jobs[j].phase == Running) ==>
          s.jobs[j].id in s.registered && s.registered[s.jobs[j].id] == j)
  }

  predicate Owns(caller: Caller)
  {
    caller.Starting? || caller.Deleting?
  }

  /** A call that has not finished starting its process holds the job it stored itself. */
  ghost predicate CallersOk(s: System)
  {
    forall c :: 0 <= c < |s.callers| && Owns(s.callers[c]) ==>
      s.callers[c].job < |s.jobs| && s.jobs[s.callers[c].job].phase == Stored && s.jobs[s.callers[c].job].starter == c
  }

  predicate Started(phase: Phase)
  {
    phase == Running || phase == Done
  }

  /** How far the call that stored a job has got. */
  predicate Matches(job: Job, j: nat, caller: Caller)
  {
    match job.phase
    case Stored => caller == Starting(j) || caller == Deleting(j)
    case NeverStarted => caller == Failed
    case _ => caller == Returned(j, true)
  }

  ghost predicate JobsOk(s: System)
  {
    forall j :: 0 <= j < |s.jobs| ==>
      s.jobs[j].starter < |s.callers| && Matches(s.jobs[j], j, s.callers[s.jobs[j].starter])
  }

  /** An answer names a job of the registry; only the call that stored it is told that it created it. */
  ghost predicate AnswersOk(s: System)
  {
    forall c :: 0 <= c < |s.callers| && s.callers[c].Returned? ==>
      && s.callers[c].job < |s.jobs|
      && (s.callers[c].created ==> s.jobs[s.callers[c].job].starter == c && Started(s.jobs[s.callers[c].job].phase))
  }

  ghost predicate Inv(s: System)
  {
    RegistryOk(s) && CallersOk(s) && JobsOk(s) && AnswersOk(s)
  }

  lemma CallersStep(s: System, a: Action)
    requires CallersOk(s) && Enabled(s, a)
    ensures CallersOk(Apply(s, a))
  {
  }

  lemma RegistryStep(s: System, a: Action)
    requires RegistryOk(s) && Enabled(s, a)
    requires a.DeleteEntry? ==> s.jobs[s.callers[a.caller].job].phase == Stored
    requires a.ProcessStarts? ==> s.jobs[s.callers[a.caller].job].phase == Stored
    ensures RegistryOk(Apply(s, a))
  {
  }

  lemma JobsStep(s: System, a: Action)
    requires CallersOk(s) && JobsOk(s) && Enabled(s, a)
    ensures JobsOk(Apply(s, a))
  {
    var t := Apply(s, a);
    forall j | 0 <= j < |t.jobs|
      ensures t.jobs[j].starter < |t.callers| && Matches(t.jobs[j], j, t.callers[t.jobs[j].starter])
    {
      if j < |s.jobs| { assert Matches(s.jobs[j], j, s.callers[s.jobs[j].starter]); }
    }
  }

  lemma AnswersStep(s: System, a: Action)
    requires CallersOk(s) && AnswersOk(s) && Enabled(s, a)
    ensures AnswersOk(Apply(s, a))
  {
  }

  lemma InvStep(s: System, a: Action)
    requires Inv(s) && Enabled(s, a)
    ensures Inv(Apply(s, a))
  {
    CallersStep(s, a);
    RegistryStep(s, a);
    JobsStep(s, a);
    AnswersStep(s, a);
  }

  lemma {:induction false} InvRun(s: System, actions: seq<Action>)
    requires Inv(s) && IsRun(s, actions)
    ensures Inv(Run(s, actions))
    decreases |actions|
  {
    if actions != [] {
      InvStep(s, actions[0]);
      InvRun(Apply(s, actions[0]), actions[1..]);
    }
  }

  lemma InvReachable(actions: seq<Action>)
    requires IsRun(START, actions)
    ensures Inv(Run(START, actions))
  {
    InvRun(START, actions);
  }

  /** Every job that is stored or running is the one registered under its id, so at most one exists per
      id, whatever calls run concurrently. */
  lemma OneUnfinishedJobPerId(actions: seq<Action>)
    requires IsRun(START, actions)
    ensures var s := Run(START, actions);
            && (forall j :: 0 <= j < |s.jobs| && (s.jobs[j].phase == Stored || s.jobs[j].phase == Running) ==>
                  s.jobs[j].id in s.registered && s.registered[s.jobs[j].id] == j)
            && (forall j, k :: 0 <= j < k < |s.jobs| && s.jobs[j].phase == Running && s.jobs[k].phase == Running ==>
                  s.jobs[j].id != s.jobs[k].id)
  {
    InvReachable(actions);
  }

  /** The delete after a failed start looks at nothing, yet only ever removes the job that the same call
      stored. */
  lemma DeleteRemovesOwnJob(actions: seq<Action>, c: nat)
    requires IsRun(START, actions) && Enabled(Run(START, actions), DeleteEntry(c))
    ensures var s := Run(START, actions);
            var j := s.callers[c].job;
            && s.jobs[j].starter == c && s.jobs[j].id in s.registered && s.registered[s.jobs[j].id] == j
            && (forall id :: id in s.registered && id != s.jobs[j].id ==>
                  && id in Apply(s, DeleteEntry(c)).registered
                  && Apply(s, DeleteEntry(c)).registered[id] == s.registered[id])
            && s.jobs[j].id !in Apply(s, DeleteEntry(c)).registered
  {
    InvReachable(actions);
  }

  /** A job that replaces another replaces a finished one only. */
  lemma StoringReplacesOnlyFinished(actions: seq<Action>, c: nat)
    requires IsRun(START, actions) && Enabled(Run(START, actions), CheckAgain(c))
    requires !HasActive(Run(START, actions), Run(START, actions).callers[c].id)
    ensures var s := Run(START, actions);
            var id := s.callers[c].id;
            id in s.registered ==> s.registered[id] < |s.jobs| && s.jobs[s.registered[id]].phase == Done
  {
    InvReachable(actions);
  }

  /** A job has started exactly when the call that stored it has been answered that it created it. */
  lemma StartedIffCreated(actions: seq<Action>, j: nat, c: nat)
    requires IsRun(START, actions)
    ensures var s := Run(START, actions);
            c < |s.callers| && s.callers[c] == Returned(j, true)
            <==> j < |s.jobs| && s.jobs[j].starter == c && Started(s.jobs[j].phase)
  {
    InvReachable(actions);
    var s := Run(START, actions);
    if j < |s.jobs| { assert Matches(s.jobs[j], j, s.callers[s.jobs[j].starter]); }
  }

  // ----- joining a job

  /** The step answers a call with the existing job `j`. */
  predicate Joins(s: System, a: Action, j: nat)
    requires Enabled(s, a)
  {
    match a
    case Call(id) => HasActive(s, id) && s.registered[id] == j
    case CheckAgain(c) => HasActive(s, s.callers[c].id) && s.registered[s.callers[c].id] == j
    case _ => false
  }

  predicate HasPhase(s: System, j: nat, phase: Phase)
  {
    j < |s.jobs| && s.jobs[j].phase == phase
  }

  /** Whatever happens next, the job has started. */
  ghost predicate StaysStarted(s: System, j: nat)
  {
    forall more :: IsRun(s, more) ==> HasPhase(Run(s, more), j, Running) || HasPhase(Run(s, more), j, Done)
  }

  ghost predicate CanFailToStart(s: System, j: nat)
  {
    exists more :: IsRun(s, more) && HasPhase(Run(s, more), j, NeverStarted)
  }

  lemma {:induction false} StartedStays(s: System, more: seq<Action>, j: nat)
    requires Inv(s) && IsRun(s, more) && (HasPhase(s, j, Running) || HasPhase(s, j, Done))
    ensures HasPhase(Run(s, more), j, Running) || HasPhase(Run(s, more), j, Done)
    decreases |more|
  {
    if more != [] {
      InvStep(s, more[0]);
      StartedStays(Apply(s, more[0]), more[1..], j);
    }
  }

  /** A stored job whose process does not start is deleted by the call that stored it. */
  lemma StoredCanFail(s: System, j: nat)
    requires Inv(s) && HasPhase(s, j, Stored)
    ensures CanFailToStart(s, j)
  {
    var c := s.jobs[j].starter;
    assert Matches(s.jobs[j], j, s.callers[c]);
    if s.callers[c].Starting? {
      var t := Apply(s, ProcessFails(c));
      RunOne(t, DeleteEntry(c));
      var both := [ProcessFails(c), DeleteEntry(c)];
      assert both[1..] == [DeleteEntry(c)];
      assert IsRun(s, both) && HasPhase(Run(s, both), j, NeverStarted);
    } else {
      RunOne(s, DeleteEntry(c));
      assert HasPhase(Run(s, [DeleteEntry(c)]), j, NeverStarted);
    }
  }

  lemma RunOne(s: System, a: Action)
    requires Enabled(s, a)
    ensures IsRun(s, [a]) && Run(s, [a]) == Apply(s, a)
  {
    assert [a][1..] == [];
    assert IsRun(Apply(s, a), []) && Run(Apply(s, a), []) == Apply(s, a);
  }

  /** What an answer with an existing job is worth depends on the job's state at that moment. It is stored or
      running; if it runs, it has started and stays so in every continuation; if it is only stored, there is a
      continuation in which it never starts. */
  lemma JoinIsSafeIff(actions: seq<Action>, a: Action, j: nat)
    requires IsRun(START, actions) && Enabled(Run(START, actions), a) && Joins(Run(START, actions), a, j)
    ensures var t := Apply(Run(START, actions), a);
            && (HasPhase(t, j, Stored) || HasPhase(t, j, Running))
            && (StaysStarted(t, j) <==> HasPhase(t, j, Running))
            && (CanFailToStart(t, j) <==> HasPhase(t, j, Stored))
  {
    InvReachable(actions);
    var s := Run(START, actions);
    var t := Apply(s, a);
    InvStep(s, a);
    assert IsRun(t, []) && Run(t, []) == t;
    if HasPhase(t, j, Stored) {
      StoredCanFail(t, j);
    } else {
      forall more | IsRun(t, more) ensures HasPhase(Run(t, more), j, Running) || HasPhase(Run(t, more), j, Done) {
        StartedStays(t, more, j);
      }
    }
  }

  /** Such a run, from the start. */
  lemma JoinedJobMayNeverRun()
    ensures var actions := [Call("j"), CheckAgain(0), Call("j"), ProcessFails(0), DeleteEntry(0)];
            IsRun(START, actions) &&
            var s := Run(START, actions);
            && |s.callers| == 2 && s.callers[1] == Returned(0, false) && s.callers[0] == Failed
            && |s.jobs| == 1 && s.jobs[0].phase == NeverStarted
  {
    var actions := [Call("j"), CheckAgain(0), Call("j"), ProcessFails(0), DeleteEntry(0)];
    var s1 := Apply(START, Call("j"));
    var s2 := Apply(s1, CheckAgain(0));
    var s3 := Apply(s2, Call("j"));
    var s4 := Apply(s3, ProcessFails(0));
    var s5 := Apply(s4, DeleteEntry(0));
    assert actions[1..] == [CheckAgain(0), Call("j"), ProcessFails(0), DeleteEntry(0)];
    assert actions[1..][1..] == [Call("j"), ProcessFails(0), DeleteEntry(0)];
    assert actions[1..][1..][1..] == [ProcessFails(0), DeleteEntry(0)];
    assert actions[1..][1..][1..][1..] == [DeleteEntry(0)] && [DeleteEntry(0)][1..] == [];
    assert Run(s4, [DeleteEntry(0)]) == s5;
    assert Run(s3, [ProcessFails(0), DeleteEntry(0)]) == s5;
    assert Run(s2, [Call("j"), ProcessFails(0), DeleteEntry(0)]) == s5;
    assert Run(s1, actions[1..]) == s5;
  }
}
