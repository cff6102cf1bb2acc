/**
  The registry of interactive shells (internal/console/chat_shell_registry.go) as a transition
  system: any number of callers run check / open a shell / check again, and any session may be closed
  at any time, its close being four separate steps. One step is one critical section or one call made
  outside the locks. `home`, `lost` and the counts of closes are history variables.
*/
module ShellRegistry {

  /** How far the close of a session has come (`closeOnce` lets one goroutine through). */
  datatype Phase = Running | Closing | ShellClosed | Unregistered | Done

  datatype Session = Session(key: string, shell: nat, phase: Phase)

  /** A caller of `getOrCreate`: opening a shell, about to check again, closing the shell it lost with,
      or finished. */
  datatype Caller = Opening(key: string) | Opened(key: string, shell: nat)
      | Losing(key: string, shell: nat, winner: nat)
                  | Returned(key: string, session: nat) | Failed

  /** Where an opened shell ended up. */
  datatype Home = InSession(session: nat) | WithCaller(caller: nat) | ClosedByLoser

  datatype System = System(registered: map<string, nat>, sessions: seq<Session>, callers: seq<Caller>,
                           home: seq<Home>, closes: seq<nat>)

  const START := System(map[], [], [], [], [])

  datatype Action =
    | Call(key: string)
    | OpenFails(caller: nat)
    | OpenSucceeds(caller: nat)
    | CheckAgain(caller: nat)
    | CloseLost(caller: nat)
    | BeginClose(session: nat)
    | CloseShell(session: nat)
    | Unregister(session: nat)
    | MarkDone(session: nat)

  /** The registered session of a key, unless it is done. */
  predicate HasActive(s: System, key: string)
  {
    key in s.registered && s.registered[key] < |s.sessions| && s.sessions[s.registered[key]].phase != Done
  }

  predicate Enabled(s: System, a: Action)
  {
    match a
    case Call(_) => true
    case OpenFails(c) => c < |s.callers| && s.callers[c].Opening?
    case OpenSucceeds(c) => c < |s.callers| && s.callers[c].Opening?
    case CheckAgain(c) => c < |s.callers| && s.callers[c].Opened? && s.callers[c].shell < |s.home|
    case CloseLost(c) => c < |s.callers| && s.callers[c].Losing? && s.callers[c].shell < |s.closes| == |s.home|
    case BeginClose(i) => i < |s.sessions| && s.sessions[i].phase == Running
    case CloseShell(i) => i < |s.sessions| && s.sessions[i].phase == Closing && s.sessions[i].shell < |s.closes|
    case Unregister(i) => i < |s.sessions| && s.sessions[i].phase == ShellClosed
    case MarkDone(i) => i < |s.sessions| && s.sessions[i].phase == Unregistered
  }

  /** The guarded delete of the registry: only the entry that still names this very session. */
  function Delete(registered: map<string, nat>, key: string, session: nat): map<string, nat>
  {
    if key in registered && registered[key] == session then registered - {key} else registered
  }

  function SetPhase(s: System, i: nat, phase: Phase): System
    requires i < |s.sessions|
  {
    s.(sessions := s.sessions[i := s.sessions[i].(phase := phase)])
  }

  function DoCall(s: System, key: string): System
  {
    s.(callers := s.callers + [if HasActive(s, key) then Returned(key, s.registered[key]) else Opening(key)])
  }

  function DoOpen(s: System, c: nat): System
    requires Enabled(s, OpenSucceeds(c))
  {
    s.(callers := s.callers[c := Opened(s.callers[c].key, |s.home|)], home := s.home + [WithCaller(c)],
       closes := s.closes + [0])
  }

  function DoCheckAgain(s: System, c: nat): System
    requires Enabled(s, CheckAgain(c))
  {
    var Opened(key, shell) := s.callers[c];
    if HasActive(s, key) then s.(callers := s.callers[c := Losing(key, shell, s.registered[key])])
    else s.(registered := s.registered[key := |s.sessions|], sessions := s.sessions + [Session(key, shell, Running)],
            home := s.home[shell := InSession(|s.sessions|)], callers := s.callers[c := Returned(key, |s.sessions|)])
  }

  function DoCloseLost(s: System, c: nat): System
    requires Enabled(s, CloseLost(c))
  {
    var Losing(key, shell, winner) := s.callers[c];
    s.(callers := s.callers[c := Returned(key, winner)], home := s.home[shell := ClosedByLoser],
       closes := s.closes[shell := s.closes[shell] + 1])
  }

  function DoCloseShell(s: System, i: nat): System
    requires Enabled(s, CloseShell(i))
  {
    var shell := s.sessions[i].shell;
    SetPhase(s, i, ShellClosed).(closes := s.closes[shell := s.closes[shell] + 1])
  }

  function DoUnregister(s: System, i: nat): System
    requires Enabled(s, Unregister(i))
  {
    SetPhase(s, i, Unregistered).(registered := Delete(s.registered, s.sessions[i].key, i))
  }

  function Apply(s: System, a: Action): System
    requires Enabled(s, a)
  {
    match a
    case Call(key) => DoCall(s, key)
    case OpenFails(c) => s.(callers := s.callers[c := Failed])
    case OpenSucceeds(c) => DoOpen(s, c)
    case CheckAgain(c) => DoCheckAgain(s, c)
    case CloseLost(c) => DoCloseLost(s, c)
    case BeginClose(i) => SetPhase(s, i, Closing)
    case CloseShell(i) => DoCloseShell(s, i)
    case Unregister(i) => DoUnregister(s, i)
    case MarkDone(i) => SetPhase(s, i, Done)
  }

  predicate IsRun(s: System, actions: seq<Action>)
    decreases |actions|
  {
    actions == [] || (Enabled(s, actions[0]) && IsRun(Apply(s, actions[0]), actions[1..]))
  }

  function Run(s: System, actions: seq<Action>): System
    requires IsRun(s, actions)
    decreases |actions|
  {
    if actions == [] then s else Run(Apply(s, actions[0]), actions[1..])
  }

  // ----- the invariant

  predicate Listed(phase: Phase)
  {
    phase == Running || phase == Closing || phase == ShellClosed
  }

  /** The registry lists exactly the sessions whose close has not reached their entry. */
  ghost predicate RegistryOk(s: System)
  {
    && (forall key :: key in s.registered ==>
          && s.registered[key] < |s.sessions| && s.sessions[s.registered[key]].key == key
          && Listed(s.sessions[s.registered[key]].phase))
    && (forall i :: 0 <= i < |s.sessions| && Listed(s.sessions[i].phase) ==>
          s.sessions[i].key in s.registered && s.registered[s.sessions[i].key] == i)
  }

  predicate Holds(caller: Caller, shell: nat)
  {
    (caller.Opened? || caller.Losing?) && caller.shell == shell
  }

  /** Every opened shell is in exactly one place. */
  ghost predicate ShellsOk(s: System)
  {
    && |s.closes| == |s.home|
    && (forall i :: 0 <= i < |s.sessions| ==>
          s.sessions[i].shell < |s.home| && s.home[s.sessions[i].shell] == InSession(i))
    && (forall c :: 0 <= c < |s.callers| && (s.callers[c].Opened? || s.callers[c].Losing?) ==>
          s.callers[c].shell < |s.home| && s.home[s.callers[c].shell] == WithCaller(c))
    && (forall x :: 0 <= x < |s.home| ==> HomeOk(s, x))
  }

  ghost predicate HomeOk(s: System, x: nat)
    requires x < |s.home| == |s.closes|
  {
    match s.home[x]
    case InSession(i) =>
      && i < |s.sessions| && s.sessions[i].shell == x
      && s.closes[x] == if s.sessions[i].phase == Running || s.sessions[i].phase == Closing then 0 else 1
    case WithCaller(c) => c < |s.callers| && Holds(s.callers[c], x) && s.closes[x] == 0
    case ClosedByLoser => s.closes[x] == 1
  }

  /** Callers wait for, and are given, sessions of the key they asked for. */
  ghost predicate CallersOk(s: System)
  {
    forall c :: 0 <= c < |s.callers| ==>
      && (s.callers[c].Losing? ==>
            s.callers[c].winner < |s.sessions| && s.sessions[s.callers[c].winner].key == s.callers[c].key)
      && (s.callers[c].Returned? ==>
            s.callers[c].session < |s.sessions| && s.sessions[s.callers[c].session].key == s.callers[c].key)
  }

  ghost predicate Inv(s: System)
  {
    RegistryOk(s) && ShellsOk(s) && CallersOk(s)
  }

  lemma RegistryStores(s: System, c: nat)
    requires RegistryOk(s) && Enabled(s, CheckAgain(c))
    ensures RegistryOk(DoCheckAgain(s, c))
  {
  }

  /** A session moves on while it stays listed, or after it was taken off. */
  lemma RegistryPhase(s: System, i: nat, phase: Phase)
    requires RegistryOk(s) && i < |s.sessions| && (Listed(s.sessions[i].phase) <==> Listed(phase))
    ensures RegistryOk(SetPhase(s, i, phase))
  {
  }

  lemma RegistryTakesOff(s: System, i: nat)
    requires RegistryOk(s) && Enabled(s, Unregister(i))
    ensures RegistryOk(DoUnregister(s, i))
  {
  }

  lemma RegistryStep(s: System, a: Action)
    requires RegistryOk(s) && Enabled(s, a)
    ensures RegistryOk(Apply(s, a))
  {
    match a
    case CheckAgain(c) => RegistryStores(s, c);
    case BeginClose(i) => RegistryPhase(s, i, Closing);
    case CloseShell(i) => RegistryPhase(s, i, ShellClosed);
    case Unregister(i) => RegistryTakesOff(s, i);
    case MarkDone(i) => RegistryPhase(s, i, Done);
    case _ =>
  }

  lemma ShellsCheckAgain(s: System, c: nat)
    requires ShellsOk(s) && Enabled(s, CheckAgain(c))
    ensures ShellsOk(DoCheckAgain(s, c))
  {
    var t := DoCheckAgain(s, c);
    forall x | 0 <= x < |t.home| ensures HomeOk(t, x) { assert HomeOk(s, x); }
  }

  lemma ShellsOpen(s: System, c: nat)
    requires ShellsOk(s) && Enabled(s, OpenSucceeds(c))
    ensures ShellsOk(DoOpen(s, c))
  {
    var t := DoOpen(s, c);
    forall x | 0 <= x < |t.home| ensures HomeOk(t, x) { if x < |s.home| { assert HomeOk(s, x); } }
  }

  lemma ShellsCloseLost(s: System, c: nat)
    requires ShellsOk(s) && Enabled(s, CloseLost(c))
    ensures ShellsOk(DoCloseLost(s, c))
  {
    var t := DoCloseLost(s, c);
    assert HomeOk(s, s.callers[c].shell);
    forall x | 0 <= x < |t.home| ensures HomeOk(t, x) { assert HomeOk(s, x); }
  }

  lemma ShellsCloseShell(s: System, i: nat)
    requires ShellsOk(s) && Enabled(s, CloseShell(i))
    ensures ShellsOk(DoCloseShell(s, i))
  {
    var t := DoCloseShell(s, i);
    forall x | 0 <= x < |t.home| ensures HomeOk(t, x) { assert HomeOk(s, x); }
  }

  lemma ShellsPhase(s: System, i: nat, phase: Phase, registered: map<string, nat>)
    requires ShellsOk(s) && i < |s.sessions|
    requires (s.sessions[i].phase == Running || s.sessions[i].phase == Closing) <==>
             (phase == Running || phase == Closing)
    ensures ShellsOk(SetPhase(s, i, phase).(registered := registered))
  {
    var t := SetPhase(s, i, phase).(registered := registered);
    forall x | 0 <= x < |t.home| ensures HomeOk(t, x) { assert HomeOk(s, x); }
  }

  lemma ShellsCallers(s: System, callers: seq<Caller>)
    requires ShellsOk(s) && |callers| >= |s.callers|
    requires forall c :: 0 <= c < |s.callers| && (s.callers[c].Opened? || s.callers[c].Losing?) ==>
               callers[c] == s.callers[c]
    requires forall c :: 0 <= c < |callers| && (callers[c].Opened? || callers[c].Losing?) ==>
               c < |s.callers| && callers[c] == s.callers[c]
    ensures ShellsOk(s.(callers := callers))
  {
    var t := s.(callers := callers);
    forall x | 0 <= x < |t.home| ensures HomeOk(t, x) { assert HomeOk(s, x); }
  }

  lemma ShellsStep(s: System, a: Action)
    requires ShellsOk(s) && Enabled(s, a)
    ensures ShellsOk(Apply(s, a))
  {
    match a
    case Call(key) => ShellsCallers(s, DoCall(s, key).callers);
    case OpenFails(c) => ShellsCallers(s, s.callers[c := Failed]);
    case OpenSucceeds(c) => ShellsOpen(s, c);
    case CheckAgain(c) => ShellsCheckAgain(s, c);
    case CloseLost(c) => ShellsCloseLost(s, c);
    case BeginClose(i) => ShellsPhase(s, i, Closing, s.registered);
    case CloseShell(i) => ShellsCloseShell(s, i);
    case Unregister(i) => ShellsPhase(s, i, Unregistered, DoUnregister(s, i).registered);
    case MarkDone(i) => ShellsPhase(s, i, Done, s.registered);
  }

  lemma CallersStep(s: System, a: Action)
    requires RegistryOk(s) && CallersOk(s) && Enabled(s, a)
    ensures CallersOk(Apply(s, a))
  {
  }

  lemma {:induction false} InvRun(s: System, actions: seq<Action>)
    requires Inv(s) && IsRun(s, actions)
    ensures Inv(Run(s, actions))
    decreases |actions|
  {
    if actions != [] {
      CallersStep(s, actions[0]);
      RegistryStep(s, actions[0]);
      ShellsStep(s, actions[0]);
      InvRun(Apply(s, actions[0]), actions[1..]);
    }
  }

  lemma InvReachable(actions: seq<Action>)
    requires IsRun(START, actions)
    ensures Inv(Run(START, actions))
  {
    InvRun(START, actions);
  }

  // ----- what every interleaving guarantees

  /** A registered session is never done; a session that has not begun closing is the registered one of
      its key, and so is the only one running under it. */
  lemma RegisteredSessions(actions: seq<Action>)
    requires IsRun(START, actions)
    ensures var s := Run(START, actions);
            && (forall key :: key in s.registered ==>
                  && s.registered[key] < |s.sessions| && s.sessions[s.registered[key]].key == key
                  && s.sessions[s.registered[key]].phase != Done)
            && (forall i :: 0 <= i < |s.sessions| && s.sessions[i].phase == Running ==>
                  s.sessions[i].key in s.registered && s.registered[s.sessions[i].key] == i)
            && (forall i, j :: 0 <= i < j < |s.sessions|
                               && Listed(s.sessions[i].phase) && Listed(s.sessions[j].phase)
                               ==> s.sessions[i].key != s.sessions[j].key)
  {
    InvReachable(actions);
  }

  /** `getOrCreate` answers with a session of the key it was asked for. */
  lemma CallersGetTheirKey(actions: seq<Action>, c: nat)
    requires IsRun(START, actions) && c < |Run(START, actions).callers| && Run(START, actions).callers[c].Returned?
    ensures var s := Run(START, actions);
            s.callers[c].session < |s.sessions| && s.sessions[s.callers[c].session].key == s.callers[c].key
  {
    InvReachable(actions);
  }

  /** A close, however late, removes its own session and nothing else: when it gets to the registry the
      entry of its key is still its own, so no successor can have taken the place. */
  lemma CloseRemovesOnlyItself(actions: seq<Action>, i: nat)
    requires IsRun(START, actions) && Enabled(Run(START, actions), Unregister(i))
    ensures var s := Run(START, actions);
            var key := s.sessions[i].key;
            && key in s.registered && s.registered[key] == i
            && DoUnregister(s, i).registered == s.registered - {key}
  {
    InvReachable(actions);
  }

  /** The second check never overwrites an entry: it stores a session only under a key that has none. */
  lemma StoringNeverOverwrites(actions: seq<Action>, c: nat)
    requires IsRun(START, actions) && Enabled(Run(START, actions), CheckAgain(c))
    ensures var s := Run(START, actions);
            var key := s.callers[c].key;
            HasActive(s, key) <==> key in s.registered
  {
    InvReachable(actions);
  }

  /** Every shell that was opened is owned by exactly one stored session, or still held by the caller
      that opened it, or was closed by the caller that lost; and no shell is closed twice. */
  lemma ShellsAreConserved(actions: seq<Action>, x: nat)
    requires IsRun(START, actions) && x < |Run(START, actions).home|
    ensures var s := Run(START, actions);
            && x < |s.closes| && s.closes[x] <= 1
            && (s.home[x].InSession? <==> exists i :: 0 <= i < |s.sessions| && s.sessions[i].shell == x)
            && (s.home[x].WithCaller? <==> exists c :: 0 <= c < |s.callers| && Holds(s.callers[c], x))
            && (s.home[x].ClosedByLoser? ==> s.closes[x] == 1)
            && (forall i, j :: 0 <= i < j < |s.sessions| ==> s.sessions[i].shell != s.sessions[j].shell)
  {
    InvReachable(actions);
    assert HomeOk(Run(START, actions), x);
  }

  /** When every caller is back, each opened shell belongs to a session or has been closed. */
  lemma NoShellLeaks(actions: seq<Action>, x: nat)
    requires IsRun(START, actions) && x < |Run(START, actions).home|
    requires forall c :: 0 <= c < |Run(START, actions).callers| ==>
               Run(START, actions).callers[c].Returned? || Run(START, actions).callers[c].Failed?
    ensures var s := Run(START, actions);
            x < |s.closes| && (s.closes[x] == 1 || exists i :: 0 <= i < |s.sessions| && s.sessions[i].shell == x)
  {
    InvReachable(actions);
    assert HomeOk(Run(START, actions), x);
  }
}

/**
  The registry and session objects themselves.
*/
module ShellSessions {
  import opened Text

  class ShellSession {
    const key: string
    var closing: bool         // closeOnce has fired
    var shellOpen: bool
    var done: bool
    var closedMessage: string

    constructor (key: string)
      ensures this.key == key && !closing && shellOpen && !done
    {
      this.key := key;
      closing, shellOpen, done, closedMessage := false, true, false, "";
    }
  }

  class Registry {
    var sessions: map<string, ShellSession>

    constructor ()
      ensures sessions == map[]
    {
      sessions := map[];
    }

    /** Both checks of `getOrCreate`: the stored session, unless it is done. */
    method Active(key: string) returns (session: ShellSession?)
      ensures session == if key in sessions && !sessions[key].done then sessions[key] else null
    {
      session := null;
      if key in sessions && !sessions[key].done {
        session := sessions[key];
      }
    }

    /** The second check and the store. The caller closes its shell when it gets someone else's session. */
    method StoreOrGet(key: string, session: ShellSession) returns (winner: ShellSession)
      modifies this
      ensures old(key in sessions && !sessions[key].done) ==> winner == old(sessions)[key] && sessions == old(sessions)
      ensures !old(key in sessions && !sessions[key].done) ==>
                winner == session && sessions == old(sessions)[key := session]
    {
      var existing := Active(key);
      if existing != null {
        return existing;
      }
      sessions := sessions[key := session];
      winner := session;
    }

    /** The identity-guarded delete. */
    method Delete(key: string, session: ShellSession)
      modifies this
      ensures sessions ==
              if key in old(sessions) && old(sessions)[key] == session then old(sessions) - {key} else old(sessions)
    {
      if key in sessions && sessions[key] == session {
        sessions := sessions - {key};
      }
    }

    /** `close`: the first call closes the shell, takes the session out of the registry and only then
        marks it done; later calls do nothing. */
    method Close(session: ShellSession, message: string)
      modifies this, session
      ensures old(session.closing) ==> sessions == old(sessions) && session.done == old(session.done)
                                       && session.shellOpen == old(session.shellOpen)
                                       && session.closedMessage == old(session.closedMessage)
      ensures !old(session.closing) ==>
                && session.done && !session.shellOpen
                && session.closedMessage ==
                   (if TrimSpace(message) != "" then TrimSpace(message) else "Terminal disconnected")
                && !(session.key in sessions && sessions[session.key] == session)
                && (forall key :: key != session.key ==> (key in sessions <==> key in old(sessions)))
                && (forall key :: key in sessions ==> key in old(sessions) && sessions[key] == old(sessions)[key])
      ensures session.closing
    {
      if session.closing {
        return;
      }
      session.closing := true;
      var closedMessage := TrimSpace(message);
      if closedMessage == "" {
        closedMessage := "Terminal disconnected";
      }
      session.shellOpen := false;
      Delete(session.key, session);
      session.done := true;
      session.closedMessage := closedMessage;
    }
  }
}
