/**
  Waiting callers of the refresh engine: nobody is left waiting for a notification
  that never comes, and every call finishes once the refreshes do.
 */
module RefreshLiveness {
  import opened Prelude
  import opened AuthErrors
  import opened Tokens
  import opened RefreshState
  import opened RefreshProtocol
  import opened RefreshSafety

  // ----- no lost wake-up -----

  /** A task that has yet to notify the list. */
  predicate WillNotify(p: TaskPhase) {
    IsNonBlocking(p) || p.NbNotify? || p.Unwinding?
  }

  ghost predicate SomeNonBlocking(s: Sys) {
    exists t :: 0 <= t < |s.tasks| && IsNonBlocking(s.tasks[t].phase)
  }

  ghost predicate SomeWillNotify(s: Sys) {
    exists t :: 0 <= t < |s.tasks| && WillNotify(s.tasks[t].phase)
  }

  /**
    A teardown that leaves no trace behind: of a task that was polled, so that its guard
    exists; and, where another refresh can start, not between a caller's look at the flag
    and its registration. A device session has lost its credential with the task, and
    starts no other.
   */
  predicate IsClean(s: Sys, l: Label) {
    l.Teardown? && l.t < |s.tasks| ==>
      !s.tasks[l.t].phase.Spawned? && !(s.kind.SelfAuthenticating? && s.lock.ByCall?)
  }

  ghost predicate CleanRun(s0: Sys, ls: seq<Label>) {
    && Run(s0, ls).Some?
    && forall i :: 0 <= i < |ls| ==> Run(s0, ls[..i]).Some? && IsClean(Run(s0, ls[..i]).value, ls[i])
  }

  /** Whoever waits, or is about to, has a task that will notify. */
  ghost predicate Covered(s: Sys) {
    && (s.flag && !s.lock.ByTask? ==> SomeNonBlocking(s))
    && (s.lock.ByCall? ==> SomeNonBlocking(s))
    && (s.listed != {} ==> SomeWillNotify(s))
    && (forall t :: 0 <= t < |s.tasks| && s.tasks[t].phase.Unwinding? && s.tasks[t].phase.holdsLock ==> !s.flag)
  }

  lemma CallStepKeepsCovered(s: Sys, l: Label)
    requires Inv(s) && Covered(s) && !IsTaskLabel(l) && Step(s, l).Some?
    ensures Covered(Step(s, l).value)
  {
    var s' := Step(s, l).value;
    CallShape(s, l);
    forall t | 0 <= t < |s.tasks| ensures s'.tasks[t] == s.tasks[t] {
      if s'.tasks != s.tasks { assert s'.tasks[..|s.tasks|][t] == s.tasks[t]; }
    }
    assert SomeNonBlocking(s) ==> SomeNonBlocking(s');
    assert SomeWillNotify(s) ==> SomeWillNotify(s');
    assert s.lock.ByCall? && SomeNonBlocking(s) ==> SomeWillNotify(s);
    if l.EnterFirst? || l.EnterAgain? {
      HoldWaitsOnlyWithFlag(s, l);
    }
  }

  lemma HoldWaitsOnlyWithFlag(s: Sys, l: Label)
    requires (l.EnterFirst? || l.EnterAgain?) && Step(s, l).Some?
    ensures var s' := Step(s, l).value;
            && (s'.lock.ByCall? ==> s.flag && !s.lock.ByTask?)
            && (s'.flag && !s'.lock.ByTask? ==> s.flag && !s.lock.ByTask?)
            && s'.listed == s.listed
  {
  }

  lemma TaskStepKeepsCovered(s: Sys, l: Label)
    requires Inv(s) && Covered(s) && IsTaskLabel(l) && IsClean(s, l) && Step(s, l).Some?
    requires l.Teardown? ==> !s.lock.ByCall?
    ensures Covered(Step(s, l).value)
  {
    var s' := Step(s, l).value;
    TaskShape(s, l);
    TaskLights(s, l);
    var t := l.t;
    if SomeNonBlocking(s) {
      var u :| 0 <= u < |s.tasks| && IsNonBlocking(s.tasks[u].phase);
      assert u == t || IsNonBlocking(s'.tasks[u].phase);
    }
    if SomeWillNotify(s) && s'.listed != {} {
      var u :| 0 <= u < |s.tasks| && WillNotify(s.tasks[u].phase);
      assert WillNotify(s'.tasks[u].phase);
    }
    assert IsNonBlocking(s'.tasks[t].phase) ==> SomeNonBlocking(s');
  }

  /** What a task's step does to the flag, the lock and the list. */
  lemma TaskLights(s: Sys, l: Label)
    requires IsTaskLabel(l) && Step(s, l).Some?
    ensures var s' := Step(s, l).value;
            var p, p' := s.tasks[l.t].phase, s'.tasks[l.t].phase;
            && (WillNotify(p) ==> WillNotify(p') || s'.listed == {})
            && (IsNonBlocking(p) && !IsNonBlocking(p') ==> !s'.flag && (l.Teardown? || s.lock.Free?))
            && (HoldsLock(p) && !HoldsLock(p') && !IsNonBlocking(p') && !p.Unwinding? && !(p.Spawned? && l.Teardown?) ==> !s'.flag)
            && (s'.flag ==> s.flag)
            && (s'.lock == s.lock || (s'.lock.Free? && HoldsLock(p)) || (s'.lock.Free? && IsNonBlocking(p')))
            && (p'.Unwinding? ==> !s'.flag)
  {
  }

  ghost predicate NoneInFlight(s: Sys) {
    forall t :: 0 <= t < |s.tasks| ==> !InFlight(s.tasks[t].phase)
  }

  ghost predicate ParkedAreServed(s: Sys) {
    forall c :: c in s.listed && c < |s.calls| && s.calls[c].Parked? ==> SomeWillNotify(s)
  }

  /** A device session whose credential is gone: no refresh is in flight, and none can start again. */
  ghost predicate IsBarren(s: Sys) {
    && s.kind.DeviceSession? && s.st.token.Some? && s.st.token.value.refresh.None?
    && !s.flag && NoneInFlight(s) && ParkedAreServed(s)
  }

  lemma BarrenHoldsAnswer(s: Sys, l: Label)
    requires IsBarren(s) && (l.EnterFirst? || l.EnterAgain?) && Step(s, l).Some?
    ensures var s' := Step(s, l).value;
            s'.calls[l.c].Finished? && s' == s.(st := s'.st, calls := s'.calls) && s'.st.token == s.st.token
  {
  }

  lemma CallStepKeepsBarren(s: Sys, l: Label)
    requires IsBarren(s) && !IsTaskLabel(l) && Step(s, l).Some?
    ensures IsBarren(Step(s, l).value)
  {
    CallShape(s, l);
    if l.EnterFirst? || l.EnterAgain? { BarrenHoldsAnswer(s, l); }
  }

  lemma TaskStepKeepsBarren(s: Sys, l: Label)
    requires IsBarren(s) && IsTaskLabel(l) && Step(s, l).Some?
    ensures IsBarren(Step(s, l).value)
  {
    TaskShape(s, l);
    TaskLights(s, l);
    assert !InFlight(s.tasks[l.t].phase);
    assert Step(s, l).value.listed == {};
  }

  /** Teardown of a polled device-session refresh, under whoever holds the lock. */
  lemma TeardownBarrens(s: Sys, t: nat)
    requires Inv(s) && DrainedInFlight(s) && Step(s, Teardown(t)).Some? && !s.tasks[t].phase.Spawned?
    ensures IsBarren(Step(s, Teardown(t)).value)
  {
    var s' := Step(s, Teardown(t)).value;
    assert s'.tasks[t].phase.Unwinding?;
    assert forall u :: 0 <= u < |s.tasks| && u != t ==> s'.tasks[u] == s.tasks[u] && !InFlight(s.tasks[u].phase);
  }

  /** Every waiting caller is looked after: some task will notify it, or nothing can start to make it wait. */
  ghost predicate IsAttended(s: Sys) { Covered(s) || IsBarren(s) }

  ghost predicate IsSound(s: Sys) { Inv(s) && (s.kind.DeviceSession? ==> DrainedInFlight(s)) }

  lemma StepKeepsAttended(s: Sys, l: Label)
    requires IsSound(s) && IsAttended(s) && IsClean(s, l) && Step(s, l).Some?
    ensures IsAttended(Step(s, l).value)
  {
    if IsBarren(s) {
      if IsTaskLabel(l) { TaskStepKeepsBarren(s, l); } else { CallStepKeepsBarren(s, l); }
    } else if !IsTaskLabel(l) {
      CallStepKeepsCovered(s, l);
    } else if l.Teardown? && s.lock.ByCall? {
      TeardownBarrens(s, l.t);
    } else {
      TaskStepKeepsCovered(s, l);
    }
  }

  lemma RunIsSound(kind: Refresher, token: Option<Token>, ls: seq<Label>)
    requires Run(Initial(kind, token), ls).Some?
    ensures IsSound(Run(Initial(kind, token), ls).value) && Run(Initial(kind, token), ls).value.kind == kind
  {
    RunKeepsInv(kind, token, ls);
    RunKeepsKind(Initial(kind, token), ls);
    if kind.DeviceSession? { CredentialsAreConserved(token, ls, ""); }
  }

  lemma {:induction false} RunKeepsKind(s0: Sys, ls: seq<Label>)
    requires Run(s0, ls).Some?
    ensures Run(s0, ls).value.kind == s0.kind
  {
    if ls != [] {
      RunKeepsKind(s0, ls[..|ls| - 1]);
      var s, l := Run(s0, ls[..|ls| - 1]).value, ls[|ls| - 1];
      if IsTaskLabel(l) { TaskShape(s, l); } else { CallShape(s, l); }
    }
  }

  /**
    No lost wake-up: in every run whose teardowns are clean, every parked caller that is
    not notified has a task that has yet to notify, also when another refresh starts
    between a task's unlock and its notification.
   */
  lemma {:induction false} NoLostWakeup(kind: Refresher, token: Option<Token>, ls: seq<Label>)
    requires CleanRun(Initial(kind, token), ls)
    ensures var s := Run(Initial(kind, token), ls).value; IsSound(s) && IsAttended(s) && ParkedAreServed(s)
  {
    RunIsSound(kind, token, ls);
    if ls != [] {
      var s0, before := Initial(kind, token), ls[..|ls| - 1];
      assert forall i :: 0 <= i <= |before| ==> before[..i] == ls[..i];
      NoLostWakeup(kind, token, before);
      StepKeepsAttended(Run(s0, before).value, ls[|ls| - 1]);
    }
  }

  // ----- every call finishes -----

  /** The engine's own steps; the rest are new calls, cancellations and teardowns. */
  predicate IsEngineLabel(l: Label) {
    !l.Begin? && !l.Cancel? && !l.Teardown?
  }

  function CallWork(p: CallPhase): (n: nat) {
    match p
    case WantLock => 14
    case ReadingStore => 13
    case HasLoaded(_) => 12
    case SawFlag => 6
    case Registered => 5
    case Parked => 4
    case Woken => 3
    case WokenAt(_) => 2
    case AwaitingTask(_) => 1
    case _ => 0
  }

  function TaskWork(p: TaskPhase): (n: nat) {
    match p
    case Spawned(_) => 6
    case NbExchange(_, _, _) => 5
    case BExchange(_) => 5
    case NbSave(_) => 4
    case BSave(_) => 4
    case NbInstall(_) => 3
    case NbFail(_, _, _, _) => 3
    case NbNotify(_) => 2
    case Unwinding(_) => 1
    case Ended(_) => 0
  }

  function CallsWork(calls: seq<CallPhase>): (n: nat) {
    if calls == [] then 0 else CallsWork(calls[..|calls| - 1]) + CallWork(calls[|calls| - 1])
  }

  function TasksWork(tasks: seq<Task>): (n: nat) {
    if tasks == [] then 0 else TasksWork(tasks[..|tasks| - 1]) + TaskWork(tasks[|tasks| - 1].phase)
  }

  function Work(s: Sys): (n: nat) { CallsWork(s.calls) + TasksWork(s.tasks) }

  lemma {:induction false} CallsWorkUpdate(calls: seq<CallPhase>, c: nat, p: CallPhase)
    requires c < |calls|
    ensures CallsWork(calls[c := p]) == CallsWork(calls) - CallWork(calls[c]) + CallWork(p)
  {
    var last := |calls| - 1;
    if c == last {
      assert calls[c := p][..last] == calls[..last];
    } else {
      assert calls[c := p][..last] == calls[..last][c := p];
      CallsWorkUpdate(calls[..last], c, p);
    }
  }

  lemma {:induction false} TasksWorkUpdate(tasks: seq<Task>, t: nat, task: Task)
    requires t < |tasks|
    ensures TasksWork(tasks[t := task]) == TasksWork(tasks) - TaskWork(tasks[t].phase) + TaskWork(task.phase)
  {
    var last := |tasks| - 1;
    if t == last {
      assert tasks[t := task][..last] == tasks[..last];
    } else {
      assert tasks[t := task][..last] == tasks[..last][t := task];
      TasksWorkUpdate(tasks[..last], t, task);
    }
  }

  lemma CallWorkDrops(s: Sys, l: Label)
    requires !IsTaskLabel(l) && IsEngineLabel(l) && Step(s, l).Some?
    ensures var s' := Step(s, l).value;
            if |s'.tasks| == |s.tasks| then CallWork(s'.calls[l.c]) < CallWork(s.calls[l.c])
            else CallWork(s'.calls[l.c]) + 6 < CallWork(s.calls[l.c])
  {
  }

  lemma TaskWorkDrops(s: Sys, l: Label)
    requires IsTaskLabel(l) && IsEngineLabel(l) && Step(s, l).Some?
    ensures TaskWork(Step(s, l).value.tasks[l.t].phase) < TaskWork(s.tasks[l.t].phase)
  {
  }

  /** Each step of the engine uses up work. */
  lemma WorkDrops(s: Sys, l: Label)
    requires IsEngineLabel(l) && Step(s, l).Some?
    ensures Work(Step(s, l).value) < Work(s)
  {
    var s' := Step(s, l).value;
    if IsTaskLabel(l) {
      TaskShape(s, l);
      TaskWorkDrops(s, l);
      TasksWorkUpdate(s.tasks, l.t, s'.tasks[l.t]);
    } else {
      CallShape(s, l);
      CallWorkDrops(s, l);
      CallsWorkUpdate(s.calls, l.c, s'.calls[l.c]);
    }
  }

  predicate IsDone(p: CallPhase) { p.Finished? || p.Cancelled? }

  /** The next step of a task that is not blocked on the lock. */
  function NextOfTask(t: nat, p: TaskPhase): (l: Label)
    requires !p.Ended?
  {
    match p
    case Spawned(_) => Poll(t, 0)
    case NbExchange(_, _, _) => ExchangeErr(t, AccessDenied, 0)
    case BExchange(_) => ExchangeErr(t, AccessDenied, 0)
    case NbSave(_) => Saved(t)
    case BSave(_) => Saved(t)
    case NbInstall(_) => InstallNew(t)
    case NbFail(_, _, _, _) => FailHold(t, 0, 0)
    case NbNotify(_) => NotifyAll(t)
    case Unwinding(_) => Unwind(t)
  }

  lemma TaskCanStep(s: Sys, t: nat)
    requires t < |s.tasks| && !s.tasks[t].phase.Ended? && (s.lock.Free? || HoldsLock(s.tasks[t].phase))
    ensures IsEngineLabel(NextOfTask(t, s.tasks[t].phase)) && Step(s, NextOfTask(t, s.tasks[t].phase)).Some?
  {
  }

  /** Until every call is done, some step of the engine is enabled: there is no deadlock. */
  lemma EngineCanStep(s: Sys, c: nat) returns (l: Label)
    requires Inv(s) && IsAttended(s) && c < |s.calls| && !IsDone(s.calls[c])
    ensures IsEngineLabel(l) && Step(s, l).Some?
  {
    if s.lock.ByTask? {
      TaskCanStep(s, s.lock.t);
      return NextOfTask(s.lock.t, s.tasks[s.lock.t].phase);
    }
    if s.lock.ByCall? {
      return Register(s.lock.c);
    }
    match s.calls[c]
    case WantLock => return EnterFirst(c, 0);
    case ReadingStore => return StoreRead(c, None);
    case HasLoaded(_) => return EnterAgain(c, 0);
    case Registered => return Recheck(c);
    case Parked =>
      if c !in s.listed {
        return Wake(c);
      }
      var t :| 0 <= t < |s.tasks| && WillNotify(s.tasks[t].phase);
      TaskCanStep(s, t);
      return NextOfTask(t, s.tasks[t].phase);
    case Woken => return ReadClock(c, 0);
    case WokenAt(_) => return AnswerWoken(c);
    case AwaitingTask(t) =>
      if s.tasks[t].phase.Ended? {
        return Collect(c);
      }
      TaskCanStep(s, t);
      return NextOfTask(t, s.tasks[t].phase);
  }

  /** A run that goes on with the engine's own steps only. */
  ghost predicate GoesOn(s: Sys, ls: seq<Label>) {
    Run(s, ls).Some? && forall i :: 0 <= i < |ls| ==> IsEngineLabel(ls[i])
  }

  lemma {:induction false} GoingOnUsesWork(s: Sys, ls: seq<Label>)
    requires GoesOn(s, ls)
    ensures |ls| + Work(Run(s, ls).value) <= Work(s)
  {
    if ls != [] {
      var before := ls[..|ls| - 1];
      assert GoesOn(s, before);
      GoingOnUsesWork(s, before);
      WorkDrops(Run(s, before).value, ls[|ls| - 1]);
    }
  }

  /** Steps of any kind but teardowns. */
  ghost predicate IsUntorn(s: Sys, ls: seq<Label>) {
    Run(s, ls).Some? && forall i :: 0 <= i < |ls| ==> !ls[i].Teardown?
  }

  lemma StepKeepsSound(s: Sys, l: Label)
    requires IsSound(s) && Step(s, l).Some?
    ensures IsSound(Step(s, l).value)
  {
    if IsTaskLabel(l) {
      TaskStepKeepsInv(s, l);
      TaskShape(s, l);
      if s.kind.DeviceSession? { TaskStepKeepsBooks(s, l, ""); }
    } else {
      CallStepKeepsInv(s, l);
      CallShape(s, l);
      if s.kind.DeviceSession? { CallStepKeepsBooks(s, l, ""); }
    }
  }

  lemma {:induction false} UntornStaysAttended(s: Sys, ls: seq<Label>)
    requires IsSound(s) && IsAttended(s) && IsUntorn(s, ls)
    ensures IsSound(Run(s, ls).value) && IsAttended(Run(s, ls).value)
  {
    if ls != [] {
      var before, l := ls[..|ls| - 1], ls[|ls| - 1];
      assert IsUntorn(s, before);
      UntornStaysAttended(s, before);
      StepKeepsSound(Run(s, before).value, l);
      StepKeepsAttended(Run(s, before).value, l);
    }
  }

  /**
    Every call finishes: after any clean run, however the engine goes on, it takes a
    bounded number of steps, and where it can go no further every call has finished
    or was cancelled.
   */
  lemma EveryCallFinishes(kind: Refresher, token: Option<Token>, ls: seq<Label>, more: seq<Label>)
    requires CleanRun(Initial(kind, token), ls)
    requires GoesOn(Run(Initial(kind, token), ls).value, more)
    ensures var s := Run(Initial(kind, token), ls).value;
            && |more| <= Work(s)
            && ((forall l :: IsEngineLabel(l) ==> Step(Run(s, more).value, l).None?) ==>
                  forall c :: 0 <= c < |Run(s, more).value.calls| ==> IsDone(Run(s, more).value.calls[c]))
  {
    var s := Run(Initial(kind, token), ls).value;
    NoLostWakeup(kind, token, ls);
    GoingOnUsesWork(s, more);
    UntornStaysAttended(s, more);
    var end := Run(s, more).value;
    forall c | 0 <= c < |end.calls| && !IsDone(end.calls[c])
      ensures exists l :: IsEngineLabel(l) && Step(end, l).Some?
    {
      var l := EngineCanStep(end, c);
    }
  }

  // ----- exactly the clean teardowns strand nobody -----

  /** A caller waits for a notification though no refresh is left to give it. */
  ghost predicate IsStranded(s: Sys) {
    AllEnded(s) && exists c :: 0 <= c < |s.calls| && c in s.listed && s.calls[c].Parked?
  }

  ghost predicate AllEnded(s: Sys) {
    forall t :: 0 <= t < |s.tasks| ==> s.tasks[t].phase.Ended?
  }

  ghost predicate IsClosed(states: iset<Sys>) {
    forall s, l: Label :: s in states && !l.Teardown? && Step(s, l).Some? ==> Step(s, l).value in states
  }

  /** `s` belongs to everything that holds `s0` and is closed under steps other than teardowns. */
  ghost predicate LeadsTo(s0: Sys, s: Sys) {
    forall states: iset<Sys> :: s0 in states && IsClosed(states) ==> s in states
  }

  lemma LeadsOn(s0: Sys, s: Sys, l: Label) returns (s': Sys)
    requires LeadsTo(s0, s) && !l.Teardown? && Step(s, l).Some?
    ensures s' == Step(s, l).value && LeadsTo(s0, s')
  {
    s' := Step(s, l).value;
  }

  /** Being led to is being the end of a run without teardowns. */
  lemma LeadsByRun(s0: Sys, s: Sys)
    requires LeadsTo(s0, s)
    ensures exists ls :: IsUntorn(s0, ls) && Run(s0, ls).value == s
  {
    var states := iset e, ls | IsUntorn(s0, ls) && Run(s0, ls) == Some(e) :: e;
    assert IsUntorn(s0, []) && Run(s0, []) == Some(s0);
    forall e, l: Label | e in states && !l.Teardown? && Step(e, l).Some? ensures Step(e, l).value in states {
      var ls :| IsUntorn(s0, ls) && Run(s0, ls) == Some(e);
      assert (ls + [l])[..|ls|] == ls;
      assert IsUntorn(s0, ls + [l]) && Run(s0, ls + [l]) == Some(Step(e, l).value);
    }
    assert IsClosed(states);
    assert s in states;
  }

  predicate IsEnding(p: TaskPhase) { p.Ended? || p.NbNotify? || (p.Unwinding? && !p.holdsLock) }

  /** Tasks that have recorded their outcome end without the lock, and change nothing but the list. */
  lemma {:induction false} AllEnd(s0: Sys, s: Sys) returns (e: Sys)
    requires LeadsTo(s0, s) && forall t :: 0 <= t < |s.tasks| ==> IsEnding(s.tasks[t].phase)
    ensures LeadsTo(s0, e) && AllEnded(e) && |e.tasks| == |s.tasks|
    ensures e == s.(tasks := e.tasks, listed := e.listed) && e.listed <= s.listed
    decreases TasksWork(s.tasks)
  {
    e := s;
    if !AllEnded(s) {
      var t :| 0 <= t < |s.tasks| && !s.tasks[t].phase.Ended?;
      var l := NextOfTask(t, s.tasks[t].phase);
      var s' := LeadsOn(s0, s, l);
      TaskShape(s, l);
      TaskWorkDrops(s, l);
      TasksWorkUpdate(s.tasks, t, s'.tasks[t]);
      e := AllEnd(s0, s');
    }
  }

  /** Whenever a refresh is in flight no refusal is remembered: the hold that started it saw to that. */
  ghost predicate IsQuiet(s: Sys) { NoneInFlight(s) || s.st.denial.None? }

  lemma StepKeepsQuiet(s: Sys, l: Label)
    requires Inv(s) && IsQuiet(s) && Step(s, l).Some?
    ensures IsQuiet(Step(s, l).value)
  {
    if IsTaskLabel(l) {
      TaskShape(s, l);
    } else {
      CallShape(s, l);
      if l.EnterFirst? || l.EnterAgain? { HoldKeepsNoRefusal(s, l); }
    }
  }

  lemma HoldKeepsNoRefusal(s: Sys, l: Label)
    requires (l.EnterFirst? || l.EnterAgain?) && Step(s, l).Some?
    ensures var s' := Step(s, l).value;
            (s.st.denial.None? ==> s'.st.denial.None?) && (|s'.tasks| > |s.tasks| ==> s'.st.denial.None?)
  {
  }

  lemma {:induction false} RunIsQuiet(kind: Refresher, token: Option<Token>, ls: seq<Label>)
    requires Run(Initial(kind, token), ls).Some?
    ensures IsQuiet(Run(Initial(kind, token), ls).value)
  {
    if ls != [] {
      RunIsQuiet(kind, token, ls[..|ls| - 1]);
      RunKeepsInv(kind, token, ls[..|ls| - 1]);
      StepKeepsQuiet(Run(Initial(kind, token), ls[..|ls| - 1]).value, ls[|ls| - 1]);
    }
  }

  const LAPSED := Token("", 0, None, None)

  /** With the flag left up, a new call that finds a lapsed token cached, or loads one, parks for good. */
  lemma NextCallParks(s0: Sys, s: Sys) returns (e: Sys)
    requires LeadsTo(s0, s) && s.flag && s.lock.Free? && s.st.denial.None? && AllEnded(s)
    ensures LeadsTo(s0, e) && Wedged(e) && |e.calls| == |s.calls| + 1 && |s.calls| in e.listed && e.calls[|s.calls|].Parked?
  {
    var c := |s.calls|;
    e := LeadsOn(s0, s, Begin);
    if s.st.token.Some? {
      e := LeadsOn(s0, e, EnterFirst(c, U64_MAX));
    } else {
      e := LeadsOn(s0, e, EnterFirst(c, U64_MAX));
      e := LeadsOn(s0, e, StoreRead(c, Some(LAPSED)));
      e := LeadsOn(s0, e, EnterAgain(c, U64_MAX));
    }
    e := LeadsOn(s0, e, Register(c));
    e := LeadsOn(s0, e, Recheck(c));
  }

  /** Teardown of a task that was never polled leaves the flag up: the engine can come to wedge, with a caller parked in it. */
  lemma UnpolledTeardownWedges(s: Sys, t: nat) returns (e: Sys)
    requires Inv(s) && IsQuiet(s) && Step(s, Teardown(t)).Some? && s.tasks[t].phase.Spawned?
    ensures LeadsTo(Step(s, Teardown(t)).value, e) && Wedged(e) && IsStranded(e)
  {
    var s' := Step(s, Teardown(t)).value;
    forall u | 0 <= u < |s.tasks| ensures IsEnding(s'.tasks[u].phase) {
      if u != t { assert !InFlight(s.tasks[u].phase) && !HoldsLock(s.tasks[u].phase); }
    }
    e := AllEnd(s', s');
    e := NextCallParks(s', e);
  }

  /**
    Teardown between a caller's look at the flag and its registration: a blocking refresh
    can start before the caller rechecks, and it ends without notifying.
   */
  lemma TeardownBeforeRegistrationStrands(s: Sys, t: nat) returns (e: Sys)
    requires Inv(s) && IsQuiet(s) && Step(s, Teardown(t)).Some? && !s.tasks[t].phase.Spawned?
    requires s.kind.SelfAuthenticating? && s.lock.ByCall?
    ensures LeadsTo(Step(s, Teardown(t)).value, e) && IsStranded(e)
  {
    var s', c := Step(s, Teardown(t)).value, s.lock.c;
    assert IsNonBlocking(s.tasks[t].phase);
    forall u | 0 <= u < |s.tasks| ensures IsEnding(s'.tasks[u].phase) {
      if u != t { assert !InFlight(s.tasks[u].phase) && !HoldsLock(s.tasks[u].phase); }
    }
    e := AllEnd(s', s');
    e := LeadsOn(s', e, Register(c));
    e := BlockingRefreshPasses(s', e, c);
  }

  lemma BlockingRefreshPasses(s0: Sys, s: Sys, c: nat) returns (e: Sys)
    requires LeadsTo(s0, s) && AllEnded(s) && s.kind.SelfAuthenticating? && !s.flag && s.lock.Free?
    requires s.st.denial.None? && s.st.token.Some? && c < |s.calls| && s.calls[c].Registered? && c in s.listed
    ensures LeadsTo(s0, e) && IsStranded(e)
  {
    var d, u := |s.calls|, |s.tasks|;
    e := LeadsOn(s0, s, Begin);
    e := LeadsOn(s0, e, EnterFirst(d, U64_MAX));
    e := LeadsOn(s0, e, Recheck(c));
    e := LeadsOn(s0, e, Poll(u, U64_MAX));
    e := LeadsOn(s0, e, ExchangeErr(u, AccessDenied, 0));
    assert forall v :: 0 <= v < u ==> e.tasks[v] == s.tasks[v];
  }

  /**
    The exact condition: after any run of clean teardowns, one more teardown can strand a
    caller, however the engine goes on without another, exactly when it is not clean.
   */
  lemma TeardownStrandsIffUnclean(kind: Refresher, token: Option<Token>, ls: seq<Label>, t: nat)
    requires CleanRun(Initial(kind, token), ls) && Step(Run(Initial(kind, token), ls).value, Teardown(t)).Some?
    ensures var s := Run(Initial(kind, token), ls).value;
            var s' := Step(s, Teardown(t)).value;
            (exists more :: IsUntorn(s', more) && IsStranded(Run(s', more).value)) <==> !IsClean(s, Teardown(t))
  {
    var s := Run(Initial(kind, token), ls).value;
    var s' := Step(s, Teardown(t)).value;
    NoLostWakeup(kind, token, ls);
    if IsClean(s, Teardown(t)) {
      StepKeepsSound(s, Teardown(t));
      StepKeepsAttended(s, Teardown(t));
      forall more | IsUntorn(s', more) ensures !IsStranded(Run(s', more).value) {
        UntornStaysAttended(s', more);
        AttendedIsNotStranded(Run(s', more).value);
      }
    } else {
      RunIsQuiet(kind, token, ls);
      var e: Sys;
      if s.tasks[t].phase.Spawned? {
        e := UnpolledTeardownWedges(s, t);
      } else {
        e := TeardownBeforeRegistrationStrands(s, t);
      }
      LeadsByRun(s', e);
    }
  }

  lemma AttendedIsNotStranded(s: Sys)
    requires IsAttended(s)
    ensures !IsStranded(s)
  {
  }

  /** The flag is up, a token is cached, and no task is left that could notify or clear it. */
  ghost predicate Wedged(s: Sys) {
    && s.flag && s.st.token.Some? && !s.lock.ByTask?
    && forall t :: 0 <= t < |s.tasks| ==> s.tasks[t].phase.Ended?
  }

  /** From a wedged engine no refresh ever starts again, and a parked caller stays parked until it gives up. */
  lemma WedgedForever(s: Sys, l: Label, c: nat)
    requires Wedged(s) && Step(s, l).Some? && c in s.listed && c < |s.calls| && s.calls[c].Parked?
    ensures var s' := Step(s, l).value;
            Wedged(s') && (l == Cancel(c) || (c in s'.listed && s'.calls[c].Parked?))
  {
  }
}
