/**
  The concurrent refresh engine as a step system: any number of `get_token`
  calls, the refresh tasks they spawn, the state lock, the in-progress flag and
  the notify list. One label is one atomic access, lock hold, notification or
  completed await. Clock readings are arguments of the labels, so the clock may
  stand still, jump ahead or run backwards.
 */
module RefreshProtocol {
  import opened Prelude
  import opened AuthErrors
  import opened Tokens
  import opened RefreshState

  datatype CallPhase =
    | WantLock                       // queued for the first lock hold
    | ReadingStore                   // unlocked, reading the external store
    | HasLoaded(loaded: Option<Token>) // queued for the lock again
    | SawFlag                        // lock held; saw a refresh in progress, not yet on the list
    | Registered                     // on the list, unlocked, flag not rechecked yet
    | Parked                         // waiting for a notification
    | Woken                          // about to read the clock
    | WokenAt(now: U64)              // queued for the lock with that reading
    | AwaitingTask(task: nat)        // joined on the refresh task it spawned
    | Finished(answer: Answer)
    | Cancelled

  datatype TaskPhase =
    | Spawned(credential: Credential)                       // owns the lock, not polled yet
    | NbExchange(credential: Credential, access: string, expiresAt: U64)
    | NbSave(newToken: Token)
    | NbInstall(newToken: Token)                            // queued for the lock
    | NbFail(credential: Credential, access: string, expiresAt: U64, err: AuthError) // queued for the lock
    | NbNotify(answer: Answer)                              // outcome recorded, waiters not notified yet
    | BExchange(credential: Credential)                     // lock held throughout
    | BSave(newToken: Token)
    | Unwinding(holdsLock: bool)                            // torn down: flag cleared, not notified yet
    | Ended(answer: Answer)

  datatype Task = Task(initiator: nat, phase: TaskPhase)

  datatype Holder = Free | ByCall(c: nat) | ByTask(t: nat)

  datatype Sys = Sys(
    kind: Refresher,
    st: State,
    flag: bool,
    lock: Holder,
    calls: seq<CallPhase>,
    tasks: seq<Task>,
    listed: set<nat>)     // calls registered and not notified

  datatype Label =
    | Begin
    | EnterFirst(c: nat, now: U64)
    | StoreRead(c: nat, loaded: Option<Token>)
    | EnterAgain(c: nat, now: U64)
    | Register(c: nat)
    | Recheck(c: nat)
    | Wake(c: nat)
    | ReadClock(c: nat, now: U64)
    | AnswerWoken(c: nat)
    | Collect(c: nat)
    | Cancel(c: nat)
    | Poll(t: nat, now: U64)
    | ExchangeOk(t: nat, newToken: Token)
    | ExchangeErr(t: nat, err: AuthError, now: U64)
    | Saved(t: nat)
    | InstallNew(t: nat)
    | FailHold(t: nat, now: U64, later: U64)
    | NotifyAll(t: nat)
    | Teardown(t: nat)
    | Unwind(t: nat)

  function Initial(kind: Refresher, token: Option<Token>): (s: Sys) {
    Sys(kind, State(token, None, None), false, Free, [], [], {})
  }

  /** What the joined caller of a task that was torn down gets. */
  const TASK_LOST: Answer := Err(Auth(Internal("token refresh task terminated before completion")))

  // ----- steps of a call -----

  function CallTo(s: Sys, c: nat, p: CallPhase): (r: Sys)
    requires c < |s.calls|
  {
    s.(calls := s.calls[c := p])
  }

  /** Carry out a lock hold's verdict; an exchange hands the lock to a new task. */
  function Conclude(s: Sys, c: nat, r: (State, Verdict)): (s': Sys)
    requires c < |s.calls|
  {
    var s1 := s.(st := r.0);
    match r.1
    case Answer(answer) => CallTo(s1, c, Finished(answer))
    case ReadStore => CallTo(s1, c, ReadingStore)
    case AwaitInFlight => CallTo(s1, c, SawFlag).(lock := ByCall(c))
    case Exchange(credential) =>
      CallTo(s1, c, AwaitingTask(|s.tasks|))
        .(flag := true, lock := ByTask(|s.tasks|), tasks := s.tasks + [Task(c, Spawned(credential))])
  }

  predicate IsAwaitPoint(p: CallPhase) {
    p.WantLock? || p.ReadingStore? || p.HasLoaded? || p.Parked? || p.WokenAt? || p.AwaitingTask?
  }

  function CallStep(s: Sys, l: Label): (r: Option<Sys>)
  {
    match l
    case Begin => Some(s.(calls := s.calls + [WantLock]))
    case EnterFirst(c, now) =>
      if c < |s.calls| && s.calls[c].WantLock? && s.lock.Free?
      then Some(Conclude(s, c, FirstHold(s.kind, s.st, s.flag, now))) else None
    case StoreRead(c, loaded) =>
      if c < |s.calls| && s.calls[c].ReadingStore? then Some(CallTo(s, c, HasLoaded(loaded))) else None
    case EnterAgain(c, now) =>
      if c < |s.calls| && s.calls[c].HasLoaded? && s.lock.Free?
      then Some(Conclude(s, c, SecondHold(s.kind, s.st, s.flag, s.calls[c].loaded, now))) else None
    case Register(c) =>
      if c < |s.calls| && s.calls[c].SawFlag?
      then Some(CallTo(s, c, Registered).(lock := Free, listed := s.listed + {c})) else None
    case Recheck(c) =>
      if c < |s.calls| && s.calls[c].Registered?
      then Some(if s.flag then CallTo(s, c, Parked)
                else CallTo(s, c, Woken).(listed := s.listed - {c}))
      else None
    case Wake(c) =>
      if c < |s.calls| && s.calls[c].Parked? && c !in s.listed then Some(CallTo(s, c, Woken)) else None
    case ReadClock(c, now) =>
      if c < |s.calls| && s.calls[c].Woken? then Some(CallTo(s, c, WokenAt(now))) else None
    case AnswerWoken(c) =>
      if c < |s.calls| && s.calls[c].WokenAt? && s.lock.Free?
      then var (st, answer) := AfterWake(s.st, s.calls[c].now);
           Some(CallTo(s.(st := st), c, Finished(answer)))
      else None
    case Collect(c) =>
      if c < |s.calls| && s.calls[c].AwaitingTask? && s.calls[c].task < |s.tasks| && s.tasks[s.calls[c].task].phase.Ended?
      then Some(CallTo(s, c, Finished(s.tasks[s.calls[c].task].phase.answer))) else None
    case Cancel(c) =>
      if c < |s.calls| && IsAwaitPoint(s.calls[c])
      then Some(CallTo(s, c, Cancelled).(listed := s.listed - {c})) else None
    case _ => None
  }

  // ----- steps of a task -----

  function TaskTo(s: Sys, t: nat, p: TaskPhase): (r: Sys)
    requires t < |s.tasks|
  {
    s.(tasks := s.tasks[t := s.tasks[t].(phase := p)])
  }

  function PollStep(s: Sys, t: nat, credential: Credential, now: U64): (r: Sys)
    requires t < |s.tasks|
  {
    if s.st.token.Some? && s.st.token.value.IsUsableAt(now)
    then TaskTo(s, t, NbExchange(credential, s.st.token.value.access, s.st.token.value.expiresAt)).(lock := Free)
    else TaskTo(s, t, BExchange(credential))
  }

  /** An ordinary failure leaves a still-valid token to hand out; a spent credential does not. */
  function FailureAnswer(p: TaskPhase, later: U64): (r: Answer)
    requires p.NbFail?
  {
    if CredentialConsumed(p.err) || later >= p.expiresAt then Err(Auth(p.err)) else Ok(p.access)
  }

  function TaskStep(s: Sys, l: Label): (r: Option<Sys>)
  {
    match l
    case Poll(t, now) =>
      if t < |s.tasks| && s.tasks[t].phase.Spawned?
      then Some(PollStep(s, t, s.tasks[t].phase.credential, now)) else None
    case ExchangeOk(t, newToken) =>
      if t < |s.tasks| && s.tasks[t].phase.NbExchange? then Some(TaskTo(s, t, NbSave(newToken)))
      else if t < |s.tasks| && s.tasks[t].phase.BExchange? then Some(TaskTo(s, t, BSave(newToken)))
      else None
    case ExchangeErr(t, err, now) =>
      if t < |s.tasks| && s.tasks[t].phase.NbExchange? then
        var p := s.tasks[t].phase;
        Some(TaskTo(s, t, NbFail(p.credential, p.access, p.expiresAt, err)))
      else if t < |s.tasks| && s.tasks[t].phase.BExchange? then
        Some(TaskTo(s, t, Ended(Err(Auth(err))))
               .(st := Failed(s.st, s.tasks[t].phase.credential, err, now), flag := false, lock := Free))
      else None
    case Saved(t) =>
      if t < |s.tasks| && s.tasks[t].phase.NbSave? then Some(TaskTo(s, t, NbInstall(s.tasks[t].phase.newToken)))
      else if t < |s.tasks| && s.tasks[t].phase.BSave? then
        var newToken := s.tasks[t].phase.newToken;
        Some(TaskTo(s, t, Ended(Ok(newToken.access))).(st := Installed(s.st, newToken), flag := false, lock := Free))
      else None
    case InstallNew(t) =>
      if t < |s.tasks| && s.tasks[t].phase.NbInstall? && s.lock.Free? then
        var newToken := s.tasks[t].phase.newToken;
        Some(TaskTo(s, t, NbNotify(Ok(newToken.access))).(st := Installed(s.st, newToken), flag := false))
      else None
    case FailHold(t, now, later) =>
      if t < |s.tasks| && s.tasks[t].phase.NbFail? && s.lock.Free? then
        var p := s.tasks[t].phase;
        Some(TaskTo(s, t, NbNotify(FailureAnswer(p, later)))
               .(st := Failed(s.st, p.credential, p.err, now), flag := false))
      else None
    case NotifyAll(t) =>
      if t < |s.tasks| && s.tasks[t].phase.NbNotify?
      then Some(TaskTo(s, t, Ended(s.tasks[t].phase.answer)).(listed := {})) else None
    case Teardown(t) =>
      if t < |s.tasks| && s.tasks[t].phase.Spawned? then
        Some(TaskTo(s, t, Ended(TASK_LOST)).(lock := Free))    // no guard exists yet: the flag stays up
      else if t < |s.tasks| && InFlight(s.tasks[t].phase) then
        Some(TaskTo(s, t, Unwinding(s.lock == ByTask(t))).(flag := false))
      else None
    case Unwind(t) =>
      if t < |s.tasks| && s.tasks[t].phase.Unwinding?
      then Some(TaskTo(s, t, Ended(TASK_LOST))
                  .(listed := {}, lock := if s.tasks[t].phase.holdsLock then Free else s.lock))
      else None
    case _ => None
  }

  /** A task whose `refresh` has been started and whose outcome is not recorded yet. */
  predicate InFlight(p: TaskPhase) {
    p.Spawned? || p.BExchange? || p.BSave? || IsNonBlocking(p)
  }

  predicate IsNonBlocking(p: TaskPhase) {
    p.NbExchange? || p.NbSave? || p.NbInstall? || p.NbFail?
  }

  predicate HoldsLock(p: TaskPhase) {
    p.Spawned? || p.BExchange? || p.BSave? || (p.Unwinding? && p.holdsLock)
  }

  predicate IsTaskLabel(l: Label) {
    l.Poll? || l.ExchangeOk? || l.ExchangeErr? || l.Saved? || l.InstallNew? || l.FailHold? || l.NotifyAll? ||
    l.Teardown? || l.Unwind?
  }

  function Step(s: Sys, l: Label): (r: Option<Sys>) {
    if IsTaskLabel(l) then TaskStep(s, l) else CallStep(s, l)
  }

  /**
    The surroundings are free: an open exchange may come back with any token or any error,
    the store with anything, a call may be cancelled wherever it awaits, and a task torn
    down until its outcome is recorded.
   */
  lemma SurroundingsAreFree(s: Sys, i: nat, token: Option<Token>, newToken: Token, err: AuthError, now: U64)
    ensures i < |s.tasks| && (s.tasks[i].phase.NbExchange? || s.tasks[i].phase.BExchange?) ==>
              Step(s, ExchangeOk(i, newToken)).Some? && Step(s, ExchangeErr(i, err, now)).Some?
    ensures Step(s, Teardown(i)).Some? <==>
            i < |s.tasks| && !s.tasks[i].phase.NbNotify? && !s.tasks[i].phase.Unwinding? && !s.tasks[i].phase.Ended?
    ensures Step(s, StoreRead(i, token)).Some? <==> i < |s.calls| && s.calls[i].ReadingStore?
    ensures Step(s, Cancel(i)).Some? <==>
            && i < |s.calls| && !s.calls[i].Finished? && !s.calls[i].Cancelled?
            && !s.calls[i].SawFlag? && !s.calls[i].Registered? && !s.calls[i].Woken?
    ensures Step(s, Begin).Some?
  {
  }

  // ----- runs -----

  /** The state a sequence of labels leads to, if each of them is enabled in turn. */
  function Run(s0: Sys, ls: seq<Label>): (r: Option<Sys>) {
    if ls == [] then Some(s0)
    else
      var before := Run(s0, ls[..|ls| - 1]);
      if before.None? then None else Step(before.value, ls[|ls| - 1])
  }

  // ----- the lock and single-flight invariant -----

  /** At most one refresh is in flight; it keeps the flag up, and holds the lock or finds a token cached. */
  ghost predicate SingleFlight(s: Sys) {
    && (forall t, u :: 0 <= t < |s.tasks| && 0 <= u < |s.tasks| && InFlight(s.tasks[t].phase) && InFlight(s.tasks[u].phase)
          ==> t == u)
    && (forall t :: 0 <= t < |s.tasks| && InFlight(s.tasks[t].phase) ==> s.flag)
    && (forall t :: 0 <= t < |s.tasks| && IsNonBlocking(s.tasks[t].phase) ==> s.st.token.Some?)
  }

  ghost predicate LockKept(s: Sys) {
    && (forall t :: 0 <= t < |s.tasks| ==> (HoldsLock(s.tasks[t].phase) <==> s.lock == ByTask(t)))
    && (forall c :: 0 <= c < |s.calls| ==> (s.calls[c].SawFlag? <==> s.lock == ByCall(c)))
    && (s.lock.ByTask? ==> s.lock.t < |s.tasks|)
    && (s.lock.ByCall? ==> s.lock.c < |s.calls|)
  }

  /** Calls and tasks point at each other, and only waiting calls are on the list. */
  ghost predicate LinksKept(s: Sys) {
    && (forall c :: 0 <= c < |s.calls| && s.calls[c].AwaitingTask?
          ==> s.calls[c].task < |s.tasks| && s.tasks[s.calls[c].task].initiator == c)
    && (forall t :: 0 <= t < |s.tasks| ==> s.tasks[t].initiator < |s.calls|)
    && (forall c :: c in s.listed ==> c < |s.calls| && (s.calls[c].Registered? || s.calls[c].Parked?))
  }

  /** A non-blocking refresh remembers exactly the token that is still cached. */
  ghost predicate CurrentKept(s: Sys) {
    forall t :: 0 <= t < |s.tasks| && (s.tasks[t].phase.NbExchange? || s.tasks[t].phase.NbFail?)
      ==> && s.st.token.Some?
          && s.st.token.value.access == s.tasks[t].phase.access
          && s.st.token.value.expiresAt == s.tasks[t].phase.expiresAt
  }

  ghost predicate Inv(s: Sys) {
    SingleFlight(s) && LockKept(s) && LinksKept(s) && CurrentKept(s)
  }

  // ----- every step keeps it: four shapes of step cover all labels -----

  /** A cached token is never dropped, and keeps its text and expiry while a refresh is in flight. */
  predicate SameToken(a: State, b: State) {
    a.token.Some? ==> b.token.Some? && b.token.value.access == a.token.value.access &&
                      b.token.value.expiresAt == a.token.value.expiresAt
  }

  /** What the lock holds promise the protocol: an exchange starts with the flag down, or with nothing cached. */
  lemma HoldFacts(s: Sys, loaded: Option<Token>, now: U64)
    ensures var (st, v) := FirstHold(s.kind, s.st, s.flag, now);
            SameToken(s.st, st) && (v.Exchange? ==> !s.flag || s.st.token.None?)
    ensures var (st, v) := SecondHold(s.kind, s.st, s.flag, loaded, now);
            SameToken(s.st, st) && (v.Exchange? ==> !s.flag || s.st.token.None?)
  {
  }

  /** A call moves on without taking or releasing the lock. */
  lemma CallMoves(s: Sys, s': Sys, c: nat, p: CallPhase, st: State, listed: set<nat>)
    requires Inv(s) && c < |s.calls| && !s.calls[c].SawFlag? && !p.SawFlag? && !p.AwaitingTask?
    requires SameToken(s.st, st) && listed <= s.listed && (c in listed ==> p.Registered? || p.Parked?)
    requires s' == s.(st := st, calls := s.calls[c := p], listed := listed)
    ensures Inv(s')
  {
  }

  /** A lock hold starts a refresh: nothing else can be in flight then. */
  lemma RefreshStarts(s: Sys, s': Sys, c: nat, st: State, credential: Credential)
    requires Inv(s) && c < |s.calls| && s.lock.Free? && !s.calls[c].Registered? && !s.calls[c].Parked?
    requires SameToken(s.st, st) && (!s.flag || s.st.token.None?)
    requires s' == Conclude(s, c, (st, Exchange(credential)))
    ensures Inv(s')
  {
    forall t | 0 <= t < |s.tasks| ensures !InFlight(s.tasks[t].phase) {
      assert !HoldsLock(s.tasks[t].phase);
    }
  }

  /** A call takes the lock along to register, or drops it once registered. */
  lemma LockMovesToCall(s: Sys, s': Sys, c: nat)
    requires Inv(s) && c < |s.calls|
    requires || (s.lock.Free? && !s.calls[c].Registered? && !s.calls[c].Parked?
                 && exists st :: SameToken(s.st, st) && s' == Conclude(s, c, (st, AwaitInFlight)))
             || (s.calls[c].SawFlag? && s' == CallTo(s, c, Registered).(lock := Free, listed := s.listed + {c}))
    ensures Inv(s')
  {
  }

  /** A task in flight advances, keeping the lock or giving it up for a cached token. */
  lemma TaskAdvances(s: Sys, s': Sys, t: nat, p: TaskPhase, lock: Holder)
    requires Inv(s) && t < |s.tasks| && InFlight(s.tasks[t].phase) && InFlight(p)
    requires IsNonBlocking(p) ==> s.st.token.Some?
    requires p.NbExchange? || p.NbFail? ==>
               s.st.token.value.access == p.access && s.st.token.value.expiresAt == p.expiresAt
    requires if HoldsLock(p) then HoldsLock(s.tasks[t].phase) && lock == s.lock
             else lock == if HoldsLock(s.tasks[t].phase) then Free else s.lock
    requires s' == TaskTo(s, t, p).(lock := lock)
    ensures Inv(s')
  {
  }

  /** A task leaves flight, or passes a point after it: no other task was in flight with it. */
  lemma TaskLeaves(s: Sys, s': Sys, t: nat, p: TaskPhase, st: State, flag: bool, lock: Holder, listed: set<nat>)
    requires Inv(s) && t < |s.tasks| && !InFlight(p)
    requires InFlight(s.tasks[t].phase) || (st == s.st && flag == s.flag)
    requires s.st.token.Some? ==> st.token.Some?
    requires if HoldsLock(p) then HoldsLock(s.tasks[t].phase) && lock == s.lock
             else lock == if HoldsLock(s.tasks[t].phase) then Free else s.lock
    requires listed <= s.listed
    requires s' == TaskTo(s, t, p).(st := st, flag := flag, lock := lock, listed := listed)
    ensures Inv(s')
  {
  }

  lemma CallStepKeepsInv(s: Sys, l: Label)
    requires Inv(s) && !IsTaskLabel(l) && Step(s, l).Some?
    ensures Inv(Step(s, l).value)
  {
    var s' := Step(s, l).value;
    match l
    case Begin =>
    case EnterFirst(_, _) => HoldKeepsInv(s, l);
    case EnterAgain(_, _) => HoldKeepsInv(s, l);
    case Register(c) => LockMovesToCall(s, s', c);
    case StoreRead(c, _) => CallMoves(s, s', c, s'.calls[c], s'.st, s'.listed);
    case Recheck(c) => CallMoves(s, s', c, s'.calls[c], s'.st, s'.listed);
    case Wake(c) => CallMoves(s, s', c, s'.calls[c], s'.st, s'.listed);
    case ReadClock(c, _) => CallMoves(s, s', c, s'.calls[c], s'.st, s'.listed);
    case AnswerWoken(c) => CallMoves(s, s', c, s'.calls[c], s'.st, s'.listed);
    case Collect(c) => CallMoves(s, s', c, s'.calls[c], s'.st, s'.listed);
    case Cancel(c) => CallMoves(s, s', c, s'.calls[c], s'.st, s'.listed);
    case _ =>
  }

  lemma HoldKeepsInv(s: Sys, l: Label)
    requires Inv(s) && (l.EnterFirst? || l.EnterAgain?) && Step(s, l).Some?
    ensures Inv(Step(s, l).value)
  {
    if l.EnterFirst? {
      HoldFacts(s, None, l.now);
      ConcludeKeepsInv(s, Step(s, l).value, l.c, FirstHold(s.kind, s.st, s.flag, l.now));
    } else {
      HoldFacts(s, s.calls[l.c].loaded, l.now);
      ConcludeKeepsInv(s, Step(s, l).value, l.c, SecondHold(s.kind, s.st, s.flag, s.calls[l.c].loaded, l.now));
    }
  }

  lemma ConcludeKeepsInv(s: Sys, s': Sys, c: nat, r: (State, Verdict))
    requires Inv(s) && c < |s.calls| && s.lock.Free? && (s.calls[c].WantLock? || s.calls[c].HasLoaded?)
    requires SameToken(s.st, r.0) && (r.1.Exchange? ==> !s.flag || s.st.token.None?)
    requires s' == Conclude(s, c, r)
    ensures Inv(s')
  {
    match r.1
    case Exchange(credential) => RefreshStarts(s, s', c, r.0, credential);
    case AwaitInFlight => LockMovesToCall(s, s', c);
    case _ => CallMoves(s, s', c, s'.calls[c], r.0, s.listed);
  }

  lemma TaskStepKeepsInv(s: Sys, l: Label)
    requires Inv(s) && IsTaskLabel(l) && Step(s, l).Some?
    ensures Inv(Step(s, l).value)
  {
    var s' := Step(s, l).value;
    var t := l.t;
    var p := s'.tasks[t].phase;
    if InFlight(p) {
      TaskAdvances(s, s', t, p, s'.lock);
    } else {
      TaskLeaves(s, s', t, p, s'.st, s'.flag, s'.lock, s'.listed);
    }
  }

  /** A task's step moves that task alone, and leaves the state be while it stays in flight. */
  lemma TaskShape(s: Sys, l: Label)
    requires IsTaskLabel(l) && Step(s, l).Some?
    ensures l.t < |s.tasks|
    ensures var s' := Step(s, l).value;
            && s'.kind == s.kind && s'.calls == s.calls && |s'.tasks| == |s.tasks|
            && s'.tasks == s.tasks[l.t := Task(s.tasks[l.t].initiator, s'.tasks[l.t].phase)]
            && (InFlight(s'.tasks[l.t].phase) ==> InFlight(s.tasks[l.t].phase) && s'.st == s.st)
            && (!InFlight(s.tasks[l.t].phase) ==> s'.st == s.st && s'.flag == s.flag)
  {
  }

  /** A call's step starts at most one task, from a lock hold that found nothing in flight. */
  lemma CallShape(s: Sys, l: Label)
    requires !IsTaskLabel(l) && Step(s, l).Some?
    ensures var s' := Step(s, l).value;
            && s'.kind == s.kind
            && (if l.Begin? then s'.calls == s.calls + [WantLock]
                else l.c < |s.calls| && |s'.calls| == |s.calls| && s'.calls == s.calls[l.c := s'.calls[l.c]])
            && (s'.tasks == s.tasks ||
                ((l.EnterFirst? || l.EnterAgain?) && s.lock.Free? && (!s.flag || s.st.token.None?) &&
                 s'.lock == ByTask(|s.tasks|) && s'.flag &&
                 |s'.tasks| == |s.tasks| + 1 && s'.tasks[..|s.tasks|] == s.tasks &&
                 s'.tasks[|s.tasks|].phase.Spawned? && s'.tasks[|s.tasks|].initiator == l.c))
            && (s.lock.Free? || s'.st == s.st)
            && (s.flag && s.st.token.Some? ==> s'.st.token == s.st.token)
  {
  }

  lemma {:induction false} RunKeepsInv(kind: Refresher, token: Option<Token>, ls: seq<Label>)
    requires Run(Initial(kind, token), ls).Some?
    ensures Inv(Run(Initial(kind, token), ls).value)
  {
    if ls != [] {
      RunKeepsInv(kind, token, ls[..|ls| - 1]);
      var s, l := Run(Initial(kind, token), ls[..|ls| - 1]).value, ls[|ls| - 1];
      if IsTaskLabel(l) { TaskStepKeepsInv(s, l); } else { CallStepKeepsInv(s, l); }
    }
  }
}
