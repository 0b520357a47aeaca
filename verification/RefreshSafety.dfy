/**
  What every run of the refresh engine guarantees: one exchange at a time, no
  credential lost or duplicated, and no answer without a reason.
 */
module RefreshSafety {
  import opened Prelude
  import opened AuthErrors
  import opened Tokens
  import opened RefreshState
  import opened RefreshProtocol

  // ----- single flight -----

  predicate IsExchanging(p: TaskPhase) { p.NbExchange? || p.BExchange? }

  /**
    Over every interleaving of calls, cancellations, clock readings and torn-down
    tasks: never two exchanges at once, and the cold-start path, which does not
    test the flag, never runs beside one.
   */
  lemma AtMostOneExchange(kind: Refresher, token: Option<Token>, ls: seq<Label>, t: nat, u: nat)
    requires Run(Initial(kind, token), ls).Some?
    requires var s := Run(Initial(kind, token), ls).value;
             t < |s.tasks| && u < |s.tasks| && IsExchanging(s.tasks[t].phase) && IsExchanging(s.tasks[u].phase)
    ensures t == u
    ensures var s := Run(Initial(kind, token), ls).value; s.flag && (s.lock == ByTask(t) || s.st.token.Some?)
  {
    RunKeepsInv(kind, token, ls);
  }

  // ----- credentials -----

  /** How often the credential `v` occurs in one place. */
  function In(o: Option<string>, v: string): (n: nat) { if o == Some(v) then 1 else 0 }

  function Of(credential: Credential, v: string): (n: nat) { if credential == RefreshToken(v) then 1 else 0 }

  function Cached(s: Sys, v: string): (n: nat) {
    if s.st.token.Some? then In(s.st.token.value.refresh, v) else 0
  }

  /** In a task's hands; a credential spent by a store failure no longer is. */
  function InHands(p: TaskPhase, v: string): (n: nat) {
    match p
    case Spawned(credential) => Of(credential, v)
    case NbExchange(credential, _, _) => Of(credential, v)
    case BExchange(credential) => Of(credential, v)
    case NbFail(credential, _, _, err) => if CredentialConsumed(err) then 0 else Of(credential, v)
    case NbSave(newToken) => In(newToken.refresh, v)
    case NbInstall(newToken) => In(newToken.refresh, v)
    case BSave(newToken) => In(newToken.refresh, v)
    case _ => 0
  }

  function InTasks(tasks: seq<Task>, v: string): (n: nat) {
    if tasks == [] then 0 else InTasks(tasks[..|tasks| - 1], v) + InHands(tasks[|tasks| - 1].phase, v)
  }

  /** Occurrences a step brings into the engine: a loaded token that gets installed, or a new token. */
  function Entering(s: Sys, l: Label, v: string): (n: nat) {
    match l
    case EnterAgain(c, _) =>
      if s.st.token.None? && c < |s.calls| && s.calls[c].HasLoaded? && s.calls[c].loaded.Some?
      then In(s.calls[c].loaded.value.refresh, v) else 0
    case ExchangeOk(_, newToken) => In(newToken.refresh, v)
    case _ => 0
  }

  /** Occurrences a step spends: presented to the issuer, which accepted them. */
  function Spending(s: Sys, l: Label, v: string): (n: nat) {
    if (l.ExchangeOk? || (l.ExchangeErr? && CredentialConsumed(l.err))) && l.t < |s.tasks|
    then InHands(s.tasks[l.t].phase, v) else 0
  }

  /** Occurrences a step drops: only a torn-down task does. */
  function Losing(s: Sys, l: Label, v: string): (n: nat) {
    if l.Teardown? && l.t < |s.tasks| then InHands(s.tasks[l.t].phase, v) else 0
  }

  datatype Ledger = Ledger(entered: nat, spent: nat, lost: nat)

  /** The accounts of a run for one credential. */
  function Accounts(s0: Sys, ls: seq<Label>, v: string): (a: Ledger)
    requires Run(s0, ls).Some?
  {
    if ls == [] then Ledger(Cached(s0, v), 0, 0)
    else
      var a, s, l := Accounts(s0, ls[..|ls| - 1], v), Run(s0, ls[..|ls| - 1]).value, ls[|ls| - 1];
      Ledger(a.entered + Entering(s, l, v), a.spent + Spending(s, l, v), a.lost + Losing(s, l, v))
  }

  /** While a device-session refresh is in flight, the cached token has no credential of its own. */
  ghost predicate DrainedInFlight(s: Sys) {
    s.kind.DeviceSession? &&
    forall t :: 0 <= t < |s.tasks| && InFlight(s.tasks[t].phase) ==>
      s.st.token.Some? && s.st.token.value.refresh.None?
  }

  lemma {:induction false} InTasksUpdate(tasks: seq<Task>, t: nat, task: Task, v: string)
    requires t < |tasks|
    ensures InTasks(tasks[t := task], v) == InTasks(tasks, v) - InHands(tasks[t].phase, v) + InHands(task.phase, v)
  {
    var last := |tasks| - 1;
    if t == last {
      assert tasks[t := task][..last] == tasks[..last];
    } else {
      assert tasks[t := task][..last] == tasks[..last][t := task];
      InTasksUpdate(tasks[..last], t, task, v);
    }
  }

  /** A device-session lock hold moves the credential from the cached token into a task it starts, or moves nothing. */
  lemma HoldMovesCredential(st: State, flag: bool, now: U64)
    ensures var (st', verdict) := Decide(DeviceSession, st, flag, now);
            if verdict.Exchange? then
              && st.token.Some? && verdict.credential.RefreshToken? && st'.token == Some(st.token.value.Drained())
              && st.token.value.refresh == Some(verdict.credential.value)
            else st'.token == st.token
  {
  }

  lemma ConcludeCounts(s: Sys, c: nat, held: State, now: U64, v: string)
    requires c < |s.calls|
    ensures var s' := Conclude(s, c, Decide(DeviceSession, held, s.flag, now));
            Cached(s', v) + InTasks(s'.tasks, v) == Cached(s.(st := held), v) + InTasks(s.tasks, v)
  {
    HoldMovesCredential(held, s.flag, now);
    var (st, verdict) := Decide(DeviceSession, held, s.flag, now);
    if verdict.Exchange? { OneTaskMore(s.tasks, Task(c, Spawned(verdict.credential)), v); }
  }

  lemma OneTaskMore(tasks: seq<Task>, task: Task, v: string)
    ensures InTasks(tasks + [task], v) == InTasks(tasks, v) + InHands(task.phase, v)
  {
    assert (tasks + [task])[..|tasks|] == tasks;
  }

  lemma ConcludeDrains(s: Sys, c: nat, held: State, now: U64)
    requires Inv(s) && DrainedInFlight(s) && c < |s.calls| && s.lock.Free?
    requires held == s.st || s.st.token.None?
    ensures DrainedInFlight(Conclude(s, c, Decide(DeviceSession, held, s.flag, now)))
  {
    HoldMovesCredential(held, s.flag, now);
    if Decide(DeviceSession, held, s.flag, now).1.Exchange? {
      forall t | 0 <= t < |s.tasks| ensures !InFlight(s.tasks[t].phase) {
        assert !HoldsLock(s.tasks[t].phase);
      }
    }
  }

  /** A lock hold on the state `held` (with a loaded token already installed) concludes. */
  lemma ConcludeKeepsBooks(s: Sys, c: nat, held: State, now: U64, v: string)
    requires Inv(s) && DrainedInFlight(s) && c < |s.calls| && s.lock.Free?
    requires held == s.st || s.st.token.None?
    ensures var s' := Conclude(s, c, Decide(DeviceSession, held, s.flag, now));
            && DrainedInFlight(s')
            && Cached(s', v) + InTasks(s'.tasks, v) == Cached(s.(st := held), v) + InTasks(s.tasks, v)
  {
    ConcludeCounts(s, c, held, now, v);
    ConcludeDrains(s, c, held, now);
  }

  lemma CallStepKeepsBooks(s: Sys, l: Label, v: string)
    requires Inv(s) && DrainedInFlight(s) && !IsTaskLabel(l) && Step(s, l).Some?
    ensures var s' := Step(s, l).value;
            && DrainedInFlight(s')
            && Cached(s', v) + InTasks(s'.tasks, v) == Cached(s, v) + InTasks(s.tasks, v) + Entering(s, l, v)
  {
    if l.EnterFirst? {
      ConcludeKeepsBooks(s, l.c, s.st, l.now, v);
    } else if l.EnterAgain? {
      var held := if s.st.token.None? then s.st.(token := s.calls[l.c].loaded) else s.st;
      ConcludeKeepsBooks(s, l.c, held, l.now, v);
    }
  }

  lemma DrainedIsKept(s: Sys, s': Sys, t: nat)
    requires Inv(s) && DrainedInFlight(s) && t < |s.tasks|
    requires s'.kind == s.kind && |s'.tasks| == |s.tasks| && s'.tasks == s.tasks[t := s'.tasks[t]]
    requires InFlight(s'.tasks[t].phase) ==> InFlight(s.tasks[t].phase)
    requires (InFlight(s.tasks[t].phase) && !InFlight(s'.tasks[t].phase)) || s'.st == s.st
    ensures DrainedInFlight(s')
  {
  }

  /** The books of the one task that moves. */
  lemma TaskBalances(s: Sys, l: Label, v: string)
    requires IsTaskLabel(l) && Step(s, l).Some?
    requires InFlight(s.tasks[l.t].phase) ==> s.st.token.Some? && s.st.token.value.refresh.None?
    ensures var s' := Step(s, l).value;
            Cached(s', v) + InHands(s'.tasks[l.t].phase, v) + Spending(s, l, v) + Losing(s, l, v)
            == Cached(s, v) + InHands(s.tasks[l.t].phase, v) + Entering(s, l, v)
  {
  }

  lemma TaskStepKeepsBooks(s: Sys, l: Label, v: string)
    requires Inv(s) && DrainedInFlight(s) && IsTaskLabel(l) && Step(s, l).Some?
    ensures var s' := Step(s, l).value;
            && DrainedInFlight(s')
            && Cached(s', v) + InTasks(s'.tasks, v) + Spending(s, l, v) + Losing(s, l, v)
               == Cached(s, v) + InTasks(s.tasks, v) + Entering(s, l, v)
  {
    var s' := Step(s, l).value;
    TaskShape(s, l);
    DrainedIsKept(s, s', l.t);
    TaskBalances(s, l, v);
    InTasksUpdate(s.tasks, l.t, s'.tasks[l.t], v);
  }

  /**
    Conservation: every occurrence of a credential that ever entered a device-session
    engine is in the cached token, in a task's hands, spent, or lost to a torn-down task.
   */
  lemma {:induction false} CredentialsAreConserved(token: Option<Token>, ls: seq<Label>, v: string)
    requires Run(Initial(DeviceSession, token), ls).Some?
    ensures var s, a := Run(Initial(DeviceSession, token), ls).value, Accounts(Initial(DeviceSession, token), ls, v);
            && DrainedInFlight(s)
            && a.entered == Cached(s, v) + InTasks(s.tasks, v) + a.spent + a.lost
  {
    if ls != [] {
      var s0 := Initial(DeviceSession, token);
      CredentialsAreConserved(token, ls[..|ls| - 1], v);
      RunKeepsInv(DeviceSession, token, ls[..|ls| - 1]);
      var s, l := Run(s0, ls[..|ls| - 1]).value, ls[|ls| - 1];
      if IsTaskLabel(l) { TaskStepKeepsBooks(s, l, v); } else { CallStepKeepsBooks(s, l, v); }
    }
  }

  /** A credential that entered once is in exactly one of the four places. */
  lemma CredentialIsInOnePlace(token: Option<Token>, ls: seq<Label>, v: string)
    requires Run(Initial(DeviceSession, token), ls).Some?
    requires Accounts(Initial(DeviceSession, token), ls, v).entered == 1
    ensures var s, a := Run(Initial(DeviceSession, token), ls).value, Accounts(Initial(DeviceSession, token), ls, v);
            var (cached, inTasks) := (Cached(s, v), InTasks(s.tasks, v));
            || (cached == 1 && inTasks == a.spent == a.lost == 0)
            || (inTasks == 1 && cached == a.spent == a.lost == 0)
            || (a.spent == 1 && cached == inTasks == a.lost == 0)
            || (a.lost == 1 && cached == inTasks == a.spent == 0)
  {
    CredentialsAreConserved(token, ls, v);
  }

  // ----- a failed refresh undoes the take -----

  /** The credential a task still owes to the cached token should its exchange fail. */
  function Owed(p: TaskPhase): (r: Option<Credential>) {
    match p
    case Spawned(credential) => Some(credential)
    case NbExchange(credential, _, _) => Some(credential)
    case BExchange(credential) => Some(credential)
    case NbFail(credential, _, _, err) => if CredentialConsumed(err) then None else Some(credential)
    case _ => None
  }

  /** The token a lock hold finds: the cached one, or the loaded one it installs. */
  function Presented(s: Sys, l: Label): (t: Option<Token>) {
    if l.EnterAgain? && s.st.token.None? && l.c < |s.calls| && s.calls[l.c].HasLoaded? then s.calls[l.c].loaded
    else s.st.token
  }

  /** The token task `t` took its credential from: what the hold that started it found. */
  function Origin(s0: Sys, ls: seq<Label>, t: nat): (o: Option<Token>)
    requires Run(s0, ls).Some? && t < |Run(s0, ls).value.tasks|
  {
    if ls == [] then None
    else
      var s := Run(s0, ls[..|ls| - 1]).value;
      if t < |s.tasks| then Origin(s0, ls[..|ls| - 1], t) else Presented(s, ls[|ls| - 1])
  }

  function PutBack(token: Option<Token>, credential: Credential): (r: Option<Token>) {
    if token.Some? then Some(Restore(token.value, credential)) else None
  }

  /** Putting the owed credential back would give exactly the token it came from. */
  ghost predicate DebtsKept(s0: Sys, ls: seq<Label>)
    requires Run(s0, ls).Some?
  {
    var s := Run(s0, ls).value;
    forall t :: 0 <= t < |s.tasks| && Owed(s.tasks[t].phase).Some?
      ==> PutBack(s.st.token, Owed(s.tasks[t].phase).value) == Origin(s0, ls, t)
  }

  lemma ExchangeOwesWhatItTook(s: Sys, l: Label)
    requires (l.EnterFirst? || l.EnterAgain?) && Step(s, l).Some? && |Step(s, l).value.tasks| > |s.tasks|
    ensures var s' := Step(s, l).value;
            && |s'.tasks| == |s.tasks| + 1 && s'.tasks[|s.tasks|].phase.Spawned? && s'.tasks[..|s.tasks|] == s.tasks
            && PutBack(s'.st.token, s'.tasks[|s.tasks|].phase.credential) == Presented(s, l)
  {
  }

  lemma DebtsStep(s0: Sys, ls: seq<Label>)
    requires ls != [] && Run(s0, ls).Some? && Inv(Run(s0, ls[..|ls| - 1]).value) && DebtsKept(s0, ls[..|ls| - 1])
    ensures DebtsKept(s0, ls)
  {
    var s, l := Run(s0, ls[..|ls| - 1]).value, ls[|ls| - 1];
    var s' := Step(s, l).value;
    if IsTaskLabel(l) { TaskShape(s, l); OwedShrinks(s, l); } else { CallShape(s, l); }
    forall t | 0 <= t < |s'.tasks| && Owed(s'.tasks[t].phase).Some?
      ensures PutBack(s'.st.token, Owed(s'.tasks[t].phase).value) == Origin(s0, ls, t)
    {
      if t == |s.tasks| {
        ExchangeOwesWhatItTook(s, l);
      } else {
        assert InFlight(s.tasks[t].phase) && Owed(s.tasks[t].phase) == Owed(s'.tasks[t].phase);
        assert s'.st.token == s.st.token;
      }
    }
  }

  lemma OwedShrinks(s: Sys, l: Label)
    requires IsTaskLabel(l) && Step(s, l).Some?
    ensures var p' := Step(s, l).value.tasks[l.t].phase;
            Owed(p').Some? ==> Owed(p') == Owed(s.tasks[l.t].phase)
  {
  }

  lemma {:induction false} RunKeepsDebts(kind: Refresher, token: Option<Token>, ls: seq<Label>)
    requires Run(Initial(kind, token), ls).Some?
    ensures DebtsKept(Initial(kind, token), ls)
  {
    if ls != [] {
      RunKeepsDebts(kind, token, ls[..|ls| - 1]);
      RunKeepsInv(kind, token, ls[..|ls| - 1]);
      DebtsStep(Initial(kind, token), ls);
    }
  }

  /** The step that records a failed exchange of task `t`. */
  predicate RecordsFailure(s: Sys, l: Label) {
    || (l.FailHold? && l.t < |s.tasks| && s.tasks[l.t].phase.NbFail?)
    || (l.ExchangeErr? && l.t < |s.tasks| && s.tasks[l.t].phase.BExchange?)
  }

  function FailureOf(s: Sys, l: Label): (e: AuthError)
    requires RecordsFailure(s, l)
  {
    if l.FailHold? then s.tasks[l.t].phase.err else l.err
  }

  /**
    Whatever ran in between (cancelled callers included), a failed refresh puts its
    credential back into the very token it came from, which is then cached exactly as
    it was; a store failure leaves the cached token as it is, without the spent credential.
   */
  lemma FailureRestoresTheOrigin(kind: Refresher, token: Option<Token>, ls: seq<Label>, l: Label)
    requires Run(Initial(kind, token), ls + [l]).Some? && Run(Initial(kind, token), ls).Some?
    requires RecordsFailure(Run(Initial(kind, token), ls).value, l)
    ensures var s0 := Initial(kind, token);
            var s, s' := Run(s0, ls).value, Run(s0, ls + [l]).value;
            && s'.st.token == (if CredentialConsumed(FailureOf(s, l)) then s.st.token else Origin(s0, ls, l.t))
            && (CredentialConsumed(FailureOf(s, l)) && kind.DeviceSession? ==>
                  s'.st.token.Some? && s'.st.token.value.refresh.None?)
  {
    var s0 := Initial(kind, token);
    assert (ls + [l])[..|ls|] == ls;
    RunKeepsDebts(kind, token, ls);
    if kind.DeviceSession? {
      CredentialsAreConserved(token, ls, "");
    }
  }

  // ----- every answer has a reason -----

  /** The call a step belongs to: a task acts for the call that started it. */
  function ActsFor(s: Sys, l: Label): (c: Option<nat>) {
    if IsTaskLabel(l) then (if l.t < |s.tasks| then Some(s.tasks[l.t].initiator) else None)
    else if l.Begin? then None else Some(l.c)
  }

  function ReadingsOf(l: Label): (r: set<U64>) {
    match l
    case EnterFirst(_, now) => {now}
    case EnterAgain(_, now) => {now}
    case ReadClock(_, now) => {now}
    case Poll(_, now) => {now}
    case ExchangeErr(_, _, now) => {now}
    case FailHold(_, now, later) => {now, later}
    case _ => {}
  }

  /** The step that puts a task's new token into the cache. */
  predicate Installs(s: Sys, l: Label) {
    l.InstallNew? || (l.Saved? && l.t < |s.tasks| && s.tasks[l.t].phase.BSave?)
  }

  /** What a call has to show: tokens cached while it ran, its clock readings, and what its own refresh installed. */
  datatype Evidence = Evidence(seen: set<Token>, readings: set<U64>, installed: set<string>)

  function EvidenceFor(s0: Sys, ls: seq<Label>, c: nat): (e: Evidence)
    requires Run(s0, ls).Some?
  {
    if ls == [] then Evidence({}, {}, {})
    else
      var e, s, l := EvidenceFor(s0, ls[..|ls| - 1], c), Run(s0, ls[..|ls| - 1]).value, ls[|ls| - 1];
      MoreEvidence(e, s, l, Run(s0, ls).value, c)
  }

  function MoreEvidence(e: Evidence, s: Sys, l: Label, s': Sys, c: nat): (r: Evidence) {
    var mine := ActsFor(s, l) == Some(c);
    Evidence(
      e.seen + (if c < |s'.calls| && s'.st.token.Some? then {s'.st.token.value.Drained()} else {}),
      e.readings + (if mine then ReadingsOf(l) else {}),
      e.installed + (if mine && Installs(s, l) && s'.st.token.Some? then {s'.st.token.value.access} else {}))
  }

  /** Installed by the call's own refresh, or cached during the call and usable at one of its readings. */
  ghost predicate Justified(e: Evidence, access: string) {
    access in e.installed ||
    exists token, now :: token in e.seen && now in e.readings && token.access == access && token.IsUsableAt(now)
  }

  ghost predicate CallJustified(e: Evidence, p: CallPhase) {
    && (p.Finished? && p.answer.Ok? ==> Justified(e, p.answer.value))
    && (p.WokenAt? ==> p.now in e.readings)
  }

  ghost predicate TaskJustified(e: Evidence, p: TaskPhase) {
    (p.NbNotify? || p.Ended?) && p.answer.Ok? ==> Justified(e, p.answer.value)
  }

  ghost predicate AllJustified(s0: Sys, ls: seq<Label>)
    requires Run(s0, ls).Some?
  {
    var s := Run(s0, ls).value;
    && (forall c :: 0 <= c < |s.calls| ==> CallJustified(EvidenceFor(s0, ls, c), s.calls[c]))
    && (forall t :: 0 <= t < |s.tasks| ==> TaskJustified(EvidenceFor(s0, ls, s.tasks[t].initiator), s.tasks[t].phase))
  }

  lemma EvidenceStays(e: Evidence, s: Sys, l: Label, s': Sys, c: nat)
    ensures var e' := MoreEvidence(e, s, l, s', c);
            && (forall a :: Justified(e, a) ==> Justified(e', a))
            && (forall p :: CallJustified(e, p) ==> CallJustified(e', p))
            && (forall p :: TaskJustified(e, p) ==> TaskJustified(e', p))
  {
    var e' := MoreEvidence(e, s, l, s', c);
    forall a | Justified(e, a) ensures Justified(e', a) {
      if a !in e.installed {
        var token, now :| token in e.seen && now in e.readings && token.access == a && token.IsUsableAt(now);
        assert token in e'.seen && now in e'.readings;
      }
    }
  }

  lemma CachedTokenJustifies(e: Evidence, token: Token, now: U64)
    requires token.Drained() in e.seen && now in e.readings && token.IsUsableAt(now)
    ensures Justified(e, token.access)
  {
    assert token.Drained().access == token.access && token.Drained().IsUsableAt(now);
  }

  /** A hold that hands out a token hands out the cached one, usable at its reading. */
  lemma HoldAnswersUsable(kind: Refresher, st: State, flag: bool, now: U64)
    ensures var (st', verdict) := Decide(kind, st, flag, now);
            verdict.Answer? && verdict.answer.Ok? ==>
              st'.token.Some? && verdict.answer.value == st'.token.value.access && st'.token.value.IsUsableAt(now)
  {
  }

  lemma CallAnswers(s: Sys, l: Label, e: Evidence, c: nat)
    requires !IsTaskLabel(l) && Step(s, l).Some? && c < |s.calls| && CallJustified(e, s.calls[c])
    requires s.calls[c].AwaitingTask? && s.calls[c].task < |s.tasks| ==> TaskJustified(e, s.tasks[s.calls[c].task].phase)
    ensures CallJustified(MoreEvidence(e, s, l, Step(s, l).value, c), Step(s, l).value.calls[c])
  {
    var s' := Step(s, l).value;
    var e' := MoreEvidence(e, s, l, s', c);
    EvidenceStays(e, s, l, s', c);
    if !l.Begin? && l.c == c {
      if l.EnterFirst? {
        HoldAnswersUsable(s.kind, s.st, s.flag, l.now);
      } else if l.EnterAgain? {
        HoldAnswersUsable(s.kind, if s.st.token.None? then s.st.(token := s.calls[c].loaded) else s.st, s.flag, l.now);
      }
      if s'.calls[c].Finished? && s'.calls[c].answer.Ok? && !l.Collect? {
        CachedTokenJustifies(e', s'.st.token.value, if l.AnswerWoken? then s.calls[c].now else l.now);
      }
    }
  }

  lemma TaskAnswers(s: Sys, l: Label, e: Evidence)
    requires Inv(s) && IsTaskLabel(l) && Step(s, l).Some? && TaskJustified(e, s.tasks[l.t].phase)
    ensures TaskJustified(MoreEvidence(e, s, l, Step(s, l).value, s.tasks[l.t].initiator), Step(s, l).value.tasks[l.t].phase)
  {
    var s' := Step(s, l).value;
    var c := s.tasks[l.t].initiator;
    EvidenceStays(e, s, l, s', c);
    if l.FailHold? && s'.tasks[l.t].phase.answer.Ok? {
      CachedTokenJustifies(MoreEvidence(e, s, l, s', c), s'.st.token.value, l.later);
    }
  }

  lemma CallsJustifiedStep(s0: Sys, ls: seq<Label>, c: nat)
    requires ls != [] && Run(s0, ls).Some? && Inv(Run(s0, ls[..|ls| - 1]).value) && AllJustified(s0, ls[..|ls| - 1])
    requires c < |Run(s0, ls).value.calls|
    ensures CallJustified(EvidenceFor(s0, ls, c), Run(s0, ls).value.calls[c])
  {
    var before, l := ls[..|ls| - 1], ls[|ls| - 1];
    var s := Run(s0, before).value;
    var e := EvidenceFor(s0, before, c);
    if IsTaskLabel(l) {
      TaskShape(s, l);
      EvidenceStays(e, s, l, Step(s, l).value, c);
    } else {
      CallShape(s, l);
      if c < |s.calls| {
        CallAnswers(s, l, e, c);
      }
    }
  }

  lemma TasksJustifiedStep(s0: Sys, ls: seq<Label>, t: nat)
    requires ls != [] && Run(s0, ls).Some? && Inv(Run(s0, ls[..|ls| - 1]).value) && AllJustified(s0, ls[..|ls| - 1])
    requires t < |Run(s0, ls).value.tasks|
    ensures var task := Run(s0, ls).value.tasks[t]; TaskJustified(EvidenceFor(s0, ls, task.initiator), task.phase)
  {
    var before, l := ls[..|ls| - 1], ls[|ls| - 1];
    var s := Run(s0, before).value;
    if IsTaskLabel(l) { TaskShape(s, l); } else { CallShape(s, l); }
    if t < |s.tasks| {
      var e := EvidenceFor(s0, before, s.tasks[t].initiator);
      EvidenceStays(e, s, l, Step(s, l).value, s.tasks[t].initiator);
      if IsTaskLabel(l) && l.t == t { TaskAnswers(s, l, e); }
    }
  }

  /**
    Every successful call hands out either the token its own refresh installed, or a
    token that was cached while the call ran and usable at a clock reading taken for
    that call, however the clock and the other callers behave.
   */
  lemma {:induction false} EveryAnswerIsJustified(kind: Refresher, token: Option<Token>, ls: seq<Label>)
    requires Run(Initial(kind, token), ls).Some?
    ensures AllJustified(Initial(kind, token), ls)
  {
    if ls != [] {
      EveryAnswerIsJustified(kind, token, ls[..|ls| - 1]);
      RunKeepsInv(kind, token, ls[..|ls| - 1]);
      var s0 := Initial(kind, token);
      forall c | 0 <= c < |Run(s0, ls).value.calls|
        ensures CallJustified(EvidenceFor(s0, ls, c), Run(s0, ls).value.calls[c])
      {
        CallsJustifiedStep(s0, ls, c);
      }
      forall t | 0 <= t < |Run(s0, ls).value.tasks|
        ensures var task := Run(s0, ls).value.tasks[t]; TaskJustified(EvidenceFor(s0, ls, task.initiator), task.phase)
      {
        TasksJustifiedStep(s0, ls, t);
      }
    }
  }
}
