/**
  What a call is told, over whole runs: the cached token while it is good, the refusal that
  is in force, the outcome of the refresh it started, the failure of the one it waited for.
 */
module RefreshAnswers {
  import opened Prelude
  import opened AuthErrors
  import opened Tokens
  import opened RefreshState
  import opened RefreshProtocol
  import opened RefreshSafety
  import opened RefusalLimit

  // ----- what a run has recorded -----

  datatype Refusal = Refusal(err: AuthError, at: U64)

  /** The last account refusal of a run. */
  function LastRefusal(s0: Sys, ls: seq<Label>): (r: Option<Refusal>)
    requires Run(s0, ls).Some?
  {
    if ls == [] then None
    else
      var s, l := Run(s0, ls[..|ls| - 1]).value, ls[|ls| - 1];
      if Refuses(s, l) then Some(Refusal(FailureOf(s, l), l.now)) else LastRefusal(s0, ls[..|ls| - 1])
  }

  /** The last failure of a run since a refresh succeeded. */
  function LastFailure(s0: Sys, ls: seq<Label>): (r: Option<AuthError>)
    requires Run(s0, ls).Some?
  {
    if ls == [] then None
    else
      var s, l := Run(s0, ls[..|ls| - 1]).value, ls[|ls| - 1];
      if RecordsFailure(s, l) then Some(FailureOf(s, l))
      else if Installs(s, l) then None
      else LastFailure(s0, ls[..|ls| - 1])
  }

  predicate IsWireFormOf(denial: StickyDenial, refusal: Refusal) {
    denial == StickyDenial(ErrorCode(refusal.err), Message(refusal.err), refusal.at)
  }

  /** The state remembers these, in their wire form. */
  predicate Notes(st: State, refusal: Option<Refusal>, failure: Option<AuthError>) {
    && (st.denial.Some? ==> refusal.Some? && IsWireFormOf(st.denial.value, refusal.value))
    && st.lastError == if failure.Some? then Some((ErrorCode(failure.value), Message(failure.value))) else None
  }

  lemma CallStepNotes(s: Sys, l: Label, refusal: Option<Refusal>, failure: Option<AuthError>)
    requires !IsTaskLabel(l) && Step(s, l).Some? && Notes(s.st, refusal, failure)
    ensures !RecordsFailure(s, l) && !Installs(s, l) && Notes(Step(s, l).value.st, refusal, failure)
  {
    if l.EnterFirst? { HoldLeaves(s.kind, s.st, s.flag, l.now); }
    if l.EnterAgain? {
      HoldLeaves(s.kind, if s.st.token.None? then s.st.(token := s.calls[l.c].loaded) else s.st, s.flag, l.now);
    }
  }

  lemma TaskStepNotes(s: Sys, l: Label, refusal: Option<Refusal>, failure: Option<AuthError>)
    requires IsTaskLabel(l) && Step(s, l).Some? && Notes(s.st, refusal, failure)
    ensures Notes(Step(s, l).value.st,
                  if Refuses(s, l) then Some(Refusal(FailureOf(s, l), l.now)) else refusal,
                  if RecordsFailure(s, l) then Some(FailureOf(s, l)) else if Installs(s, l) then None else failure)
  {
  }

  lemma {:induction false} RunNotes(kind: Refresher, token: Option<Token>, ls: seq<Label>)
    requires Run(Initial(kind, token), ls).Some?
    ensures var s0 := Initial(kind, token); Notes(Run(s0, ls).value.st, LastRefusal(s0, ls), LastFailure(s0, ls))
  {
    if ls != [] {
      var s0, before, l := Initial(kind, token), ls[..|ls| - 1], ls[|ls| - 1];
      RunNotes(kind, token, before);
      var s := Run(s0, before).value;
      if IsTaskLabel(l) {
        TaskStepNotes(s, l, LastRefusal(s0, before), LastFailure(s0, before));
      } else {
        CallStepNotes(s, l, LastRefusal(s0, before), LastFailure(s0, before));
      }
    }
  }

  lemma {:induction false} LastRefusalIsLast(s0: Sys, ls: seq<Label>)
    requires Run(s0, ls).Some?
    ensures var (r, last) := (Refusals(s0, ls), LastRefusal(s0, ls));
            (r != [] <==> last.Some?) && (r != [] ==> last.value.at == r[|r| - 1])
    ensures LastRefusal(s0, ls).Some? ==> IsAccountRefusal(LastRefusal(s0, ls).value.err)
  {
    if ls != [] { LastRefusalIsLast(s0, ls[..|ls| - 1]); }
  }

  // ----- one lock hold -----

  predicate IsHold(l: Label) { l.EnterFirst? || l.EnterAgain? }

  /** The token a hold decides by: the cached one, or the one just loaded where nothing is cached. */
  function HeldToken(s: Sys, l: Label): (t: Option<Token>) {
    if l.EnterAgain? && s.st.token.None? && l.c < |s.calls| && s.calls[l.c].HasLoaded? then s.calls[l.c].loaded
    else s.st.token
  }

  /**
    In any state at all, a call that finds a token more than ninety seconds from its expiry
    is answered with it on the spot, and changes nothing else.
   */
  lemma FarFromExpiryFinishes(s: Sys, l: Label)
    requires IsHold(l) && Step(s, l).Some? && HeldToken(s, l).Some? && l.now + 90 < HeldToken(s, l).value.expiresAt
    ensures Step(s, l).value ==
            s.(st := s.st.(token := HeldToken(s, l)), calls := s.calls[l.c := Finished(Ok(HeldToken(s, l).value.access))])
  {
    FarFromExpiryAnswers(s.kind, s.st.(token := HeldToken(s, l)), s.flag, None, l.now);
    if l.EnterFirst? { assert s.st.(token := s.st.token) == s.st; }
  }

  /** In any state at all, an exchange starts exactly when one is due, allowed, not under way, and there is a credential. */
  lemma StartsExactly(s: Sys, l: Label)
    requires IsHold(l) && Step(s, l).Some?
    ensures Starts(s, l) <==>
            && !IsRefused(s.st, l.now)
            && match HeldToken(s, l)
               case Some(token) =>
                 token.expiresAt <= l.now + 90 && !s.flag && (s.kind.SelfAuthenticating? || token.refresh.Some?)
               case None => l.EnterAgain? && s.kind.SelfAuthenticating?
  {
    var st := s.st.(token := HeldToken(s, l));
    if l.EnterFirst? { assert st == s.st; }
    if st.token.Some? { CachedDecides(s.kind, st, s.flag, l.now); } else { ColdDecides(s.kind, st, s.flag, l.now); }
  }

  /** What a call hears while a refusal is in force. */
  function UnderRefusal(s: Sys, held: Option<Token>, now: U64, err: AuthError): (p: CallPhase) {
    if held.Some? && now < held.value.expiresAt then Finished(Ok(held.value.access))
    else if held.Some? && s.flag then SawFlag
    else Finished(Err(Auth(err)))
  }

  lemma HoldUnderRefusal(s: Sys, l: Label, err: AuthError)
    requires IsHold(l) && Step(s, l).Some? && IsRefused(s.st, l.now) && s.st.denial.value.ToError() == err
    ensures Step(s, l).value.calls[l.c] == UnderRefusal(s, HeldToken(s, l), l.now, err)
  {
    var st := s.st.(token := HeldToken(s, l));
    if l.EnterFirst? { assert st == s.st; }
    if st.token.Some? { CachedDecides(s.kind, st, s.flag, l.now); } else { ColdDecides(s.kind, st, s.flag, l.now); }
  }

  /**
    The refusal in force answers: with a steady clock and no untimely answer since the last
    refusal, every call that comes within sixty seconds of it is told that very refusal,
    unless it holds a token that still works, or waits on a flag that was left up.
   */
  lemma LastRefusalAnswers(kind: Refresher, token: Option<Token>, ls: seq<Label>, l: Label)
    requires Run(Initial(kind, token), ls).Some? && SteadyClock(Initial(kind, token), ls)
    requires InTimeSinceRefusal(Initial(kind, token), ls) && LastRefusal(Initial(kind, token), ls).Some?
    requires IsHold(l) && Step(Run(Initial(kind, token), ls).value, l).Some?
    requires Clock(Initial(kind, token), ls) <= l.now < LastRefusal(Initial(kind, token), ls).value.at + 60
    ensures IsTold(Run(Initial(kind, token), ls).value, l, LastRefusal(Initial(kind, token), ls).value.err)
  {
    var s0 := Initial(kind, token);
    LastRefusalStands(kind, token, ls, l.now);
    ToldTheRefusal(Run(s0, ls).value, l, LastRefusal(s0, ls).value.err);
  }

  lemma LastRefusalStands(kind: Refresher, token: Option<Token>, ls: seq<Label>, now: U64)
    requires Run(Initial(kind, token), ls).Some? && SteadyClock(Initial(kind, token), ls)
    requires InTimeSinceRefusal(Initial(kind, token), ls) && LastRefusal(Initial(kind, token), ls).Some?
    requires Clock(Initial(kind, token), ls) <= now < LastRefusal(Initial(kind, token), ls).value.at + 60
    ensures Stands(Run(Initial(kind, token), ls).value.st, LastRefusal(Initial(kind, token), ls).value.err, now)
  {
    var s0 := Initial(kind, token);
    RunRemembersTheLast(kind, token, ls);
    RunLapses(kind, token, ls);
    RefusalInForce(Run(s0, ls).value, LastRefusal(s0, ls).value, Refusals(s0, ls), Clock(s0, ls), now);
  }

  /** A state that remembers a refusal remembers this one, the last there was. */
  predicate RemembersTheLast(st: State, last: Refusal, refusals: seq<U64>) {
    && refusals != [] && last.at == refusals[|refusals| - 1] && IsAccountRefusal(last.err)
    && (st.denial.Some? ==> IsWireFormOf(st.denial.value, last))
  }

  lemma RunRemembersTheLast(kind: Refresher, token: Option<Token>, ls: seq<Label>)
    requires Run(Initial(kind, token), ls).Some? && LastRefusal(Initial(kind, token), ls).Some?
    ensures var s0 := Initial(kind, token);
            RemembersTheLast(Run(s0, ls).value.st, LastRefusal(s0, ls).value, Refusals(s0, ls))
  {
    RunNotes(kind, token, ls);
    LastRefusalIsLast(Initial(kind, token), ls);
  }

  /** The state replays this account refusal at this reading. */
  predicate Stands(st: State, err: AuthError, now: U64) {
    IsAccountRefusal(err) && IsRefused(st, now) && st.denial.value.ToError() == Replayed(err)
  }

  /** A call that holds the lock at `l` hears this refusal, word for word unless it is blank. */
  predicate IsTold(s: Sys, l: Label, err: AuthError)
    requires IsHold(l) && Step(s, l).Some?
  {
    && l.c < |Step(s, l).value.calls|
    && Step(s, l).value.calls[l.c] == UnderRefusal(s, HeldToken(s, l), l.now, Replayed(err))
    && (!Message(err).IsBlank() ==> Replayed(err) == err)
  }

  lemma ToldTheRefusal(s: Sys, l: Label, err: AuthError)
    requires IsHold(l) && Step(s, l).Some? && Stands(s.st, err, l.now)
    ensures IsTold(s, l, err)
  {
    HoldUnderRefusal(s, l, Replayed(err));
    RefusalIsReplayed(s.st, err, 0, 0);
  }

  lemma RefusalInForce(s: Sys, last: Refusal, refusals: seq<U64>, clock: U64, now: U64)
    requires Recorded(s, refusals, clock) && Lapsed(s, refusals, clock) && RemembersTheLast(s.st, last, refusals)
    requires clock <= now < last.at + 60
    ensures Stands(s.st, last.err, now)
  {
  }

  // ----- a woken caller -----

  /** What a woken caller hears: the cached token if it is good, else the refusal in force, else the last failure. */
  function WhenWoken(st: State, now: U64, refusal: Option<Refusal>, failure: Option<AuthError>): (a: Answer) {
    if st.token.Some? && now < st.token.value.expiresAt then Ok(st.token.value.access)
    else if IsRefused(st, now) && refusal.Some? then Err(Auth(Replayed(refusal.value.err)))
    else if failure.Some? && !failure.value.TokenExpired? then Err(Auth(Replayed(failure.value)))
    else Err(if st.token.None? then NotFound else Expired)
  }

  lemma WokenHears(s: Sys, c: nat, refusal: Option<Refusal>, failure: Option<AuthError>)
    requires Step(s, AnswerWoken(c)).Some? && Notes(s.st, refusal, failure)
    ensures Step(s, AnswerWoken(c)).value.calls[c] == Finished(WhenWoken(s.st, s.calls[c].now, refusal, failure))
  {
    if failure.Some? { ExpiryReplays(failure.value); }
  }

  /**
    In every run, a woken caller gets the cached token if it is good at the reading it took,
    else the refusal in force then, else the failure recorded last since a refresh succeeded.
   */
  lemma WokenGetsTheFailure(kind: Refresher, token: Option<Token>, ls: seq<Label>, c: nat)
    requires Run(Initial(kind, token), ls).Some? && Step(Run(Initial(kind, token), ls).value, AnswerWoken(c)).Some?
    ensures var s0, s := Initial(kind, token), Run(Initial(kind, token), ls).value;
            Step(s, AnswerWoken(c)).value.calls[c] ==
            Finished(WhenWoken(s.st, s.calls[c].now, LastRefusal(s0, ls), LastFailure(s0, ls)))
  {
    var s0 := Initial(kind, token);
    RunNotes(kind, token, ls);
    WokenHears(Run(s0, ls).value, c, LastRefusal(s0, ls), LastFailure(s0, ls));
  }

  lemma ExpiryReplays(e: AuthError)
    ensures Replayed(e).TokenExpired? <==> e.TokenExpired?
  {
  }

  /** A success caches the new token, and forgets every refusal and failure before it. */
  lemma SuccessForgets(s: Sys, l: Label)
    requires Step(s, l).Some? && Installs(s, l)
    ensures var (s', p) := (Step(s, l).value, s.tasks[l.t].phase);
            && (p.NbInstall? || p.BSave?) && s'.st == State(Some(p.newToken), None, None) && !s'.flag
  {
  }

  // ----- the caller that started a refresh -----

  /** What a step records as the outcome of its task, if it records one. */
  function Outcome(s: Sys, l: Label): (r: Option<Answer>) {
    if l.Teardown? then Some(Err(Auth(Internal("token refresh task terminated before completion"))))
    else if !IsTaskLabel(l) || l.t >= |s.tasks| then None
    else if Installs(s, l) then
      (match s.tasks[l.t].phase
       case NbInstall(newToken) => Some(Ok(newToken.access))
       case BSave(newToken) => Some(Ok(newToken.access))
       case _ => None)
    else if RecordsFailure(s, l) then
      // A background failure that did not cost the credential leaves the token to hand out while it lasts.
      if l.FailHold? && !FailureOf(s, l).Store? && s.st.token.Some? && l.later < s.st.token.value.expiresAt
      then Some(Ok(s.st.token.value.access)) else Some(Err(Auth(FailureOf(s, l))))
    else None
  }

  /** The outcome of task `t` in a run. */
  function OutcomeOf(s0: Sys, ls: seq<Label>, t: nat): (r: Option<Answer>)
    requires Run(s0, ls).Some?
  {
    if ls == [] then None
    else
      var s, l := Run(s0, ls[..|ls| - 1]).value, ls[|ls| - 1];
      if IsTaskLabel(l) && l.t == t && Outcome(s, l).Some? then Outcome(s, l) else OutcomeOf(s0, ls[..|ls| - 1], t)
  }

  predicate Tells(p: TaskPhase, outcome: Option<Answer>) {
    match p
    case NbNotify(answer) => outcome == Some(answer)
    case Ended(answer) => outcome == Some(answer)
    case Unwinding(_) => outcome == Some(TASK_LOST)
    case _ => true
  }

  lemma TaskStepTells(s: Sys, l: Label, outcome: Option<Answer>)
    requires Inv(s) && IsTaskLabel(l) && Step(s, l).Some? && Tells(s.tasks[l.t].phase, outcome)
    ensures Tells(Step(s, l).value.tasks[l.t].phase, if Outcome(s, l).Some? then Outcome(s, l) else outcome)
  {
  }

  ghost predicate AllTell(s0: Sys, ls: seq<Label>)
    requires Run(s0, ls).Some?
  {
    var s := Run(s0, ls).value;
    forall t :: 0 <= t < |s.tasks| ==> Tells(s.tasks[t].phase, OutcomeOf(s0, ls, t))
  }

  lemma {:induction false} RunTells(kind: Refresher, token: Option<Token>, ls: seq<Label>)
    requires Run(Initial(kind, token), ls).Some?
    ensures AllTell(Initial(kind, token), ls)
  {
    if ls != [] {
      var s0, before, l := Initial(kind, token), ls[..|ls| - 1], ls[|ls| - 1];
      RunTells(kind, token, before);
      RunKeepsInv(kind, token, before);
      var s := Run(s0, before).value;
      if IsTaskLabel(l) {
        TaskShape(s, l);
        TaskStepTells(s, l, OutcomeOf(s0, before, l.t));
      } else {
        CallShape(s, l);
        TasksStay(s, Step(s, l).value);
      }
    }
  }

  lemma TasksStay(s: Sys, s': Sys)
    requires s'.tasks == s.tasks || (|s'.tasks| == |s.tasks| + 1 && s'.tasks[..|s.tasks|] == s.tasks && s'.tasks[|s.tasks|].phase.Spawned?)
    ensures forall t :: 0 <= t < |s'.tasks| ==> (t < |s.tasks| && s'.tasks[t] == s.tasks[t]) || s'.tasks[t].phase.Spawned?
  {
    forall t | 0 <= t < |s'.tasks| ensures (t < |s.tasks| && s'.tasks[t] == s.tasks[t]) || s'.tasks[t].phase.Spawned? {
      if s'.tasks != s.tasks && t < |s.tasks| { assert s'.tasks[..|s.tasks|][t] == s.tasks[t]; }
    }
  }

  /**
    In every run the caller that started a refresh gets what that refresh came to: the text
    of the new token; else its own error, but for a background failure that left a token
    still valid, which is handed out; or that it was lost.
   */
  lemma InitiatorGetsItsOutcome(kind: Refresher, token: Option<Token>, ls: seq<Label>, c: nat)
    requires Run(Initial(kind, token), ls).Some? && Step(Run(Initial(kind, token), ls).value, Collect(c)).Some?
    ensures var s0 := Initial(kind, token);
            var s := Run(s0, ls).value;
            && s.tasks[s.calls[c].task].initiator == c
            && OutcomeOf(s0, ls, s.calls[c].task).Some?
            && Step(s, Collect(c)).value.calls[c] == Finished(OutcomeOf(s0, ls, s.calls[c].task).value)
  {
    RunTells(kind, token, ls);
    RunKeepsInv(kind, token, ls);
    var s := Run(Initial(kind, token), ls).value;
    assert Tells(s.tasks[s.calls[c].task].phase, OutcomeOf(Initial(kind, token), ls, s.calls[c].task));
  }
}
