/**
  What an engine can ever hold: tokens and credentials come in from the store and
  from exchanges, and nothing the engine does makes up new ones.
 */
module EngineContents {
  import opened Prelude
  import opened AuthErrors
  import opened Tokens
  import opened RefreshState
  import opened RefreshProtocol

  type TokenTest = Token -> bool
  type CredentialTest = string -> bool

  /** The two tests fit together: taking a credential out and putting one back stays inside them. */
  ghost predicate Fits(good: TokenTest, known: CredentialTest) {
    && (forall t: Token :: good(t) ==> good(t.Drained()) && (t.refresh.Some? ==> known(t.refresh.value)))
    && (forall t: Token, v: string :: good(t) && known(v) ==> good(Restore(t, RefreshToken(v))))
  }

  predicate GoodOption(t: Option<Token>, good: TokenTest) { t.Some? ==> good(t.value) }

  predicate KnownCredential(credential: Credential, known: CredentialTest) {
    credential.RefreshToken? ==> known(credential.value)
  }

  predicate GoodPhase(p: TaskPhase, good: TokenTest, known: CredentialTest) {
    match p
    case Spawned(credential) => KnownCredential(credential, known)
    case NbExchange(credential, _, _) => KnownCredential(credential, known)
    case BExchange(credential) => KnownCredential(credential, known)
    case NbFail(credential, _, _, _) => KnownCredential(credential, known)
    case NbSave(newToken) => good(newToken)
    case NbInstall(newToken) => good(newToken)
    case BSave(newToken) => good(newToken)
    case _ => true
  }

  /** Every token and credential anywhere in the engine passes its test. */
  ghost predicate HoldsOnly(s: Sys, good: TokenTest, known: CredentialTest) {
    && GoodOption(s.st.token, good)
    && (forall c :: 0 <= c < |s.calls| && s.calls[c].HasLoaded? ==> GoodOption(s.calls[c].loaded, good))
    && (forall t :: 0 <= t < |s.tasks| ==> GoodPhase(s.tasks[t].phase, good, known))
  }

  /** What a step brings in from outside passes too. */
  predicate BringsOnly(l: Label, good: TokenTest) {
    (l.StoreRead? ==> GoodOption(l.loaded, good)) && (l.ExchangeOk? ==> good(l.newToken))
  }

  lemma HoldKeepsContents(kind: Refresher, st: State, flag: bool, now: U64, good: TokenTest, known: CredentialTest)
    requires Fits(good, known) && GoodOption(st.token, good)
    ensures var (st', verdict) := Decide(kind, st, flag, now);
            GoodOption(st'.token, good) && (verdict.Exchange? ==> KnownCredential(verdict.credential, known))
  {
  }

  lemma ConcludeKeepsContents(s: Sys, c: nat, r: (State, Verdict), good: TokenTest, known: CredentialTest)
    requires HoldsOnly(s, good, known) && c < |s.calls|
    requires GoodOption(r.0.token, good) && (r.1.Exchange? ==> KnownCredential(r.1.credential, known))
    ensures HoldsOnly(Conclude(s, c, r), good, known)
  {
  }

  lemma CallStepKeepsContents(s: Sys, l: Label, good: TokenTest, known: CredentialTest)
    requires Fits(good, known) && HoldsOnly(s, good, known) && BringsOnly(l, good)
    requires !IsTaskLabel(l) && Step(s, l).Some?
    ensures HoldsOnly(Step(s, l).value, good, known)
  {
    if l.EnterFirst? {
      HoldKeepsContents(s.kind, s.st, s.flag, l.now, good, known);
      ConcludeKeepsContents(s, l.c, FirstHold(s.kind, s.st, s.flag, l.now), good, known);
    } else if l.EnterAgain? {
      var loaded := s.calls[l.c].loaded;
      HoldKeepsContents(s.kind, if s.st.token.None? then s.st.(token := loaded) else s.st, s.flag, l.now, good, known);
      ConcludeKeepsContents(s, l.c, SecondHold(s.kind, s.st, s.flag, loaded, l.now), good, known);
    }
  }

  lemma TaskStepKeepsContents(s: Sys, l: Label, good: TokenTest, known: CredentialTest)
    requires Fits(good, known) && HoldsOnly(s, good, known) && BringsOnly(l, good)
    requires IsTaskLabel(l) && Step(s, l).Some?
    ensures HoldsOnly(Step(s, l).value, good, known)
  {
    TaskShape(s, l);
    assert GoodPhase(s.tasks[l.t].phase, good, known);
    MovedTaskKeepsContents(s, l, good, known);
  }

  lemma MovedTaskKeepsContents(s: Sys, l: Label, good: TokenTest, known: CredentialTest)
    requires Fits(good, known) && BringsOnly(l, good) && IsTaskLabel(l) && Step(s, l).Some?
    requires GoodOption(s.st.token, good) && GoodPhase(s.tasks[l.t].phase, good, known)
    ensures var s' := Step(s, l).value;
            GoodOption(s'.st.token, good) && GoodPhase(s'.tasks[l.t].phase, good, known)
  {
  }

  lemma StepKeepsContents(s: Sys, l: Label, good: TokenTest, known: CredentialTest)
    requires Fits(good, known) && HoldsOnly(s, good, known) && BringsOnly(l, good) && Step(s, l).Some?
    ensures HoldsOnly(Step(s, l).value, good, known)
  {
    if IsTaskLabel(l) { TaskStepKeepsContents(s, l, good, known); } else { CallStepKeepsContents(s, l, good, known); }
  }

  // ----- answers -----

  type AnswerTest = string -> bool

  predicate GoodAnswer(a: Answer, fine: AnswerTest) { a.Ok? ==> fine(a.value) }

  predicate GoodTaskAnswer(p: TaskPhase, fine: AnswerTest) {
    match p
    case NbExchange(_, access, _) => fine(access)
    case NbFail(_, access, _, _) => fine(access)
    case NbNotify(answer) => GoodAnswer(answer, fine)
    case Ended(answer) => GoodAnswer(answer, fine)
    case _ => true
  }

  /** Every text handed out, or about to be, passes the test. */
  ghost predicate AnswersOnly(s: Sys, fine: AnswerTest) {
    && (forall c :: 0 <= c < |s.calls| && s.calls[c].Finished? ==> GoodAnswer(s.calls[c].answer, fine))
    && (forall t :: 0 <= t < |s.tasks| ==> GoodTaskAnswer(s.tasks[t].phase, fine))
  }

  lemma CallStepKeepsAnswers(s: Sys, l: Label, good: TokenTest, known: CredentialTest, fine: AnswerTest)
    requires HoldsOnly(s, good, known) && AnswersOnly(s, fine) && !IsTaskLabel(l) && Step(s, l).Some?
    requires forall t :: good(t) ==> fine(t.access)
    ensures AnswersOnly(Step(s, l).value, fine)
  {
    var s' := Step(s, l).value;
    CallShape(s, l);
    if !l.Begin? {
      CallAnswersFine(s, l, good, known, fine);
    }
    forall t | 0 <= t < |s'.tasks| ensures GoodTaskAnswer(s'.tasks[t].phase, fine) {
      if t < |s.tasks| && s'.tasks != s.tasks { assert s'.tasks[..|s.tasks|][t] == s.tasks[t]; }
    }
  }

  lemma CallAnswersFine(s: Sys, l: Label, good: TokenTest, known: CredentialTest, fine: AnswerTest)
    requires HoldsOnly(s, good, known) && AnswersOnly(s, fine) && !IsTaskLabel(l) && !l.Begin? && Step(s, l).Some?
    requires forall t :: good(t) ==> fine(t.access)
    ensures var p := Step(s, l).value.calls[l.c]; p.Finished? ==> GoodAnswer(p.answer, fine)
  {
  }

  lemma TaskStepKeepsAnswers(s: Sys, l: Label, good: TokenTest, known: CredentialTest, fine: AnswerTest)
    requires HoldsOnly(s, good, known) && AnswersOnly(s, fine) && IsTaskLabel(l) && Step(s, l).Some?
    requires forall t :: good(t) ==> fine(t.access)
    ensures AnswersOnly(Step(s, l).value, fine)
  {
    TaskShape(s, l);
    assert GoodPhase(s.tasks[l.t].phase, good, known) && GoodTaskAnswer(s.tasks[l.t].phase, fine);
    assert GoodTaskAnswer(Step(s, l).value.tasks[l.t].phase, fine);
  }

  lemma StepKeepsAnswers(s: Sys, l: Label, good: TokenTest, known: CredentialTest, fine: AnswerTest)
    requires HoldsOnly(s, good, known) && AnswersOnly(s, fine) && Step(s, l).Some?
    requires forall t :: good(t) ==> fine(t.access)
    ensures AnswersOnly(Step(s, l).value, fine)
  {
    if IsTaskLabel(l) { TaskStepKeepsAnswers(s, l, good, known, fine); }
    else { CallStepKeepsAnswers(s, l, good, known, fine); }
  }

  // ----- an engine that has answered well holds a token -----

  predicate NoText(access: string) { false }

  /** With nothing cached, nothing has been handed out. */
  ghost predicate OkNeedsToken(s: Sys) {
    s.st.token.None? ==> AnswersOnly(s, NoText)
  }

  lemma TokenStays(s: Sys, l: Label)
    requires Step(s, l).Some? && s.st.token.Some?
    ensures Step(s, l).value.st.token.Some?
  {
  }

  lemma CallStepNeedsToken(s: Sys, l: Label)
    requires s.st.token.None? && AnswersOnly(s, NoText) && !IsTaskLabel(l) && Step(s, l).Some?
    requires Step(s, l).value.st.token.None?
    ensures AnswersOnly(Step(s, l).value, NoText)
  {
    var s' := Step(s, l).value;
    CallShape(s, l);
    if !l.Begin? { ColdCallGetsNoText(s, l); }
    forall t | 0 <= t < |s'.tasks| ensures GoodTaskAnswer(s'.tasks[t].phase, NoText) {
      if t < |s.tasks| && s'.tasks != s.tasks { assert s'.tasks[..|s.tasks|][t] == s.tasks[t]; }
    }
  }

  lemma ColdCallGetsNoText(s: Sys, l: Label)
    requires s.st.token.None? && AnswersOnly(s, NoText) && !IsTaskLabel(l) && !l.Begin? && Step(s, l).Some?
    requires Step(s, l).value.st.token.None?
    ensures var p := Step(s, l).value.calls[l.c]; p.Finished? ==> GoodAnswer(p.answer, NoText)
  {
  }

  lemma StepKeepsNeedsToken(s: Sys, l: Label)
    requires OkNeedsToken(s) && Step(s, l).Some?
    ensures OkNeedsToken(Step(s, l).value)
  {
    if s.st.token.Some? {
      TokenStays(s, l);
    } else if Step(s, l).value.st.token.None? {
      if IsTaskLabel(l) {
        TaskShape(s, l);
        assert GoodTaskAnswer(s.tasks[l.t].phase, NoText);
        assert GoodTaskAnswer(Step(s, l).value.tasks[l.t].phase, NoText);
      } else {
        CallStepNeedsToken(s, l);
      }
    }
  }
}
