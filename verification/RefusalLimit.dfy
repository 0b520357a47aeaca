/**
  The 60-second memory of an account refusal: how often a refused client asks again.
 */
module RefusalLimit {
  import opened Prelude
  import opened AuthErrors
  import opened Tokens
  import opened RefreshState
  import opened RefreshProtocol
  import opened RefreshSafety
  import opened RefreshLiveness

  predicate Starts(s: Sys, l: Label) {
    Step(s, l).Some? && |Step(s, l).value.tasks| > |s.tasks|
  }

  predicate ReadsStore(s: Sys, l: Label) {
    Step(s, l).Some? && l.EnterFirst? && Step(s, l).value.calls[l.c].ReadingStore?
  }

  predicate IsFresh(denial: Option<StickyDenial>, now: U64) {
    denial.Some? && !denial.value.IsStale(now)
  }

  /** In every state at all: an exchange or a store read starts only if no refusal is fresh at that hold's reading. */
  lemma StartNeedsNoFreshRefusal(s: Sys, l: Label)
    requires Starts(s, l) || ReadsStore(s, l)
    ensures (l.EnterFirst? || l.EnterAgain?) && !IsFresh(s.st.denial, l.now)
  {
    if IsTaskLabel(l) { TaskShape(s, l); }
  }

  // ----- readings and refusals of a run -----

  /** The readings a step takes, first and last, if it takes any. */
  function Readings(s: Sys, l: Label): (r: Option<(U64, U64)>) {
    match l
    case EnterFirst(_, now) => Some((now, now))
    case EnterAgain(_, now) => Some((now, now))
    case ReadClock(_, now) => Some((now, now))
    case Poll(_, now) => Some((now, now))
    case FailHold(_, now, later) => Some((now, later))
    case ExchangeErr(_, _, now) => if RecordsFailure(s, l) then Some((now, now)) else None
    case _ => None
  }

  /** The latest reading of a run. */
  function Clock(s0: Sys, ls: seq<Label>): (k: U64)
    requires Run(s0, ls).Some?
  {
    if ls == [] then 0
    else
      var r := Readings(Run(s0, ls[..|ls| - 1]).value, ls[|ls| - 1]);
      if r.Some? then r.value.1 else Clock(s0, ls[..|ls| - 1])
  }

  /** The clock never runs backwards in this run. */
  predicate SteadyClock(s0: Sys, ls: seq<Label>)
    requires Run(s0, ls).Some?
  {
    ls == [] ||
    (SteadyClock(s0, ls[..|ls| - 1]) &&
     var r := Readings(Run(s0, ls[..|ls| - 1]).value, ls[|ls| - 1]);
     r.Some? ==> Clock(s0, ls[..|ls| - 1]) <= r.value.0 <= r.value.1)
  }

  /**
    A woken caller judges the refusal by a reading it took before it locked. It is untimely
    when it is about to answer with no usable token, its reading is older than the refusal,
    and the refusal is still fresh: the code then takes the clock for one that ran backwards.
   */
  predicate IsUntimely(s: Sys, l: Label, clock: U64) {
    && l.AnswerWoken? && l.c < |s.calls| && s.calls[l.c].WokenAt?
    && s.st.denial.Some? && s.calls[l.c].now < s.st.denial.value.recordedAt
    && clock < s.st.denial.value.recordedAt + DENIAL_TTL_SECS
    && !(s.st.token.Some? && s.st.token.value.IsUsableAt(s.calls[l.c].now))
  }

  /** No woken caller of the run answered untimely. */
  predicate AnswersInTime(s0: Sys, ls: seq<Label>)
    requires Run(s0, ls).Some?
  {
    ls == [] ||
    (AnswersInTime(s0, ls[..|ls| - 1]) &&
     !IsUntimely(Run(s0, ls[..|ls| - 1]).value, ls[|ls| - 1], Clock(s0, ls[..|ls| - 1])))
  }

  /** No woken caller answered untimely since the last refusal of the run, or ever where there is none. */
  predicate InTimeSinceRefusal(s0: Sys, ls: seq<Label>)
    requires Run(s0, ls).Some?
  {
    ls == [] ||
    var s, l := Run(s0, ls[..|ls| - 1]).value, ls[|ls| - 1];
    Refuses(s, l) || (InTimeSinceRefusal(s0, ls[..|ls| - 1]) && !IsUntimely(s, l, Clock(s0, ls[..|ls| - 1])))
  }

  predicate Refuses(s: Sys, l: Label) {
    RecordsFailure(s, l) && IsAccountRefusal(FailureOf(s, l))
  }

  /** When the account refusals of a run were recorded. */
  function Refusals(s0: Sys, ls: seq<Label>): (r: seq<U64>)
    requires Run(s0, ls).Some?
  {
    if ls == [] then []
    else
      var s, l := Run(s0, ls[..|ls| - 1]).value, ls[|ls| - 1];
      Refusals(s0, ls[..|ls| - 1]) + if Refuses(s, l) then [l.now] else []
  }

  ghost predicate SomeInFlight(s: Sys) {
    exists t :: 0 <= t < |s.tasks| && InFlight(s.tasks[t].phase)
  }

  ghost predicate IsSpaced(r: seq<U64>) {
    forall i :: 0 < i < |r| ==> r[i] >= r[i - 1] + DENIAL_TTL_SECS
  }

  /** What is remembered is the last refusal, and nothing was read after the clock; so in every run with a steady clock. */
  ghost predicate Recorded(s: Sys, refusals: seq<U64>, clock: U64) {
    && (s.st.denial.Some? ==> refusals != [] && s.st.denial.value.recordedAt == refusals[|refusals| - 1] <= clock)
    && (forall c :: 0 <= c < |s.calls| && s.calls[c].WokenAt? ==> s.calls[c].now <= clock)
  }

  /** The last refusal is at least sixty seconds old if it is forgotten, or a refresh is in flight. */
  ghost predicate Lapsed(s: Sys, refusals: seq<U64>, clock: U64) {
    refusals != [] && (s.st.denial.None? || SomeInFlight(s)) ==> clock >= refusals[|refusals| - 1] + DENIAL_TTL_SECS
  }

  ghost predicate Remembered(s: Sys, refusals: seq<U64>, clock: U64) {
    Recorded(s, refusals, clock) && Lapsed(s, refusals, clock) && IsSpaced(refusals)
  }

  lemma HoldForgetsOnlyTheStale(s: Sys, l: Label)
    requires (l.EnterFirst? || l.EnterAgain?) && Step(s, l).Some?
    ensures var s' := Step(s, l).value;
            && (s'.st.denial == s.st.denial || (s'.st.denial.None? && !IsFresh(s.st.denial, l.now)))
            && (|s'.tasks| > |s.tasks| ==> s'.st.denial.None?)
            && !s'.calls[l.c].WokenAt?
  {
  }

  lemma CallStepRecords(s: Sys, l: Label, refusals: seq<U64>, clock: U64, clock': U64)
    requires !IsTaskLabel(l) && Step(s, l).Some? && Recorded(s, refusals, clock)
    requires if l.EnterFirst? || l.EnterAgain? || l.ReadClock? then clock <= clock' == l.now else clock == clock'
    ensures Recorded(Step(s, l).value, refusals, clock')
  {
    CallShape(s, l);
    if l.EnterFirst? || l.EnterAgain? { HoldForgetsOnlyTheStale(s, l); }
  }

  lemma CallStepLapses(s: Sys, l: Label, refusals: seq<U64>, clock: U64, clock': U64)
    requires Inv(s) && !IsTaskLabel(l) && Step(s, l).Some? && Recorded(s, refusals, clock) && Lapsed(s, refusals, clock)
    requires !IsUntimely(s, l, clock)
    requires if l.EnterFirst? || l.EnterAgain? || l.ReadClock? then clock <= clock' == l.now else clock == clock'
    ensures Lapsed(Step(s, l).value, refusals, clock')
  {
    var s' := Step(s, l).value;
    CallShape(s, l);
    if l.EnterFirst? || l.EnterAgain? { HoldForgetsOnlyTheStale(s, l); }
    if s'.tasks == s.tasks { assert SomeInFlight(s') == SomeInFlight(s); }
  }

  /** What a task's step does to the remembered refusal. */
  lemma TaskTouchesDenial(s: Sys, l: Label)
    requires IsTaskLabel(l) && Step(s, l).Some?
    ensures var s' := Step(s, l).value;
            && (RecordsFailure(s, l) ==> InFlight(s.tasks[l.t].phase) && !InFlight(s'.tasks[l.t].phase))
            && (if Refuses(s, l) then s'.st.denial.Some? && s'.st.denial.value.recordedAt == l.now
                else s'.st.denial == s.st.denial || (s'.st.denial.None? && InFlight(s.tasks[l.t].phase)))
  {
  }

  lemma TaskStepRecords(s: Sys, l: Label, refusals: seq<U64>, clock: U64, clock': U64)
    requires IsTaskLabel(l) && Step(s, l).Some? && Recorded(s, refusals, clock)
    requires clock <= clock' && (Refuses(s, l) ==> clock <= l.now <= clock')
    ensures Recorded(Step(s, l).value, refusals + (if Refuses(s, l) then [l.now] else []), clock')
  {
    TaskShape(s, l);
    TaskTouchesDenial(s, l);
  }

  /** A refusal is remembered afresh, whatever was forgotten before it. */
  lemma TaskStepLapses(s: Sys, l: Label, refusals: seq<U64>, clock: U64, clock': U64)
    requires Inv(s) && IsTaskLabel(l) && Step(s, l).Some? && (Refuses(s, l) || Lapsed(s, refusals, clock))
    requires clock <= clock'
    ensures Lapsed(Step(s, l).value, refusals + (if Refuses(s, l) then [l.now] else []), clock')
  {
    var s' := Step(s, l).value;
    TaskShape(s, l);
    TaskTouchesDenial(s, l);
    if SomeInFlight(s') {
      var t :| 0 <= t < |s'.tasks| && InFlight(s'.tasks[t].phase);
      assert InFlight(s.tasks[t].phase);
    }
  }

  /** The clock after a step. */
  function ClockAfter(s: Sys, l: Label, clock: U64): (k: U64) {
    if Readings(s, l).Some? then Readings(s, l).value.1 else clock
  }

  predicate IsSteadyStep(s: Sys, l: Label, clock: U64) {
    var r := Readings(s, l); r.Some? ==> clock <= r.value.0 <= r.value.1
  }

  lemma StepRecords(s: Sys, l: Label, refusals: seq<U64>, clock: U64)
    requires Step(s, l).Some? && Recorded(s, refusals, clock) && IsSteadyStep(s, l, clock)
    ensures Recorded(Step(s, l).value, refusals + (if Refuses(s, l) then [l.now] else []), ClockAfter(s, l, clock))
  {
    if IsTaskLabel(l) {
      TaskStepRecords(s, l, refusals, clock, ClockAfter(s, l, clock));
    } else {
      CallStepRecords(s, l, refusals, clock, ClockAfter(s, l, clock));
      assert refusals + [] == refusals;
    }
  }

  lemma StepLapses(s: Sys, l: Label, refusals: seq<U64>, clock: U64)
    requires Inv(s) && Step(s, l).Some? && Recorded(s, refusals, clock) && IsSteadyStep(s, l, clock)
    requires Refuses(s, l) || (Lapsed(s, refusals, clock) && !IsUntimely(s, l, clock))
    ensures Lapsed(Step(s, l).value, refusals + (if Refuses(s, l) then [l.now] else []), ClockAfter(s, l, clock))
  {
    if IsTaskLabel(l) {
      TaskStepLapses(s, l, refusals, clock, ClockAfter(s, l, clock));
    } else {
      CallStepLapses(s, l, refusals, clock, ClockAfter(s, l, clock));
      assert refusals + [] == refusals;
    }
  }

  lemma StepSpaces(s: Sys, l: Label, refusals: seq<U64>, clock: U64)
    requires Step(s, l).Some? && Lapsed(s, refusals, clock) && IsSpaced(refusals) && IsSteadyStep(s, l, clock)
    ensures IsSpaced(refusals + if Refuses(s, l) then [l.now] else [])
  {
    if Refuses(s, l) {
      TaskTouchesDenial(s, l);
      assert SomeInFlight(s);
    }
  }

  lemma {:induction false} RunRecords(s0: Sys, ls: seq<Label>)
    requires Run(s0, ls).Some? && SteadyClock(s0, ls) && Recorded(s0, [], 0)
    ensures Recorded(Run(s0, ls).value, Refusals(s0, ls), Clock(s0, ls))
  {
    if ls != [] {
      var before := ls[..|ls| - 1];
      RunRecords(s0, before);
      StepRecords(Run(s0, before).value, ls[|ls| - 1], Refusals(s0, before), Clock(s0, before));
    }
  }

  lemma {:induction false} RunLapses(kind: Refresher, token: Option<Token>, ls: seq<Label>)
    requires Run(Initial(kind, token), ls).Some? && SteadyClock(Initial(kind, token), ls)
    requires InTimeSinceRefusal(Initial(kind, token), ls)
    ensures var s0 := Initial(kind, token);
            Recorded(Run(s0, ls).value, Refusals(s0, ls), Clock(s0, ls)) &&
            Lapsed(Run(s0, ls).value, Refusals(s0, ls), Clock(s0, ls))
  {
    var s0 := Initial(kind, token);
    RunRecords(s0, ls);
    if ls != [] {
      var before, l := ls[..|ls| - 1], ls[|ls| - 1];
      RunRecords(s0, before);
      RunKeepsInv(kind, token, before);
      if !Refuses(Run(s0, before).value, l) { RunLapses(kind, token, before); }
      StepLapses(Run(s0, before).value, l, Refusals(s0, before), Clock(s0, before));
    }
  }

  lemma {:induction false} InTimeIsSinceRefusal(s0: Sys, ls: seq<Label>)
    requires Run(s0, ls).Some? && AnswersInTime(s0, ls)
    ensures InTimeSinceRefusal(s0, ls)
  {
    if ls != [] { InTimeIsSinceRefusal(s0, ls[..|ls| - 1]); }
  }

  lemma {:induction false} RunRemembers(kind: Refresher, token: Option<Token>, ls: seq<Label>)
    requires Run(Initial(kind, token), ls).Some? && SteadyClock(Initial(kind, token), ls)
    requires AnswersInTime(Initial(kind, token), ls)
    ensures var s0 := Initial(kind, token);
            Remembered(Run(s0, ls).value, Refusals(s0, ls), Clock(s0, ls))
  {
    var s0 := Initial(kind, token);
    InTimeIsSinceRefusal(s0, ls);
    RunLapses(kind, token, ls);
    if ls != [] {
      var before := ls[..|ls| - 1];
      RunRemembers(kind, token, before);
      StepSpaces(Run(s0, before).value, ls[|ls| - 1], Refusals(s0, before), Clock(s0, before));
    }
  }

  /** The rate limit at one state. */
  lemma StartWaits(s: Sys, l: Label, refusals: seq<U64>, clock: U64)
    requires Recorded(s, refusals, clock) && Lapsed(s, refusals, clock)
    requires (Starts(s, l) || ReadsStore(s, l)) && (l.EnterFirst? || l.EnterAgain? ==> clock <= l.now)
    ensures l.EnterFirst? || l.EnterAgain?
    ensures refusals != [] ==> l.now >= refusals[|refusals| - 1] + DENIAL_TTL_SECS
  {
    StartNeedsNoFreshRefusal(s, l);
  }

  /** A start that the run allows next, at a reading no earlier than its clock. */
  predicate MayStartNext(s: Sys, l: Label, clock: U64) {
    (Starts(s, l) || ReadsStore(s, l)) && (l.EnterFirst? || l.EnterAgain? ==> clock <= l.now)
  }

  predicate WaitsFor(l: Label, refusals: seq<U64>) {
    (l.EnterFirst? || l.EnterAgain?) && (refusals != [] ==> l.now - refusals[|refusals| - 1] >= 60)
  }

  /**
    The rate limit: with a clock that never runs backwards and no untimely answer since
    the last refusal, the next exchange (and the next store read with nothing cached)
    comes at least sixty seconds after that refusal.
   */
  lemma NextExchangeWaitsItsTurn(kind: Refresher, token: Option<Token>, ls: seq<Label>, l: Label)
    requires Run(Initial(kind, token), ls).Some? && SteadyClock(Initial(kind, token), ls)
    requires InTimeSinceRefusal(Initial(kind, token), ls)
    requires MayStartNext(Run(Initial(kind, token), ls).value, l, Clock(Initial(kind, token), ls))
    ensures WaitsFor(l, Refusals(Initial(kind, token), ls))
  {
    var s0 := Initial(kind, token);
    RunLapses(kind, token, ls);
    StartWaits(Run(s0, ls).value, l, Refusals(s0, ls), Clock(s0, ls));
  }

  lemma {:induction false} SpacedSpan(r: seq<U64>, k: nat)
    requires IsSpaced(r) && k < |r|
    ensures r[k] - r[0] >= 60 * k
  {
    if k > 0 { SpacedSpan(r, k - 1); }
  }

  /** So k + 1 refusals take at least 60 k seconds. */
  lemma RefusalsAreSpread(kind: Refresher, token: Option<Token>, ls: seq<Label>, k: nat)
    requires Run(Initial(kind, token), ls).Some? && SteadyClock(Initial(kind, token), ls)
    requires AnswersInTime(Initial(kind, token), ls)
    requires k < |Refusals(Initial(kind, token), ls)|
    ensures var r := Refusals(Initial(kind, token), ls); r[k] - r[0] >= 60 * k
  {
    RunRemembers(kind, token, ls);
    SpacedSpan(Refusals(Initial(kind, token), ls), k);
  }

  // ----- and no further: an untimely answer lifts the limit -----

  /** In a run that met the limit so far, a woken caller's answer keeps it exactly when it is timely. */
  lemma AnswerKeepsTheLimit(s: Sys, l: Label, refusals: seq<U64>, clock: U64)
    requires Inv(s) && l.AnswerWoken? && Step(s, l).Some? && Remembered(s, refusals, clock)
    ensures Remembered(Step(s, l).value, refusals, clock) <==> !IsUntimely(s, l, clock)
  {
    if IsUntimely(s, l, clock) {
      assert Step(s, l).value.st.denial.None?;
    } else {
      CallStepRecords(s, l, refusals, clock, clock);
      CallStepLapses(s, l, refusals, clock, clock);
    }
  }

  /**
    After an untimely answer the next call asks again at once, before the refusal is sixty
    seconds old, exactly when nothing is cached, or the flag is down and there is a
    credential. A flag that is stuck up and a device session that lost its credential make
    the answer harmless.
   */
  lemma UntimelyAnswerLiftsTheLimit(s: Sys, l: Label, refusals: seq<U64>, clock: U64)
    requires Recorded(s, refusals, clock) && Step(s, l).Some? && IsUntimely(s, l, clock)
    ensures refusals != [] && clock - refusals[|refusals| - 1] < 60
    ensures var s2 := Step(Step(s, l).value, Begin).value;
            (Starts(s2, EnterFirst(|s.calls|, clock)) || ReadsStore(s2, EnterFirst(|s.calls|, clock))) <==>
            (s.st.token.None? || (!s.flag && (s.kind.SelfAuthenticating? || s.st.token.value.refresh.Some?)))
  {
    var s2 := Step(Step(s, l).value, Begin).value;
    assert s2.st.denial.None? && s2.st.token == s.st.token && s2.calls[|s.calls|].WantLock?;
  }

  /** A run, its clock and its refusals, one label longer. */
  lemma OneLabelMore(s0: Sys, ls: seq<Label>, l: Label)
    requires Run(s0, ls).Some? && Step(Run(s0, ls).value, l).Some? && SteadyClock(s0, ls)
    requires var r := Readings(Run(s0, ls).value, l); r.Some? ==> Clock(s0, ls) <= r.value.0 <= r.value.1
    ensures Run(s0, ls + [l]) == Step(Run(s0, ls).value, l) && SteadyClock(s0, ls + [l])
    ensures var s, r := Run(s0, ls).value, Readings(Run(s0, ls).value, l);
            && Clock(s0, ls + [l]) == (if r.Some? then r.value.1 else Clock(s0, ls))
            && Refusals(s0, ls + [l]) == Refusals(s0, ls) + if Refuses(s, l) then [l.now] else []
  {
    assert (ls + [l])[..|ls|] == ls;
  }

  // ----- such a run -----

  /** A state with the clock and the refusals of the run that led to it. */
  datatype Trace = Trace(s: Sys, clock: U64, refusals: seq<U64>)

  /** One step of a run with a steady clock in which nothing is torn down or cancelled. */
  function TraceStep(tr: Trace, l: Label): (r: Option<Trace>) {
    var s' := Step(tr.s, l);
    if s'.None? || l.Teardown? || l.Cancel? then None
    else
      var refusals := tr.refusals + if Refuses(tr.s, l) then [l.now] else [];
      var r := Readings(tr.s, l);
      if r.None? then Some(Trace(s'.value, tr.clock, refusals))
      else if tr.clock <= r.value.0 <= r.value.1 then Some(Trace(s'.value, r.value.1, refusals))
      else None
  }

  ghost predicate IsTraceClosed(traces: iset<Trace>) {
    forall tr, l :: tr in traces && TraceStep(tr, l).Some? ==> TraceStep(tr, l).value in traces
  }

  ghost predicate Traces(s0: Sys, tr: Trace) {
    forall traces: iset<Trace> :: Trace(s0, 0, []) in traces && IsTraceClosed(traces) ==> tr in traces
  }

  lemma TracesNext(s0: Sys, tr: Trace, l: Label) returns (tr': Trace)
    requires Traces(s0, tr) && TraceStep(tr, l).Some?
    ensures tr' == TraceStep(tr, l).value && Traces(s0, tr')
  {
    tr' := TraceStep(tr, l).value;
  }

  predicate IsUndisturbed(ls: seq<Label>) {
    forall i :: 0 <= i < |ls| ==> !ls[i].Teardown? && !ls[i].Cancel?
  }

  ghost predicate TracedBy(s0: Sys, ls: seq<Label>, tr: Trace) {
    && Run(s0, ls) == Some(tr.s) && SteadyClock(s0, ls) && IsUndisturbed(ls)
    && Clock(s0, ls) == tr.clock && Refusals(s0, ls) == tr.refusals
  }

  lemma TracesByRun(s0: Sys, tr: Trace)
    requires Traces(s0, tr)
    ensures exists ls :: TracedBy(s0, ls, tr)
  {
    var traces := iset e, ls | TracedBy(s0, ls, e) :: e;
    assert TracedBy(s0, [], Trace(s0, 0, []));
    forall e, l | e in traces && TraceStep(e, l).Some? ensures TraceStep(e, l).value in traces {
      var ls :| TracedBy(s0, ls, e);
      OneLabelMore(s0, ls, l);
      assert TracedBy(s0, ls + [l], TraceStep(e, l).value);
    }
    assert IsTraceClosed(traces);
  }

  lemma FirstCallIsOut(s0: Sys) returns (tr: Trace)
    requires s0 == Initial(SelfAuthenticating, Some(OLD))
    ensures Traces(s0, tr) && tr.clock == 50 && tr.refusals == []
    ensures var s := tr.s;
            && s.kind.SelfAuthenticating? && s.st.token == Some(OLD) && s.st.denial.None? && s.flag && s.lock.Free?
            && |s.calls| == 1 && |s.tasks| == 1 && s.tasks[0].phase.NbExchange? && s.listed == {}
            && s.tasks[0].phase.credential.HeldByRefresher?
  {
    tr := FirstCallEnters(s0);
    tr := TracesNext(s0, tr, Poll(0, 50));
  }

  lemma FirstCallEnters(s0: Sys) returns (tr: Trace)
    requires s0 == Initial(SelfAuthenticating, Some(OLD))
    ensures Traces(s0, tr) && tr.clock == 50 && tr.refusals == []
    ensures var s := tr.s;
            && s.kind.SelfAuthenticating? && s.st.token == Some(OLD) && s.st.denial.None? && s.flag && s.lock == ByTask(0)
            && |s.calls| == 1 && |s.tasks| == 1 && s.tasks[0].phase == Spawned(HeldByRefresher) && s.listed == {}
  {
    tr := TracesNext(s0, Trace(s0, 0, []), Begin);
    tr := TracesNext(s0, tr, EnterFirst(0, 50));
  }

  const OLD := Token("a", 100, None, None)

  /** The first call refreshes in the background and fails; the second waited for it and has read the clock. */
  lemma SecondCallIsWoken(s0: Sys) returns (tr: Trace)
    requires s0 == Initial(SelfAuthenticating, Some(OLD))
    ensures Traces(s0, tr) && tr.clock == 201 && tr.refusals == []
    ensures var s := tr.s;
            && s.kind.SelfAuthenticating? && s.st.token == Some(OLD) && s.st.denial.None? && !s.flag && s.lock.Free?
            && |s.calls| == 2 && s.calls[1] == WokenAt(201) && |s.tasks| == 1
  {
    tr := FirstCallIsOut(s0);
    tr := SecondCallParks(s0, tr);
    tr := FirstCallFails(s0, tr);
    tr := TracesNext(s0, tr, Wake(1));
    tr := TracesNext(s0, tr, ReadClock(1, 201));
  }

  lemma FirstCallFails(s0: Sys, tr: Trace) returns (tr': Trace)
    requires Traces(s0, tr) && tr.s.lock.Free? && |tr.s.tasks| == 1 && tr.s.tasks[0].phase.NbExchange?
    requires tr.clock == 200 && tr.refusals == [] && tr.s.kind.SelfAuthenticating? && tr.s.st.token == Some(OLD)
    requires tr.s.st.denial.None? && tr.s.tasks[0].phase.credential.HeldByRefresher?
    ensures Traces(s0, tr') && tr'.clock == 200 && tr'.refusals == [] && tr'.s.st.denial.None?
    ensures tr'.s.st.token == tr.s.st.token && |tr'.s.tasks| == 1
    ensures tr'.s == tr.s.(st := tr'.s.st, flag := false, tasks := tr'.s.tasks, listed := {})
  {
    tr' := FailureIsRecorded(s0, tr);
    tr' := TracesNext(s0, tr', NotifyAll(0));
  }

  lemma FailureIsRecorded(s0: Sys, tr: Trace) returns (tr': Trace)
    requires Traces(s0, tr) && tr.s.lock.Free? && |tr.s.tasks| == 1 && tr.s.tasks[0].phase.NbExchange?
    requires tr.clock == 200 && tr.refusals == [] && tr.s.kind.SelfAuthenticating? && tr.s.st.token == Some(OLD)
    requires tr.s.st.denial.None? && tr.s.tasks[0].phase.credential.HeldByRefresher?
    ensures Traces(s0, tr') && tr'.clock == 200 && tr'.refusals == [] && tr'.s.st.denial.None?
    ensures tr'.s.st.token == tr.s.st.token && |tr'.s.tasks| == 1 && tr'.s.tasks[0].phase.NbNotify?
    ensures tr'.s == tr.s.(st := tr'.s.st, flag := false, tasks := tr'.s.tasks)
  {
    tr' := TracesNext(s0, tr, ExchangeErr(0, AccessDenied, 200));
    tr' := TracesNext(s0, tr', FailHold(0, 200, 200));
  }

  lemma SecondCallParks(s0: Sys, tr: Trace) returns (tr': Trace)
    requires Traces(s0, tr) && tr.s.flag && tr.s.lock.Free? && |tr.s.calls| == 1 && tr.clock <= 200
    requires tr.s.st.token == Some(OLD)
    ensures Traces(s0, tr') && |tr'.s.calls| == 2 && tr'.s.calls[1].Parked?
    ensures tr' == Trace(tr.s.(calls := tr'.s.calls, listed := tr.s.listed + {1}), 200, tr.refusals)
  {
    tr' := TracesNext(s0, tr, Begin);
    tr' := TracesNext(s0, tr', EnterFirst(1, 200));
    tr' := TracesNext(s0, tr', Register(1));
    tr' := TracesNext(s0, tr', Recheck(1));
    assert tr.refusals + [] == tr.refusals;
  }

  lemma ThirdCallIsOut(s0: Sys) returns (tr: Trace)
    requires s0 == Initial(SelfAuthenticating, Some(OLD))
    ensures Traces(s0, tr) && tr.clock == 202 && tr.refusals == []
    ensures var s := tr.s;
            && s.kind.SelfAuthenticating? && s.st.token == Some(OLD) && s.st.denial.None? && s.lock == ByTask(1)
            && |s.calls| == 3 && s.calls[1] == WokenAt(201) && |s.tasks| == 2 && s.tasks[1].phase == Spawned(HeldByRefresher)
  {
    tr := SecondCallIsWoken(s0);
    tr := TracesNext(s0, tr, Begin);
    tr := TracesNext(s0, tr, EnterFirst(2, 202));
  }

  /** A third call is refused at 205, and the second, which read 201, is about to answer. */
  lemma ThirdCallIsRefused(s0: Sys) returns (tr: Trace)
    requires s0 == Initial(SelfAuthenticating, Some(OLD))
    ensures Traces(s0, tr) && tr.clock == 205 && tr.refusals == [205]
    ensures var s := tr.s;
            && s.kind.SelfAuthenticating? && !s.flag && |s.calls| == 3 && s.st.token == Some(OLD) && s.lock.Free?
            && Step(s, AnswerWoken(1)).Some? && IsUntimely(s, AnswerWoken(1), 205)
  {
    tr := ThirdCallIsOut(s0);
    tr := TracesNext(s0, tr, Poll(1, 202));
    tr := TracesNext(s0, tr, ExchangeErr(1, UsageLimitExceeded(USAGE_LIMIT_TEXT), 205));
  }

  /**
    An ordinary run, with a steady clock, no teardown and no cancellation, in which the next
    exchange starts in the very second of a refusal: a caller woken earlier answered in between.
   */
  lemma WokenCallerLiftsTheLimit(s0: Sys)
    requires s0 == Initial(SelfAuthenticating, Some(OLD))
    ensures exists ls, tr :: TracedBy(s0, ls, tr) && tr.refusals == [205] && tr.clock == 205 &&
                             |tr.s.calls| == 4 && Starts(tr.s, EnterFirst(3, 205))
  {
    var tr := FourthCallAsks(s0);
    TracesByRun(s0, tr);
  }

  lemma FourthCallAsks(s0: Sys) returns (tr: Trace)
    requires s0 == Initial(SelfAuthenticating, Some(OLD))
    ensures Traces(s0, tr) && tr.refusals == [205] && tr.clock == 205
    ensures |tr.s.calls| == 4 && Starts(tr.s, EnterFirst(3, 205))
  {
    tr := ThirdCallIsRefused(s0);
    tr := TracesNext(s0, tr, AnswerWoken(1));
    tr := TracesNext(s0, tr, Begin);
  }

  // ----- sequential histories -----

  ghost predicate AllDone(s: Sys) {
    forall c :: 0 <= c < |s.calls| ==> IsDone(s.calls[c])
  }

  /** One call at a time: the next begins when the last is over, and so is its refresh. */
  ghost predicate IsSequential(s0: Sys, ls: seq<Label>)
    requires Run(s0, ls).Some?
  {
    ls == [] ||
    (IsSequential(s0, ls[..|ls| - 1]) &&
     var s := Run(s0, ls[..|ls| - 1]).value;
     ls[|ls| - 1].Begin? ==> AllDone(s) && AllEnded(s))
  }

  predicate IsEarly(p: CallPhase) { p.WantLock? || p.ReadingStore? || p.HasLoaded? }

  /** Waiting on a flag that nobody is left to lower, as after a teardown before the first poll. */
  ghost predicate IsStuck(s: Sys, c: nat)
    requires c < |s.calls|
  {
    && (s.calls[c].SawFlag? || s.calls[c].Registered? || s.calls[c].Parked?)
    && AllEnded(s) && s.flag && (!s.calls[c].SawFlag? ==> c in s.listed)
  }

  /** Only the latest call is open; it is early with no refresh about, joined on its own, or stuck. */
  ghost predicate OneCallOpen(s: Sys) {
    && (forall c :: 0 <= c < |s.calls| - 1 ==> IsDone(s.calls[c]))
    && (forall c :: 0 <= c < |s.calls| ==>
          || IsDone(s.calls[c]) || s.calls[c].AwaitingTask?
          || (IsEarly(s.calls[c]) && AllEnded(s)) || IsStuck(s, c))
  }

  lemma CallStepKeepsOneOpen(s: Sys, l: Label)
    requires Inv(s) && OneCallOpen(s) && !IsTaskLabel(l) && Step(s, l).Some?
    requires l.Begin? ==> AllDone(s) && AllEnded(s)
    ensures !l.ReadClock? && !l.AnswerWoken? && OneCallOpen(Step(s, l).value)
  {
    var s' := Step(s, l).value;
    CallShape(s, l);
    if l.EnterFirst? || l.EnterAgain? {
      assert AllEnded(s);
      HoldWaitsOnlyWithFlag(s, l);
      assert s'.calls[l.c].SawFlag? ==> s.flag && s'.flag by { CallStepKeepsInv(s, l); }
    }
  }

  lemma TaskStepKeepsOneOpen(s: Sys, l: Label)
    requires OneCallOpen(s) && IsTaskLabel(l) && Step(s, l).Some?
    ensures OneCallOpen(Step(s, l).value)
  {
    TaskShape(s, l);
    assert !s.tasks[l.t].phase.Ended?;
  }

  predicate NobodyWoken(ls: seq<Label>) {
    ls == [] || (NobodyWoken(ls[..|ls| - 1]) && !ls[|ls| - 1].ReadClock? && !ls[|ls| - 1].AnswerWoken?)
  }

  lemma {:induction false} SequentialKeepsOneOpen(kind: Refresher, token: Option<Token>, ls: seq<Label>)
    requires Run(Initial(kind, token), ls).Some? && IsSequential(Initial(kind, token), ls)
    ensures OneCallOpen(Run(Initial(kind, token), ls).value)
    ensures ls != [] ==> !ls[|ls| - 1].ReadClock? && !ls[|ls| - 1].AnswerWoken?
  {
    if ls != [] {
      SequentialKeepsOneOpen(kind, token, ls[..|ls| - 1]);
      RunKeepsInv(kind, token, ls[..|ls| - 1]);
      StepKeepsOneOpen(Run(Initial(kind, token), ls[..|ls| - 1]).value, ls[|ls| - 1]);
    }
  }

  /** When calls come one after another nobody is ever woken, whatever is torn down or cancelled. */
  lemma {:induction false} SequentialMeansNobodyWoken(kind: Refresher, token: Option<Token>, ls: seq<Label>)
    requires Run(Initial(kind, token), ls).Some? && IsSequential(Initial(kind, token), ls)
    ensures NobodyWoken(ls)
  {
    if ls != [] {
      SequentialMeansNobodyWoken(kind, token, ls[..|ls| - 1]);
      SequentialKeepsOneOpen(kind, token, ls);
    }
  }

  lemma {:induction false} NobodyWokenIsInTime(s0: Sys, ls: seq<Label>)
    requires Run(s0, ls).Some? && NobodyWoken(ls)
    ensures AnswersInTime(s0, ls)
  {
    if ls != [] { NobodyWokenIsInTime(s0, ls[..|ls| - 1]); }
  }

  lemma StepKeepsOneOpen(s: Sys, l: Label)
    requires Inv(s) && OneCallOpen(s) && Step(s, l).Some? && (l.Begin? ==> AllDone(s) && AllEnded(s))
    ensures !l.ReadClock? && !l.AnswerWoken? && OneCallOpen(Step(s, l).value)
  {
    if IsTaskLabel(l) { TaskStepKeepsOneOpen(s, l); } else { CallStepKeepsOneOpen(s, l); }
  }

  /** The rate limit over sequential histories: k + 1 refusals take at least 60 k seconds. */
  lemma SequentialRefusalsAreSpread(kind: Refresher, token: Option<Token>, ls: seq<Label>, k: nat)
    requires Run(Initial(kind, token), ls).Some? && IsSequential(Initial(kind, token), ls)
    requires SteadyClock(Initial(kind, token), ls) && k < |Refusals(Initial(kind, token), ls)|
    ensures var r := Refusals(Initial(kind, token), ls); r[k] - r[0] >= 60 * k
  {
    SequentialMeansNobodyWoken(kind, token, ls);
    NobodyWokenIsInTime(Initial(kind, token), ls);
    RefusalsAreSpread(kind, token, ls, k);
  }
}
