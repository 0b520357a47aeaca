/**
  The state a refresh engine keeps under its lock, and everything one lock hold
  does with it. `State` and the functions on it say what each hold computes; the
  class `RefreshCell` is the engine's mutable form, updated in place and proved
  against those functions.
 */
module RefreshState {
  import opened Prelude
  import opened AuthErrors
  import opened Tokens

  /** How long a recorded refusal is replayed before the server is asked again. */
  const DENIAL_TTL_SECS := 60

  datatype StickyDenial = StickyDenial(code: Code, message: Text, recordedAt: U64) {
    /** A reading before the recording counts as stale: elapsed time is then unknowable. */
    predicate IsStale(now: U64) {
      now < recordedAt || now - recordedAt >= DENIAL_TTL_SECS
    }

    function ToError(): (e: AuthError) { FromErrorCode(code, message, map[]) }
  }

  datatype RefreshError = NotFound | Expired | Auth(error: AuthError)

  /** A call's answer: the bearer text handed out, or the failure. */
  type Answer = Result<string, RefreshError>

  datatype State = State(
    token: Option<Token>,
    denial: Option<StickyDenial>,
    lastError: Option<(Code, Text)>)

  function FreshDenial(st: State, now: U64): (r: (State, Option<AuthError>))
    ensures r.0.token == st.token && r.0.lastError == st.lastError
    ensures r.1.Some? <==> st.denial.Some? && !st.denial.value.IsStale(now)
    ensures r.0.denial == if r.1.Some? then st.denial else None
  {
    if st.denial.Some? && !st.denial.value.IsStale(now) then (st, Some(st.denial.value.ToError()))
    else (st.(denial := None), None)
  }

  function RecordRefusal(st: State, err: AuthError, now: U64): (r: State) {
    st.(denial := if IsAccountRefusal(err) then Some(StickyDenial(ErrorCode(err), Message(err), now)) else st.denial,
        lastError := Some((ErrorCode(err), Message(err))))
  }

  function LastRefreshError(st: State): (r: Option<AuthError>) {
    if st.lastError.Some? then Some(FromErrorCode(st.lastError.value.0, st.lastError.value.1, map[])) else None
  }

  function Installed(st: State, token: Token): (r: State) {
    State(Some(token), None, None)
  }

  function RequireUsable(st: State, now: U64): (r: Answer) {
    if st.token.None? then Err(NotFound)
    else if st.token.value.IsUsableAt(now) then Ok(st.token.value.access)
    else Err(Expired)
  }

  /** What a call does once a lock hold has decided. */
  datatype Verdict =
    | Answer(answer: Result<string, RefreshError>)
    | ReadStore
    | AwaitInFlight
    | Exchange(credential: Credential)

  /** The decision shared by both lock holds of `get_token`, from its clock reading on. */
  function Decide(kind: Refresher, st: State, inProgress: bool, now: U64): (r: (State, Verdict))
  {
    if st.token.None? then
      var (st1, refused) := FreshDenial(st, now);
      if refused.Some? then (st1, Answer(Err(Auth(refused.value))))
      else
        var (_, credential) := TryCredential(kind, None);
        if credential.None? then (st1, Answer(Err(NotFound))) else (st1, Exchange(credential.value))
    else if !st.token.value.IsExpiredAt(now) then (st, Answer(Ok(st.token.value.access)))
    else if inProgress then
      if st.token.value.IsUsableAt(now) then (st, Answer(Ok(st.token.value.access))) else (st, AwaitInFlight)
    else
      var (st1, refused) := FreshDenial(st, now);
      if refused.Some? then
        (st1, Answer(if st.token.value.IsUsableAt(now) then Ok(st.token.value.access) else Err(Auth(refused.value))))
      else
        var (left, credential) := TryCredential(kind, st1.token);
        if credential.None? then (st1, Answer(RequireUsable(st1, now)))
        else (st1.(token := left), Exchange(credential.value))
  }

  /** The first lock hold: with nothing cached and no fresh refusal, the store is read unlocked. */
  function FirstHold(kind: Refresher, st: State, inProgress: bool, now: U64): (r: (State, Verdict)) {
    if st.token.None? then
      var (st1, refused) := FreshDenial(st, now);
      if refused.Some? then (st1, Answer(Err(Auth(refused.value)))) else (st1, ReadStore)
    else Decide(kind, st, inProgress, now)
  }

  /** The lock hold after the store read: a token another caller installed meanwhile wins. */
  function SecondHold(kind: Refresher, st: State, inProgress: bool, loaded: Option<Token>, now: U64)
    : (r: (State, Verdict))
  {
    Decide(kind, if st.token.None? then st.(token := loaded) else st, inProgress, now)
  }

  /** A woken caller's answer, from the reading it took before it locked again. */
  function AfterWake(st: State, now: U64): (r: (State, Answer)) {
    var usable := RequireUsable(st, now);
    if usable.Ok? then (st, usable)
    else
      var (st1, refused) := FreshDenial(st, now);
      if refused.Some? then (st1, Err(Auth(refused.value)))
      else
        var last := LastRefreshError(st1);
        if last.Some? && !last.value.TokenExpired? then (st1, Err(Auth(last.value))) else (st1, usable)
  }

  /** The state after a failed exchange: the credential goes back unless it was spent. */
  function Failed(st: State, credential: Credential, err: AuthError, now: U64): (r: State) {
    var st1 := if CredentialConsumed(err) || st.token.None? then st
               else st.(token := Some(Restore(st.token.value, credential)));
    RecordRefusal(st1, err, now)
  }

  // ----- when a call is answered, waits, or goes to the issuer -----

  /** A refusal recorded in the last sixty seconds. */
  predicate IsRefused(st: State, now: U64) {
    st.denial.Some? && st.denial.value.recordedAt <= now < st.denial.value.recordedAt + 60
  }

  /** More than ninety seconds before its expiry a cached token is handed out, and nothing changes. */
  lemma FarFromExpiryAnswers(kind: Refresher, st: State, flag: bool, loaded: Option<Token>, now: U64)
    requires st.token.Some? && now + 90 < st.token.value.expiresAt
    ensures FirstHold(kind, st, flag, now) == (st, Answer(Ok(st.token.value.access)))
    ensures SecondHold(kind, st, flag, loaded, now) == (st, Answer(Ok(st.token.value.access)))
  {
  }

  /** With a token cached: who asks the issuer, who waits, and what everybody else is told. */
  lemma CachedDecides(kind: Refresher, st: State, flag: bool, now: U64)
    requires st.token.Some?
    ensures var (token, verdict) := (st.token.value, Decide(kind, st, flag, now).1);
            && (verdict.Exchange? <==> token.expiresAt <= now + 90 && !flag && !IsRefused(st, now) &&
                                       (kind.SelfAuthenticating? || token.refresh.Some?))
            && (verdict.AwaitInFlight? <==> flag && token.expiresAt <= now)
            && !verdict.ReadStore?
            && (verdict.Answer? ==>
                  verdict.answer == if now < token.expiresAt then Ok(token.access)
                                    else if IsRefused(st, now) then Err(Auth(st.denial.value.ToError())) else Err(Expired))
  {
  }

  /** With nothing cached: the store first, then the issuer for whoever can authenticate by itself. */
  lemma ColdDecides(kind: Refresher, st: State, flag: bool, now: U64)
    requires st.token.None?
    ensures FirstHold(kind, st, flag, now).1 ==
            if IsRefused(st, now) then Answer(Err(Auth(st.denial.value.ToError()))) else ReadStore
    ensures SecondHold(kind, st, flag, None, now).1 ==
            if IsRefused(st, now) then Answer(Err(Auth(st.denial.value.ToError())))
            else if kind.SelfAuthenticating? then Exchange(HeldByRefresher) else Answer(Err(NotFound))
  {
  }

  /** What a hold leaves behind: an exchange takes the credential along, and only a stale refusal is dropped. */
  lemma HoldLeaves(kind: Refresher, st: State, flag: bool, now: U64)
    ensures var (st', verdict) := Decide(kind, st, flag, now);
            && st'.lastError == st.lastError
            && (st'.denial == st.denial || (st'.denial.None? && !IsRefused(st, now)))
            && (!verdict.Exchange? ==> st'.token == st.token)
            && (verdict.Exchange? && kind.SelfAuthenticating? ==> verdict.credential.HeldByRefresher? && st'.token == st.token)
            && (verdict.Exchange? && kind.DeviceSession? ==>
                  && st.token.Some? && st.token.value.refresh.Some? && verdict.credential == RefreshToken(st.token.value.refresh.value)
                  && st'.token == Some(st.token.value.(refresh := None)))
  {
  }

  /** A recorded account refusal is what is replayed for sixty seconds, and word for word unless it is blank. */
  lemma RefusalIsReplayed(st: State, err: AuthError, at: U64, now: U64)
    requires IsAccountRefusal(err)
    ensures FreshDenial(RecordRefusal(st, err, at), now).1 == if at <= now < at + 60 then Some(Replayed(err)) else None
    ensures !Message(err).IsBlank() ==> Replayed(err) == err
  {
    if !Message(err).IsBlank() { WordedRefusalReplays(err); }
  }

  /** Any failure is remembered for the callers that wait; only one of the account is replayed to the others. */
  lemma FailureIsRemembered(st: State, err: AuthError, at: U64)
    ensures LastRefreshError(RecordRefusal(st, err, at)) == Some(Replayed(err))
    ensures !IsAccountRefusal(err) ==> RecordRefusal(st, err, at).denial == st.denial
    ensures RecordRefusal(st, err, at).token == st.token
  {
  }

  // ----- one lock hold, in place -----

  /** The lock-protected fields together with the in-progress flag. */
  class RefreshCell {
    const kind: Refresher
    var token: Option<Token>
    var denial: Option<StickyDenial>
    var lastError: Option<(Code, Text)>
    var inProgress: bool

    constructor (kind: Refresher, token: Option<Token>)
      ensures this.kind == kind && View() == State(token, None, None) && !inProgress
    {
      this.kind := kind;
      this.token, denial, lastError, inProgress := token, None, None, false;
    }

    ghost function View(): (st: State)
      reads this
    {
      State(token, denial, lastError)
    }

    method TakeFreshDenial(now: U64) returns (refused: Option<AuthError>)
      modifies this`denial
      ensures (View(), refused) == FreshDenial(old(View()), now)
    {
      refused := None;
      if denial.Some? {
        if !denial.value.IsStale(now) {
          refused := Some(denial.value.ToError());
        } else {
          denial := None;
        }
      }
    }

    method RecordFailure(err: AuthError, now: U64)
      modifies this`denial, this`lastError
      ensures View() == RecordRefusal(old(View()), err, now)
    {
      if IsAccountRefusal(err) {
        denial := Some(StickyDenial(ErrorCode(err), Message(err), now));
      }
      lastError := Some((ErrorCode(err), Message(err)));
    }

    method Install(newToken: Token) returns (access: string)
      modifies this
      ensures View() == Installed(old(View()), newToken) && !inProgress && access == newToken.access
    {
      access := newToken.access;
      token := Some(newToken);
      denial, lastError := None, None;
      inProgress := false;
    }

    /** The tail of `get_token`; starting an exchange also raises the flag. */
    method DecideInPlace(now: U64) returns (verdict: Verdict)
      modifies this
      ensures (View(), verdict) == Decide(kind, old(View()), old(inProgress), now)
      ensures inProgress == (old(inProgress) || verdict.Exchange?)
    {
      if token.None? {
        var refused := TakeFreshDenial(now);
        if refused.Some? {
          return Answer(Err(Auth(refused.value)));
        }
        if kind.DeviceSession? {
          return Answer(Err(NotFound));
        }
        inProgress := true;
        return Exchange(HeldByRefresher);
      }
      if !token.value.IsExpiredAt(now) {
        return Answer(Ok(token.value.access));
      }
      if inProgress {
        if token.value.IsUsableAt(now) {
          return Answer(Ok(token.value.access));
        }
        return AwaitInFlight;
      }
      var refused := TakeFreshDenial(now);
      if refused.Some? {
        if token.value.IsUsableAt(now) {
          return Answer(Ok(token.value.access));
        }
        return Answer(Err(Auth(refused.value)));
      }
      if kind.SelfAuthenticating? {
        inProgress := true;
        return Exchange(HeldByRefresher);
      }
      if token.value.refresh.None? {
        if token.value.IsUsableAt(now) {
          return Answer(Ok(token.value.access));
        }
        return Answer(Err(Expired));
      }
      var credential := RefreshToken(token.value.refresh.value);
      token := Some(token.value.(refresh := None));
      inProgress := true;
      return Exchange(credential);
    }

    method EnterFirst(now: U64) returns (verdict: Verdict)
      modifies this
      ensures (View(), verdict) == FirstHold(kind, old(View()), old(inProgress), now)
      ensures inProgress == (old(inProgress) || verdict.Exchange?)
    {
      if token.None? {
        var refused := TakeFreshDenial(now);
        if refused.Some? {
          return Answer(Err(Auth(refused.value)));
        }
        return ReadStore;
      }
      verdict := DecideInPlace(now);
    }

    method EnterAgain(loaded: Option<Token>, now: U64) returns (verdict: Verdict)
      modifies this
      ensures (View(), verdict) == SecondHold(kind, old(View()), old(inProgress), loaded, now)
      ensures inProgress == (old(inProgress) || verdict.Exchange?)
    {
      if token.None? {
        token := loaded;
      }
      verdict := DecideInPlace(now);
    }

    method AnswerAfterWake(now: U64) returns (answer: Result<string, RefreshError>)
      modifies this`denial
      ensures (View(), answer) == AfterWake(old(View()), now)
    {
      if token.Some? && token.value.IsUsableAt(now) {
        return Ok(token.value.access);
      }
      var unusable := if token.None? then NotFound else Expired;
      var refused := TakeFreshDenial(now);
      if refused.Some? {
        return Err(Auth(refused.value));
      }
      if lastError.Some? {
        var last := FromErrorCode(lastError.value.0, lastError.value.1, map[]);
        if !last.TokenExpired? {
          return Err(Auth(last));
        }
      }
      return Err(unusable);
    }

    method Fail(credential: Credential, err: AuthError, now: U64)
      modifies this
      ensures View() == Failed(old(View()), credential, err, now) && !inProgress
    {
      if !CredentialConsumed(err) && token.Some? {
        token := Some(Restore(token.value, credential));
      }
      inProgress := false;
      RecordFailure(err, now);
    }
  }
}
