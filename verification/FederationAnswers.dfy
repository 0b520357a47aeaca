/**
  What the federation strategy gives its callers, over whole histories: the engine that
  served a JWT last while it is kept, the refusal of the account while it is fresh, and the
  outcome of the engine's own call.
 */
module FederationAnswers {
  import opened Prelude
  import opened AuthErrors
  import opened Tokens
  import opened RefreshState
  import opened RefreshProtocol
  import opened JwtCaches
  import opened Federation

  // ----- one operation of the table -----

  /** After a success its engine is found again, and of the others only the victim is gone. */
  lemma SuccessIsFoundAgain(tb: Table, d: Digest, e: nat, at: U64, victim: Option<Digest>, now: U64, newEngine: nat)
    requires tb.cache.capacity > 0 && IsVictim(tb.cache, d, victim)
    ensures var tb' := Settled(tb, d, e, None, at, victim);
            && EngineFor(tb', d, now, newEngine).1 == Ok(e)
            && (forall x :: x in tb.cache.entries && Some(x) != victim ==>
                  x in tb'.cache.entries && (x != d ==> tb'.cache.entries[x].handle == tb.cache.entries[x].handle))
            && (forall x :: x in tb'.cache.entries ==> x == d || (x in tb.cache.entries && Some(x) != victim))
  {
  }

  /** A refusal of the account answers every JWT that has no engine, for sixty seconds. */
  lemma RefusalAnswersOthers(tb: Table, d: Digest, e: nat, err: AuthError, at: U64, x: Digest, now: U64, newEngine: nat)
    requires IsAccountRefusal(err) && at <= now < at + 60
    requires var tb' := Settled(tb, d, e, Some(err), at, None); x !in tb'.cache.entries && x !in tb'.pending
    ensures EngineFor(Settled(tb, d, e, Some(err), at, None), x, now, newEngine).1 == Err(Replayed(err))
    ensures !Message(err).IsBlank() ==> Replayed(err) == err
  {
    if !Message(err).IsBlank() { WordedRefusalReplays(err); }
  }

  /** A JWT that has an engine is not refused by it: a cached engine comes first, then a pending one. */
  lemma EngineComesFirst(tb: Table, d: Digest, now: U64, newEngine: nat)
    ensures d in tb.cache.entries ==> EngineFor(tb, d, now, newEngine).1 == Ok(tb.cache.entries[d].handle)
    ensures d !in tb.cache.entries && d in tb.pending ==> EngineFor(tb, d, now, newEngine).1 == Ok(tb.pending[d])
  {
  }

  // ----- the engine that serves a JWT -----

  /** A step drops the cached engine of `d`: evicted by another's success, or failed by a call of its own. */
  predicate Drops(s: Strategy, a: Act, d: Digest) {
    && a.Finish? && IsClaim(s, a.k) && d in s.table.cache.entries
    && if Succeeds(s, a) then a.victim == Some(d)
       else s.calls[a.k].digest == d && s.table.cache.entries[d].handle == s.calls[a.k].engine
  }

  /** The engine of the last call that succeeded for `d`, unless it was dropped since. */
  ghost function Serving(capacity: nat, acts: seq<Act>, d: Digest): (e: Option<nat>)
    requires History(capacity, acts).Some?
  {
    if acts == [] then None
    else
      var s, a := History(capacity, acts[..|acts| - 1]).value, acts[|acts| - 1];
      if Succeeds(s, a) && s.calls[a.k].digest == d && capacity > 0 then Some(s.calls[a.k].engine)
      else if Drops(s, a, d) then None
      else Serving(capacity, acts[..|acts| - 1], d)
  }

  function CachedEngine(tb: Table, d: Digest): (e: Option<nat>) {
    if d in tb.cache.entries then Some(tb.cache.entries[d].handle) else None
  }

  lemma SettlingServes(tb: Table, d: Digest, e: nat, failure: Option<AuthError>, now: U64, victim: Option<Digest>, x: Digest)
    requires failure.None? ==> IsVictim(tb.cache, d, victim)
    ensures CachedEngine(Settled(tb, d, e, failure, now, victim), x) ==
            if failure.None? && x == d && tb.cache.capacity > 0 then Some(e)
            else if failure.None? && victim == Some(x) then None
            else if failure.Some? && x == d && CachedEngine(tb, x) == Some(e) then None
            else CachedEngine(tb, x)
  {
  }

  lemma NextServes(s: Strategy, a: Act, d: Digest)
    requires Next(s, a).Some?
    ensures CachedEngine(Next(s, a).value.table, d) ==
            if Succeeds(s, a) && s.calls[a.k].digest == d && s.table.cache.capacity > 0 then Some(s.calls[a.k].engine)
            else if Drops(s, a, d) then None
            else CachedEngine(s.table, d)
  {
    match a
    case Ask(x, now) => LookupLosesNothing(s.table, x, now, |s.engines|, d);
    case Inside(_, _) =>
    case Finish(k, now, victim) =>
      var call := s.calls[k];
      var answer := ToPublic(s.engines[call.engine].sys.calls[call.inner].answer);
      SettlingServes(s.table, call.digest, call.engine, if answer.Ok? then None else Some(answer.error), now, victim, d);
    case Abandon(k) => AbandoningLosesItsOwn(s.table, s.calls[k].digest, s.calls[k].engine, d);
  }

  /** Exactly the engines that serve are cached, over every history. */
  lemma {:induction false} CachedExactly(capacity: nat, acts: seq<Act>, d: Digest)
    requires History(capacity, acts).Some?
    ensures CachedEngine(History(capacity, acts).value.table, d) == Serving(capacity, acts, d)
  {
    if acts != [] {
      CachedExactly(capacity, acts[..|acts| - 1], d);
      HistoryKeepsCapacity(capacity, acts[..|acts| - 1]);
      NextServes(History(capacity, acts[..|acts| - 1]).value, acts[|acts| - 1], d);
    }
  }

  /**
    After a success for a JWT, every further call for it gets that same engine, and none is
    made for it, until the engine is evicted or a call on it fails.
   */
  lemma ServedWithoutANewEngine(capacity: nat, acts: seq<Act>, d: Digest, now: U64)
    requires History(capacity, acts).Some? && Serving(capacity, acts, d).Some?
    ensures var s := History(capacity, acts).value;
            var s' := Next(s, Ask(d, now)).value;
            && |s'.engines| == |s.engines| && |s'.calls| == |s.calls| + 1
            && s'.calls[|s.calls|].Claimed? && s'.calls[|s.calls|].digest == d
            && s'.calls[|s.calls|].engine == Serving(capacity, acts, d).value
  {
    CachedExactly(capacity, acts, d);
    HistoryKeepsInv(capacity, acts);
    CachedIsClaimed(History(capacity, acts).value, d, now);
  }

  lemma CachedIsClaimed(s: Strategy, d: Digest, now: U64)
    requires TableKept(s) && d in s.table.cache.entries
    ensures var s' := AskStep(s, d, now);
            && |s'.engines| == |s.engines|
            && s'.calls == s.calls + [Claimed(d, s.table.cache.entries[d].handle, |s.engines[s.table.cache.entries[d].handle].sys.calls|)]
  {
  }

  // ----- the refusal that answers -----

  datatype Refused = Refused(err: AuthError, at: U64)

  /** The last refusal of the account in a history, whoever got it. */
  ghost function LastRefusedWith(capacity: nat, acts: seq<Act>): (r: Option<Refused>)
    requires History(capacity, acts).Some?
  {
    if acts == [] then None
    else
      var s, a := History(capacity, acts[..|acts| - 1]).value, acts[|acts| - 1];
      if SettlesRefusal(s, a) then Some(Refused(ToAuthError(InnerAnswer(s, a.k).error), a.now))
      else LastRefusedWith(capacity, acts[..|acts| - 1])
  }

  function InnerAnswer(s: Strategy, k: nat): (r: Answer)
    requires IsClaim(s, k) && s.engines[s.calls[k].engine].sys.calls[s.calls[k].inner].Finished?
  {
    s.engines[s.calls[k].engine].sys.calls[s.calls[k].inner].answer
  }

  predicate Quotes(denial: Option<StickyDenial>, last: Option<Refused>) {
    denial.Some? ==> last.Some? && denial.value == StickyDenial(ErrorCode(last.value.err), Message(last.value.err), last.value.at)
  }

  lemma NextQuotes(s: Strategy, a: Act, last: Option<Refused>)
    requires Next(s, a).Some? && Quotes(s.table.denial, last)
    ensures Quotes(Next(s, a).value.table.denial,
                   if SettlesRefusal(s, a) then Some(Refused(ToAuthError(InnerAnswer(s, a.k).error), a.now)) else last)
  {
  }

  lemma {:induction false} HistoryQuotes(capacity: nat, acts: seq<Act>)
    requires History(capacity, acts).Some?
    ensures Quotes(History(capacity, acts).value.table.denial, LastRefusedWith(capacity, acts))
    ensures var (last, at) := (LastRefusedWith(capacity, acts), LastRefused(capacity, acts));
            && (last.Some? <==> at.Some?)
            && (last.Some? ==> last.value.at == at.value && IsAccountRefusal(last.value.err))
  {
    if acts != [] {
      var before := acts[..|acts| - 1];
      HistoryQuotes(capacity, before);
      NextQuotes(History(capacity, before).value, acts[|acts| - 1], LastRefusedWith(capacity, before));
    }
  }

  lemma ConsultedIsRefused(s: Strategy, a: Act, last: Refused, clock: U64)
    requires ConsultsRefusal(s, a) && Quotes(s.table.denial, Some(last)) && RefusalKept(s.table.denial, Some(last.at), clock)
    requires clock <= a.now < last.at + 60
    ensures var s' := Next(s, a).value;
            s'.calls == s.calls + [Answered(a.d, Err(Replayed(last.err)))] && s'.engines == s.engines
  {
  }

  /**
    Over every history with a steady clock, a JWT without an engine that asks within sixty
    seconds of the last refusal of the account is told that refusal, and no engine is made.
   */
  lemma LastRefusalAnswersAll(capacity: nat, acts: seq<Act>, a: Act)
    requires History(capacity, acts).Some? && IsSteady(capacity, acts) && LastRefusedWith(capacity, acts).Some?
    requires ConsultsRefusal(History(capacity, acts).value, a)
    requires OwnClock(capacity, acts) <= a.now < LastRefusedWith(capacity, acts).value.at + 60
    ensures var s, err := History(capacity, acts).value, LastRefusedWith(capacity, acts).value.err;
            var s' := Next(s, a).value;
            && s'.calls == s.calls + [Answered(a.d, Err(Replayed(err)))] && s'.engines == s.engines
            && (!Message(err).IsBlank() ==> Replayed(err) == err)
  {
    HistoryQuotes(capacity, acts);
    HistoryKeepsRefusal(capacity, acts);
    var last := LastRefusedWith(capacity, acts).value;
    ConsultedIsRefused(History(capacity, acts).value, a, last, OwnClock(capacity, acts));
    if !Message(last.err).IsBlank() { WordedRefusalReplays(last.err); }
  }

  // ----- the shared store -----

  /** The store serves a user the token kept for them, and nobody else's; what an engine federates bears its stamp. */
  lemma StoreServesItsOwner(s: Strategy, e: nat, c: nat, stored: Option<Token>)
    requires InsideStep(s, e, StoreRead(c, stored)).Some?
    ensures InsideStep(s, e, StoreRead(c, stored)).value.engines[e].sys.calls[c] ==
            HasLoaded(if stored.Some? && stored.value.federatedFrom == Some(s.engines[e].digest.hex) then stored else None)
  {
  }

  lemma FederatedIsStamped(s: Strategy, e: nat, t: nat, newToken: Token)
    requires InsideStep(s, e, ExchangeOk(t, newToken)).Some?
    ensures var p := InsideStep(s, e, ExchangeOk(t, newToken)).value.engines[e].sys.tasks[t].phase;
            (p.NbSave? || p.BSave?) && p.newToken == newToken.(federatedFrom := Some(s.engines[e].digest.hex))
  {
  }

  // ----- the call's own outcome -----

  lemma {:induction false} LeastAmong(c: Cache, keys: set<Digest>) returns (v: Digest)
    requires keys != {} && keys <= c.entries.Keys
    ensures v in keys && forall o :: o in keys ==> c.entries[v].lastUsed <= c.entries[o].lastUsed
    decreases keys
  {
    var one :| one in keys;
    v := one;
    if keys - {one} == {} {
      assert keys == {one};
    } else {
      var other := LeastAmong(c, keys - {one});
      if c.entries[other].lastUsed < c.entries[one].lastUsed { v := other; }
      assert forall o :: o in keys ==> o == one || o in keys - {one};
    }
  }

  lemma VictimExists(c: Cache, d: Digest) returns (victim: Option<Digest>)
    ensures IsVictim(c, d, victim)
  {
    victim := None;
    if NeedsVictim(c, d) {
      assert c.entries.Keys != {};
      var v := LeastAmong(c, c.entries.Keys);
      victim := Some(v);
    }
  }

  /** A call whose engine has answered can always settle. */
  lemma FinishedCallSettles(s: Strategy, k: nat, now: U64) returns (victim: Option<Digest>)
    requires IsClaim(s, k) && s.engines[s.calls[k].engine].sys.calls[s.calls[k].inner].Finished?
    ensures Next(s, Finish(k, now, victim)).Some?
  {
    victim := VictimExists(s.table.cache, s.calls[k].digest);
  }

  /** A settled call is told what the engine's call came to; having nothing, and having lapsed, are errors of their own. */
  lemma SettledCallIsTold(s: Strategy, k: nat, now: U64, victim: Option<Digest>)
    requires FinishStep(s, k, now, victim).Some?
    ensures var (s', inner) := (FinishStep(s, k, now, victim).value, InnerAnswer(s, k));
            s'.calls[k] == Answered(s.calls[k].digest,
              if inner.Ok? then Ok(inner.value)
              else match inner.error
                   case NotFound => Err(NotAuthenticated)
                   case Expired => Err(TokenExpired)
                   case Auth(error) => Err(error))
  {
  }
}
