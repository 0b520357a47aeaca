/**
  The OIDC federation strategy: one refresh engine per user JWT, pending until its
  first success and cached after it, over one shared single-slot store. Each engine
  is the whole step system of `RefreshProtocol`.
 */
module Federation {
  import opened Prelude
  import opened AuthErrors
  import opened Tokens
  import opened RefreshState
  import opened RefreshProtocol
  import opened EngineContents
  import opened JwtCaches

  // ----- the table of engines -----

  /** What the strategy keeps under its own locks; engines are named by number. */
  datatype Table = Table(cache: Cache, pending: map<Digest, nat>, denial: Option<StickyDenial>)

  /** The engine for a digest: cached, pending, or a new one unless a fresh account refusal answers first. */
  function EngineFor(tb: Table, d: Digest, now: U64, newEngine: nat): (r: (Table, Result<nat, AuthError>)) {
    var looked := tb.(cache := Looked(tb.cache, d));
    if d in tb.cache.entries then (looked, Ok(tb.cache.entries[d].handle))
    else if d in tb.pending then (looked, Ok(tb.pending[d]))
    else if tb.denial.Some? && !tb.denial.value.IsStale(now) then (looked, Err(tb.denial.value.ToError()))
    else (looked.(denial := None, pending := tb.pending[d := newEngine]), Ok(newEngine))
  }

  /** A pending entry goes only if it is still this very engine. */
  function Abandoned(tb: Table, d: Digest, e: nat): (r: Table) {
    if d in tb.pending && tb.pending[d] == e then tb.(pending := tb.pending - {d}) else tb
  }

  function Settled(tb: Table, d: Digest, e: nat, failure: Option<AuthError>, now: U64, victim: Option<Digest>): (r: Table) {
    var left := Abandoned(tb, d, e);
    if failure.None? then left.(cache := Inserted(tb.cache, d, e, victim))
    else left.(cache := Removed(tb.cache, d, e),
               denial := if IsAccountRefusal(failure.value)
                         then Some(StickyDenial(ErrorCode(failure.value), Message(failure.value), now)) else tb.denial)
  }

  /** The table in place. */
  class EngineTable {
    const cache: JwtCache
    var pending: map<Digest, nat>
    var denial: Option<StickyDenial>

    constructor (capacity: nat)
      ensures View() == Table(Cache(capacity, 0, map[]), map[], None) && fresh(cache)
    {
      cache := new JwtCache(capacity);
      pending, denial := map[], None;
    }

    ghost function View(): (tb: Table)
      reads this, cache
    {
      Table(cache.View(), pending, denial)
    }

    method Find(d: Digest, now: U64, newEngine: nat) returns (r: Result<nat, AuthError>)
      modifies this, cache
      ensures (View(), r) == EngineFor(old(View()), d, now, newEngine)
    {
      var hit := cache.Get(d);
      if hit.Some? {
        return Ok(hit.value);
      }
      if d in pending {
        return Ok(pending[d]);
      }
      if denial.Some? {
        if !denial.value.IsStale(now) {
          return Err(denial.value.ToError());
        }
        denial := None;
      }
      pending := pending[d := newEngine];
      return Ok(newEngine);
    }

    method Abandon(d: Digest, e: nat)
      modifies this`pending
      ensures View() == Abandoned(old(View()), d, e)
    {
      if d in pending && pending[d] == e {
        pending := pending - {d};
      }
    }

    method Settle(d: Digest, e: nat, failure: Option<AuthError>, now: U64) returns (victim: Option<Digest>)
      modifies this, cache
      ensures failure.None? ==> IsVictim(old(View()).cache, d, victim)
      ensures View() == Settled(old(View()), d, e, failure, now, victim)
    {
      Abandon(d, e);
      victim := None;
      if failure.None? {
        victim := cache.Insert(d, e);
      } else {
        cache.RemoveIf(d, e);
        if IsAccountRefusal(failure.value) {
          denial := Some(StickyDenial(ErrorCode(failure.value), Message(failure.value), now));
        }
      }
    }
  }

  // ----- the strategy as a step system -----

  datatype Engine = Engine(digest: Digest, creator: nat, sys: Sys)

  datatype UserCall =
    | Claimed(digest: Digest, engine: nat, inner: nat)    // holds an unsettled claim on an engine
    | Answered(digest: Digest, answer: Result<string, AuthError>)
    | Dropped

  /** `minted` records which token texts came from an exchange of which JWT, or were stored under which stamp. */
  datatype Strategy = Strategy(
    table: Table,
    engines: seq<Engine>,
    calls: seq<UserCall>,
    minted: set<(string, Digest)>)

  datatype Act =
    | Ask(d: Digest, now: U64)                            // get_token_for_jwt
    | Inside(e: nat, l: Label)                            // a step of one engine
    | Finish(k: nat, now: U64, victim: Option<Digest>)    // the engine answered: settle
    | Abandon(k: nat)                                     // the caller's future is dropped

  /** The bound store serves a stored token only to the JWT it was federated from. */
  function BoundLoad(stored: Option<Token>, d: Digest): (r: Option<Token>) {
    if stored.Some? && stored.value.federatedFrom == Some(d.hex) then stored else None
  }

  /** The engine of digest `d` sees the store through its bound view and stamps what it federates. */
  function SeenBy(l: Label, d: Digest): (r: Label) {
    match l
    case StoreRead(c, stored) => StoreRead(c, BoundLoad(stored, d))
    case ExchangeOk(t, newToken) => ExchangeOk(t, newToken.(federatedFrom := Some(d.hex)))
    case _ => l
  }

  function Minted(l: Label, d: Digest): (r: set<(string, Digest)>) {
    match l
    case StoreRead(_, stored) =>
      if stored.Some? && stored.value.federatedFrom.Some?
      then {(stored.value.access, Digest(stored.value.federatedFrom.value))} else {}
    case ExchangeOk(_, newToken) => {(newToken.access, d)}
    case _ => {}
  }

  function ToAuthError(e: RefreshError): (r: AuthError) {
    match e
    case NotFound => NotAuthenticated
    case Expired => TokenExpired
    case Auth(error) => error
  }

  function ToPublic(a: Answer): (r: Result<string, AuthError>) {
    if a.Ok? then Ok(a.value) else Err(ToAuthError(a.error))
  }

  function EngineTo(s: Strategy, e: nat, sys: Sys): (r: Strategy)
    requires e < |s.engines|
  {
    s.(engines := s.engines[e := s.engines[e].(sys := sys)])
  }

  /** A call finds or makes its engine and begins a `get_token` on it. */
  function AskStep(s: Strategy, d: Digest, now: U64): (r: Strategy) {
    var (table, found) := EngineFor(s.table, d, now, |s.engines|);
    var s1 := s.(table := table);
    if found.Err? then s1.(calls := s.calls + [Answered(d, Err(found.error))])
    else if found.value == |s.engines| then
      s1.(engines := s.engines + [Engine(d, |s.calls|, Initial(SelfAuthenticating, None).(calls := [WantLock]))],
          calls := s.calls + [Claimed(d, found.value, 0)])
    else if found.value < |s.engines| then
      var sys := s.engines[found.value].sys;
      EngineTo(s1, found.value, sys.(calls := sys.calls + [WantLock]))
        .(calls := s.calls + [Claimed(d, found.value, |sys.calls|)])
    else s
  }

  function InsideStep(s: Strategy, e: nat, l: Label): (r: Option<Strategy>) {
    if e >= |s.engines| || l.Begin? || l.Cancel? then None
    else
      var d := s.engines[e].digest;
      var sys' := Step(s.engines[e].sys, SeenBy(l, d));
      if sys'.None? then None else Some(EngineTo(s, e, sys'.value).(minted := s.minted + Minted(l, d)))
  }

  predicate IsClaim(s: Strategy, k: nat) {
    && k < |s.calls| && s.calls[k].Claimed?
    && s.calls[k].engine < |s.engines|
    && s.calls[k].inner < |s.engines[s.calls[k].engine].sys.calls|
  }

  ghost function FinishStep(s: Strategy, k: nat, now: U64, victim: Option<Digest>): (r: Option<Strategy>) {
    if !IsClaim(s, k) then None
    else
      var call := s.calls[k];
      var inner := s.engines[call.engine].sys.calls[call.inner];
      if !inner.Finished? then None
      else
        var answer := ToPublic(inner.answer);
        var failure := if answer.Ok? then None else Some(answer.error);
        if failure.None? && !IsVictim(s.table.cache, call.digest, victim) then None
        else Some(s.(table := Settled(s.table, call.digest, call.engine, failure, now, victim),
                     calls := s.calls[k := Answered(call.digest, answer)]))
  }

  function AbandonStep(s: Strategy, k: nat): (r: Option<Strategy>) {
    if !IsClaim(s, k) then None
    else
      var call := s.calls[k];
      var sys' := Step(s.engines[call.engine].sys, Cancel(call.inner));
      if sys'.None? then None
      else Some(EngineTo(s, call.engine, sys'.value)
                  .(table := Abandoned(s.table, call.digest, call.engine), calls := s.calls[k := Dropped]))
  }

  ghost function Next(s: Strategy, a: Act): (r: Option<Strategy>) {
    match a
    case Ask(d, now) => Some(AskStep(s, d, now))
    case Inside(e, l) => InsideStep(s, e, l)
    case Finish(k, now, victim) => FinishStep(s, k, now, victim)
    case Abandon(k) => AbandonStep(s, k)
  }

  function Fresh(capacity: nat): (s: Strategy) {
    Strategy(Table(Cache(capacity, 0, map[]), map[], None), [], [], {})
  }

  ghost function History(capacity: nat, acts: seq<Act>): (r: Option<Strategy>) {
    if acts == [] then Some(Fresh(capacity))
    else
      var before := History(capacity, acts[..|acts| - 1]);
      if before.None? then None else Next(before.value, acts[|acts| - 1])
  }

  // ----- the table stays in order -----

  /** Table entries name engines of their own digest; a pending engine is still held by the call that made it. */
  ghost predicate TableKept(s: Strategy) { CacheKept(s.table.cache, s.engines) && PendingKept(s) }

  ghost predicate CacheKept(c: Cache, engines: seq<Engine>) {
    && (forall d :: d in c.entries ==> c.entries[d].handle < |engines| && engines[c.entries[d].handle].digest == d)
    && |c.entries| <= c.capacity
  }

  ghost predicate PendingKept(s: Strategy) {
    && (forall d :: d in s.table.pending ==>
          s.table.pending[d] < |s.engines| && s.engines[s.table.pending[d]].digest == d)
    && (forall d :: d in s.table.pending ==>
          var e := s.table.pending[d];
          s.engines[e].creator < |s.calls| && s.calls[s.engines[e].creator].Claimed? &&
          s.calls[s.engines[e].creator].engine == e)
  }

  /** A claim names a call of an engine of its own digest. */
  ghost predicate ClaimsKept(s: Strategy) {
    forall k :: 0 <= k < |s.calls| && s.calls[k].Claimed? ==>
      IsClaim(s, k) && s.engines[s.calls[k].engine].digest == s.calls[k].digest
  }

  lemma SettledKeepsCapacity(tb: Table, d: Digest, e: nat, failure: Option<AuthError>, now: U64, victim: Option<Digest>)
    requires |tb.cache.entries| <= tb.cache.capacity && (failure.None? ==> IsVictim(tb.cache, d, victim))
    ensures |Settled(tb, d, e, failure, now, victim).cache.entries| <= tb.cache.capacity
    ensures Settled(tb, d, e, failure, now, victim).cache.capacity == tb.cache.capacity
  {
    if failure.None? && tb.cache.capacity > 0 {
      PutKeepsCapacity(tb.cache, Put(d, e, victim));
    } else if failure.Some? {
      assert Removed(tb.cache, d, e).entries.Keys <= tb.cache.entries.Keys;
      SmallerSet(Removed(tb.cache, d, e).entries.Keys, tb.cache.entries.Keys);
    }
  }

  lemma {:induction false} SmallerSet<T>(a: set<T>, b: set<T>)
    requires a <= b
    ensures |a| <= |b|
    decreases a
  {
    if a != {} {
      var x :| x in a;
      SmallerSet(a - {x}, b - {x});
    }
  }

  /** A new engine comes in as the last one, pending, held by the call being made. */
  lemma NewEngineKeepsTable(s: Strategy, d: Digest, now: U64)
    requires TableKept(s) && ClaimsKept(s)
    requires EngineFor(s.table, d, now, |s.engines|).1 == Ok(|s.engines|)
    ensures TableKept(AskStep(s, d, now)) && ClaimsKept(AskStep(s, d, now))
  {
    var s' := AskStep(s, d, now);
    assert d !in s.table.cache.entries && d !in s.table.pending;
    assert s'.table.pending == s.table.pending[d := |s.engines|];
    assert forall e :: 0 <= e < |s.engines| ==> s'.engines[e] == s.engines[e];
    assert forall k :: 0 <= k < |s.calls| ==> s'.calls[k] == s.calls[k];
  }

  /** Two caches that differ in stamps only. */
  ghost predicate SameHandles(a: Cache, b: Cache) {
    && a.capacity == b.capacity && a.entries.Keys == b.entries.Keys && |a.entries| == |b.entries|
    && forall d :: d in a.entries ==> a.entries[d].handle == b.entries[d].handle
  }

  lemma LookupKeepsHandles(c: Cache, d: Digest)
    ensures SameHandles(c, Looked(c, d))
  {
    assert |c.entries.Keys| == |c.entries|;
    assert Looked(c, d).entries.Keys == c.entries.Keys;
    assert |Looked(c, d).entries.Keys| == |Looked(c, d).entries|;
  }

  /** One more claim, on an engine of its own digest. */
  lemma ClaimKeepsTable(s: Strategy, s': Strategy, d: Digest, e: nat, cache: Cache)
    requires TableKept(s) && ClaimsKept(s) && SameHandles(s.table.cache, cache)
    requires e < |s.engines| && s.engines[e].digest == d
    requires var sys := s.engines[e].sys;
             s' == EngineTo(s, e, sys.(calls := sys.calls + [WantLock]))
                     .(table := s.table.(cache := cache), calls := s.calls + [Claimed(d, e, |sys.calls|)])
    ensures TableKept(s') && ClaimsKept(s')
  {
  }

  lemma RefusalKeepsTable(s: Strategy, s': Strategy, call: UserCall, cache: Cache)
    requires TableKept(s) && ClaimsKept(s) && SameHandles(s.table.cache, cache) && !call.Claimed?
    requires s' == s.(table := s.table.(cache := cache), calls := s.calls + [call])
    ensures TableKept(s') && ClaimsKept(s')
  {
  }

  lemma FoundEngineKeepsTable(s: Strategy, d: Digest, now: U64)
    requires TableKept(s) && ClaimsKept(s)
    requires EngineFor(s.table, d, now, |s.engines|).1 != Ok(|s.engines|)
    ensures TableKept(AskStep(s, d, now)) && ClaimsKept(AskStep(s, d, now))
  {
    LookupKeepsHandles(s.table.cache, d);
    var (table, found) := EngineFor(s.table, d, now, |s.engines|);
    if found.Ok? { ClaimKeepsTable(s, AskStep(s, d, now), d, found.value, table.cache); }
    else { RefusalKeepsTable(s, AskStep(s, d, now), Answered(d, Err(found.error)), table.cache); }
  }

  lemma AskKeepsTable(s: Strategy, d: Digest, now: U64)
    requires TableKept(s) && ClaimsKept(s)
    ensures TableKept(AskStep(s, d, now)) && ClaimsKept(AskStep(s, d, now))
  {
    if EngineFor(s.table, d, now, |s.engines|).1 == Ok(|s.engines|) { NewEngineKeepsTable(s, d, now); }
    else { FoundEngineKeepsTable(s, d, now); }
  }

  lemma InsideKeepsTable(s: Strategy, e: nat, l: Label)
    requires TableKept(s) && ClaimsKept(s) && InsideStep(s, e, l).Some?
    ensures TableKept(InsideStep(s, e, l).value) && ClaimsKept(InsideStep(s, e, l).value)
  {
    CallsNeverShrink(s.engines[e].sys, SeenBy(l, s.engines[e].digest));
  }

  lemma CallsNeverShrink(s: Sys, l: Label)
    requires Step(s, l).Some?
    ensures |Step(s, l).value.calls| >= |s.calls|
  {
    if IsTaskLabel(l) { TaskShape(s, l); } else { CallShape(s, l); }
  }

  lemma SettledKeepsCache(s: Strategy, d: Digest, e: nat, failure: Option<AuthError>, now: U64, victim: Option<Digest>)
    requires CacheKept(s.table.cache, s.engines) && e < |s.engines| && s.engines[e].digest == d
    requires failure.None? ==> IsVictim(s.table.cache, d, victim)
    ensures CacheKept(Settled(s.table, d, e, failure, now, victim).cache, s.engines)
  {
    SettledKeepsCapacity(s.table, d, e, failure, now, victim);
  }

  /** The call that leaves takes its own pending engine with it, so every other one keeps its creator. */
  lemma AbandonedKeepsPending(s: Strategy, s': Strategy, k: nat)
    requires PendingKept(s) && k < |s.calls| && s.calls[k].Claimed? && |s'.engines| == |s.engines|
    requires forall e :: 0 <= e < |s.engines| ==>
               s'.engines[e].digest == s.engines[e].digest && s'.engines[e].creator == s.engines[e].creator
    requires s.calls[k].engine < |s.engines| && s.engines[s.calls[k].engine].digest == s.calls[k].digest
    requires s'.table.pending == Abandoned(s.table, s.calls[k].digest, s.calls[k].engine).pending
    requires |s'.calls| == |s.calls| && forall j :: 0 <= j < |s.calls| && j != k ==> s'.calls[j] == s.calls[j]
    ensures PendingKept(s')
  {
  }

  lemma FinishKeepsTable(s: Strategy, k: nat, now: U64, victim: Option<Digest>)
    requires TableKept(s) && ClaimsKept(s) && FinishStep(s, k, now, victim).Some?
    ensures TableKept(FinishStep(s, k, now, victim).value) && ClaimsKept(FinishStep(s, k, now, victim).value)
  {
    var call := s.calls[k];
    var answer := ToPublic(s.engines[call.engine].sys.calls[call.inner].answer);
    SettledKeepsCache(s, call.digest, call.engine, if answer.Ok? then None else Some(answer.error), now, victim);
    AbandonedKeepsPending(s, FinishStep(s, k, now, victim).value, k);
  }

  lemma AbandonKeepsTable(s: Strategy, k: nat)
    requires TableKept(s) && ClaimsKept(s) && AbandonStep(s, k).Some?
    ensures TableKept(AbandonStep(s, k).value) && ClaimsKept(AbandonStep(s, k).value)
  {
    var call := s.calls[k];
    CallsNeverShrink(s.engines[call.engine].sys, Cancel(call.inner));
    AbandonedKeepsPending(s, AbandonStep(s, k).value, k);
  }

  // ----- user isolation -----

  /** Stamped with digest `d`, and indeed minted for it. */
  function OwnedBy(minted: set<(string, Digest)>, d: Digest): (good: TokenTest) {
    (t: Token) => t.federatedFrom == Some(d.hex) && (t.access, d) in minted
  }

  function TextOwnedBy(minted: set<(string, Digest)>, d: Digest): (fine: AnswerTest) {
    (access: string) => (access, d) in minted
  }

  predicate AnyCredential(v: string) { true }

  /** Everything in the engine belongs to its digest, and whatever it handed out it still backs with a token. */
  ghost predicate BelongsTo(sys: Sys, minted: set<(string, Digest)>, d: Digest) {
    && HoldsOnly(sys, OwnedBy(minted, d), AnyCredential)
    && AnswersOnly(sys, TextOwnedBy(minted, d))
    && OkNeedsToken(sys)
  }

  lemma BelongsAfterMinting(sys: Sys, minted: set<(string, Digest)>, more: set<(string, Digest)>, d: Digest)
    requires BelongsTo(sys, minted, d) && minted <= more
    ensures BelongsTo(sys, more, d)
  {
  }

  lemma StepKeepsBelonging(sys: Sys, l: Label, minted: set<(string, Digest)>, d: Digest)
    requires BelongsTo(sys, minted, d) && Step(sys, l).Some? && BringsOnly(l, OwnedBy(minted, d))
    ensures BelongsTo(Step(sys, l).value, minted, d)
  {
    StepKeepsContents(sys, l, OwnedBy(minted, d), AnyCredential);
    StepKeepsAnswers(sys, l, OwnedBy(minted, d), AnyCredential, TextOwnedBy(minted, d));
    StepKeepsNeedsToken(sys, l);
  }

  ghost predicate IsIsolated(s: Strategy) {
    && (forall e :: 0 <= e < |s.engines| ==> BelongsTo(s.engines[e].sys, s.minted, s.engines[e].digest))
    && (forall k :: 0 <= k < |s.calls| && s.calls[k].Answered? && s.calls[k].answer.Ok? ==>
          (s.calls[k].answer.value, s.calls[k].digest) in s.minted)
    && (forall d :: d in s.table.cache.entries ==>
          s.table.cache.entries[d].handle < |s.engines| && s.engines[s.table.cache.entries[d].handle].sys.st.token.Some?)
  }

  lemma InsideKeepsIsolation(s: Strategy, e: nat, l: Label)
    requires IsIsolated(s) && InsideStep(s, e, l).Some?
    ensures IsIsolated(InsideStep(s, e, l).value)
  {
    var s' := InsideStep(s, e, l).value;
    var d, sys := s.engines[e].digest, s.engines[e].sys;
    forall o | 0 <= o < |s.engines| ensures BelongsTo(s.engines[o].sys, s'.minted, s.engines[o].digest) {
      BelongsAfterMinting(s.engines[o].sys, s.minted, s'.minted, s.engines[o].digest);
    }
    assert BringsOnly(SeenBy(l, d), OwnedBy(s'.minted, d));
    StepKeepsBelonging(sys, SeenBy(l, d), s'.minted, d);
    if sys.st.token.Some? { TokenStays(sys, SeenBy(l, d)); }
  }

  /** One more call that has no answer yet, over engines that belong and keep their tokens. */
  lemma OneMoreCallKeepsIsolation(s: Strategy, s': Strategy, call: UserCall)
    requires IsIsolated(s) && s'.minted == s.minted && s'.calls == s.calls + [call]
    requires call.Answered? ==> call.answer.Err?
    requires SameHandles(s.table.cache, s'.table.cache) && |s'.engines| >= |s.engines|
    requires forall e :: 0 <= e < |s'.engines| ==> BelongsTo(s'.engines[e].sys, s.minted, s'.engines[e].digest)
    requires forall e :: 0 <= e < |s.engines| ==> s'.engines[e].sys.st == s.engines[e].sys.st
    ensures IsIsolated(s')
  {
  }

  lemma AskKeepsBelonging(s: Strategy, d: Digest, now: U64, e: nat)
    requires IsIsolated(s) && e < |AskStep(s, d, now).engines|
    ensures BelongsTo(AskStep(s, d, now).engines[e].sys, s.minted, AskStep(s, d, now).engines[e].digest)
  {
    if e < |s.engines| {
      var sys := s.engines[e].sys;
      assert BelongsTo(sys, s.minted, s.engines[e].digest);
      StepKeepsBelonging(sys, Begin, s.minted, s.engines[e].digest);
      assert Step(sys, Begin).value == sys.(calls := sys.calls + [WantLock]);
    }
  }

  lemma AskShape(s: Strategy, d: Digest, now: U64)
    requires var found := EngineFor(s.table, d, now, |s.engines|).1; found.Ok? ==> found.value <= |s.engines|
    ensures var s' := AskStep(s, d, now);
            && s'.minted == s.minted && |s'.calls| == |s.calls| + 1 && s'.calls == s.calls + [s'.calls[|s.calls|]]
            && (s'.calls[|s.calls|].Answered? ==> s'.calls[|s.calls|].answer.Err?)
            && s'.table.cache == Looked(s.table.cache, d) && |s'.engines| >= |s.engines|
            && forall e :: 0 <= e < |s.engines| ==> s'.engines[e].sys.st == s.engines[e].sys.st
  {
  }

  lemma AskKeepsIsolation(s: Strategy, s': Strategy, d: Digest, now: U64)
    requires IsIsolated(s) && s' == AskStep(s, d, now)
    requires var found := EngineFor(s.table, d, now, |s.engines|).1; found.Ok? ==> found.value <= |s.engines|
    ensures IsIsolated(s')
  {
    LookupKeepsHandles(s.table.cache, d);
    AskShape(s, d, now);
    forall e | 0 <= e < |s'.engines| ensures BelongsTo(s'.engines[e].sys, s.minted, s'.engines[e].digest) {
      AskKeepsBelonging(s, d, now, e);
    }
    OneMoreCallKeepsIsolation(s, s', s'.calls[|s.calls|]);
  }

  lemma FinishKeepsIsolation(s: Strategy, k: nat, now: U64, victim: Option<Digest>)
    requires ClaimsKept(s) && IsIsolated(s) && FinishStep(s, k, now, victim).Some?
    ensures IsIsolated(FinishStep(s, k, now, victim).value)
  {
    var call := s.calls[k];
    var sys := s.engines[call.engine].sys;
    assert BelongsTo(sys, s.minted, call.digest);
    assert sys.calls[call.inner].Finished?;
    assert GoodAnswer(sys.calls[call.inner].answer, TextOwnedBy(s.minted, call.digest));
    assert sys.st.token.None? ==> GoodAnswer(sys.calls[call.inner].answer, NoText);
  }

  lemma AbandonKeepsIsolation(s: Strategy, k: nat)
    requires IsIsolated(s) && AbandonStep(s, k).Some?
    ensures IsIsolated(AbandonStep(s, k).value)
  {
    var call := s.calls[k];
    var sys := s.engines[call.engine].sys;
    StepKeepsBelonging(sys, Cancel(call.inner), s.minted, s.engines[call.engine].digest);
    if sys.st.token.Some? { TokenStays(sys, Cancel(call.inner)); }
  }

  ghost predicate StrategyInv(s: Strategy) {
    TableKept(s) && ClaimsKept(s) && IsIsolated(s)
  }

  lemma NextKeepsInv(s: Strategy, a: Act)
    requires StrategyInv(s) && Next(s, a).Some?
    ensures StrategyInv(Next(s, a).value)
  {
    match a
    case Ask(d, now) => AskKeepsTable(s, d, now); AskKeepsIsolation(s, AskStep(s, d, now), d, now);
    case Inside(e, l) => InsideKeepsTable(s, e, l); InsideKeepsIsolation(s, e, l);
    case Finish(k, now, victim) => FinishKeepsTable(s, k, now, victim); FinishKeepsIsolation(s, k, now, victim);
    case Abandon(k) => AbandonKeepsTable(s, k); AbandonKeepsIsolation(s, k);
  }

  lemma {:induction false} HistoryKeepsInv(capacity: nat, acts: seq<Act>)
    requires History(capacity, acts).Some?
    ensures StrategyInv(History(capacity, acts).value)
  {
    if acts != [] {
      HistoryKeepsInv(capacity, acts[..|acts| - 1]);
      NextKeepsInv(History(capacity, acts[..|acts| - 1]).value, acts[|acts| - 1]);
    }
  }

  // ----- theorems -----

  /**
    Isolation: with interleaved users, cancelled siblings and a store that may serve
    anything, a call for a JWT only ever returns a token text that was exchanged from
    that JWT, or stored under its stamp.
   */
  lemma UsersAreIsolated(capacity: nat, acts: seq<Act>, k: nat)
    requires History(capacity, acts).Some?
    requires var s := History(capacity, acts).value;
             k < |s.calls| && s.calls[k].Answered? && s.calls[k].answer.Ok?
    ensures var s := History(capacity, acts).value;
            (s.calls[k].answer.value, s.calls[k].digest) in s.minted
  {
    HistoryKeepsInv(capacity, acts);
  }

  // ----- with a store that only this strategy writes -----

  /** The token texts that exchanges gave, each with the digest of the JWT exchanged. */
  ghost function Exchanged(capacity: nat, acts: seq<Act>): (r: set<(string, Digest)>)
    requires History(capacity, acts).Some?
  {
    if acts == [] then {}
    else
      var before, a := acts[..|acts| - 1], acts[|acts| - 1];
      var s := History(capacity, before).value;
      Exchanged(capacity, before) + Exchanging(s, a)
  }

  function Exchanging(s: Strategy, a: Act): (r: set<(string, Digest)>) {
    if a.Inside? && a.l.ExchangeOk? && a.e < |s.engines| then {(a.l.newToken.access, s.engines[a.e].digest)} else {}
  }

  /** The tokens exchanges gave so far, stamped. A save of one, finished or torn down, may have put it into the slot. */
  ghost function Savable(capacity: nat, acts: seq<Act>): (r: set<Token>)
    requires History(capacity, acts).Some?
  {
    if acts == [] then {}
    else
      Savable(capacity, acts[..|acts| - 1]) +
      StampedBy(History(capacity, acts[..|acts| - 1]).value, acts[|acts| - 1])
  }

  function StampedBy(s: Strategy, a: Act): (r: set<Token>) {
    if a.Inside? && a.l.ExchangeOk? && a.e < |s.engines|
    then {a.l.newToken.(federatedFrom := Some(s.engines[a.e].digest.hex))} else {}
  }

  /** Every read of the store gives a token that some save may have put there, or nothing. */
  ghost predicate ReadsOwnSlot(capacity: nat, acts: seq<Act>)
    requires History(capacity, acts).Some?
  {
    acts == [] ||
    (ReadsOwnSlot(capacity, acts[..|acts| - 1]) &&
     var a := acts[|acts| - 1];
     a.Inside? && a.l.StoreRead? && a.l.loaded.Some? ==> a.l.loaded.value in Savable(capacity, acts[..|acts| - 1]))
  }

  ghost predicate IsVouchedFor(t: Token, minted: set<(string, Digest)>) {
    t.federatedFrom.Some? && (t.access, Digest(t.federatedFrom.value)) in minted
  }

  /** What the engines are about to save. */
  ghost predicate SavesOnly(s: Strategy, savable: set<Token>) {
    forall e, t :: 0 <= e < |s.engines| && 0 <= t < |s.engines[e].sys.tasks| ==>
      PhaseSavesOnly(s.engines[e].sys.tasks[t].phase, savable)
  }

  predicate PhaseSavesOnly(p: TaskPhase, savable: set<Token>) {
    p.NbSave? || p.BSave? ==> p.newToken in savable
  }

  lemma StepSavesOnly(s: Sys, l: Label, savable: set<Token>)
    requires Step(s, l).Some? && (l.ExchangeOk? ==> l.newToken in savable)
    requires forall t :: 0 <= t < |s.tasks| ==> PhaseSavesOnly(s.tasks[t].phase, savable)
    ensures forall t :: 0 <= t < |Step(s, l).value.tasks| ==> PhaseSavesOnly(Step(s, l).value.tasks[t].phase, savable)
  {
    var s' := Step(s, l).value;
    if IsTaskLabel(l) { TaskShape(s, l); } else { CallShape(s, l); }
    forall t | 0 <= t < |s'.tasks| ensures PhaseSavesOnly(s'.tasks[t].phase, savable) {
      if !IsTaskLabel(l) && t < |s.tasks| { assert s'.tasks[t] == s'.tasks[..|s.tasks|][t]; }
    }
  }

  lemma NextSavesOnly(s: Strategy, a: Act, savable: set<Token>)
    requires Next(s, a).Some? && SavesOnly(s, savable) && StampedBy(s, a) <= savable
    ensures SavesOnly(Next(s, a).value, savable)
  {
    var s' := Next(s, a).value;
    match a
    case Ask(_, _) =>
    case Inside(e, l) => StepSavesOnly(s.engines[e].sys, SeenBy(l, s.engines[e].digest), savable);
    case Finish(_, _, _) =>
    case Abandon(k) => StepSavesOnly(s.engines[s.calls[k].engine].sys, Cancel(s.calls[k].inner), savable);
  }

  /** Whatever an engine saves, or is saving when it is torn down, is such a token. */
  lemma {:induction false} SavesAreSavable(capacity: nat, acts: seq<Act>)
    requires History(capacity, acts).Some?
    ensures SavesOnly(History(capacity, acts).value, Savable(capacity, acts))
  {
    if acts != [] {
      var before, a := acts[..|acts| - 1], acts[|acts| - 1];
      SavesAreSavable(capacity, before);
      MoreIsSavable(History(capacity, before).value, Savable(capacity, before), Savable(capacity, acts));
      NextSavesOnly(History(capacity, before).value, a, Savable(capacity, acts));
    }
  }

  lemma MoreIsSavable(s: Strategy, savable: set<Token>, more: set<Token>)
    requires SavesOnly(s, savable) && savable <= more
    ensures SavesOnly(s, more)
  {
  }

  lemma NextMints(s: Strategy, a: Act)
    requires Next(s, a).Some?
    ensures Next(s, a).value.minted ==
            s.minted + if a.Inside? && a.e < |s.engines| then Minted(a.l, s.engines[a.e].digest) else {}
  {
  }

  lemma SlotStep(s: Strategy, a: Act, savable: set<Token>)
    requires Next(s, a).Some? && forall t :: t in savable ==> IsVouchedFor(t, s.minted)
    requires a.Inside? && a.l.StoreRead? && a.l.loaded.Some? ==> a.l.loaded.value in savable
    ensures Next(s, a).value.minted == s.minted + Exchanging(s, a)
    ensures forall t :: t in savable + StampedBy(s, a) ==> IsVouchedFor(t, s.minted + Exchanging(s, a))
  {
    NextMints(s, a);
  }

  lemma {:induction false} SlotIsVouchedFor(capacity: nat, acts: seq<Act>)
    requires History(capacity, acts).Some? && ReadsOwnSlot(capacity, acts)
    ensures History(capacity, acts).value.minted == Exchanged(capacity, acts)
    ensures forall t :: t in Savable(capacity, acts) ==> IsVouchedFor(t, Exchanged(capacity, acts))
  {
    if acts != [] {
      var before, a := acts[..|acts| - 1], acts[|acts| - 1];
      SlotIsVouchedFor(capacity, before);
      SlotStep(History(capacity, before).value, a, Savable(capacity, before));
    }
  }

  /**
    With such a store, a call only ever answers with a token that this strategy got by
    exchanging a JWT of the call's own digest.
   */
  lemma AnswersAreOwnExchanges(capacity: nat, acts: seq<Act>, k: nat)
    requires History(capacity, acts).Some? && ReadsOwnSlot(capacity, acts)
    requires var s := History(capacity, acts).value;
             k < |s.calls| && s.calls[k].Answered? && s.calls[k].answer.Ok?
    ensures var s := History(capacity, acts).value;
            (s.calls[k].answer.value, s.calls[k].digest) in Exchanged(capacity, acts)
  {
    UsersAreIsolated(capacity, acts, k);
    SlotIsVouchedFor(capacity, acts);
  }

  lemma {:induction false} HistoryKeepsCapacity(capacity: nat, acts: seq<Act>)
    requires History(capacity, acts).Some?
    ensures History(capacity, acts).value.table.cache.capacity == capacity
  {
    if acts != [] {
      HistoryKeepsCapacity(capacity, acts[..|acts| - 1]);
      NextKeepsCapacity(History(capacity, acts[..|acts| - 1]).value, acts[|acts| - 1]);
    }
  }

  lemma NextKeepsCapacity(s: Strategy, a: Act)
    requires Next(s, a).Some?
    ensures Next(s, a).value.table.cache.capacity == s.table.cache.capacity
  {
  }

  /** Every token an engine holds, cached or pending or forgotten, is stamped with the engine's digest. */
  lemma EnginesHoldOwnTokens(capacity: nat, acts: seq<Act>, e: nat)
    requires History(capacity, acts).Some? && e < |History(capacity, acts).value.engines|
    ensures var engine := History(capacity, acts).value.engines[e];
            engine.sys.st.token.Some? ==> engine.sys.st.token.value.federatedFrom == Some(engine.digest.hex)
    ensures var s := History(capacity, acts).value;
            forall d :: d in s.table.cache.entries ==>
              var h := s.table.cache.entries[d].handle;
              h < |s.engines| && s.engines[h].digest == d && s.engines[h].sys.st.token.Some?
    ensures |History(capacity, acts).value.table.cache.entries| <= capacity
  {
    HistoryKeepsInv(capacity, acts);
    HistoryKeepsCapacity(capacity, acts);
    assert BelongsTo(History(capacity, acts).value.engines[e].sys, History(capacity, acts).value.minted,
                     History(capacity, acts).value.engines[e].digest);
  }

  /** The calls that hold an unsettled claim. */
  function Unsettled(s: Strategy): (r: set<nat>) {
    set k: nat | k < |s.calls| && s.calls[k].Claimed?
  }

  lemma {:induction false} CreatorsInject(s: Strategy, ds: set<Digest>, claims: set<nat>)
    requires forall d :: d in ds ==>
               && d in s.table.pending && s.table.pending[d] < |s.engines|
               && s.engines[s.table.pending[d]].digest == d
               && var k := s.engines[s.table.pending[d]].creator;
                  k in claims && k < |s.calls| && s.calls[k].Claimed? && s.calls[k].engine == s.table.pending[d]
    ensures |ds| <= |claims|
    decreases ds
  {
    if ds != {} {
      var d :| d in ds;
      CreatorsInject(s, ds - {d}, claims - {s.engines[s.table.pending[d]].creator});
    }
  }

  /**
    Pending accounting: after any mix of success, failure and cancellation, every
    pending engine is held by the unsettled call that created it, so there are never
    more pending entries than calls in flight, and none when none is.
   */
  lemma PendingIsBounded(capacity: nat, acts: seq<Act>)
    requires History(capacity, acts).Some?
    ensures var s := History(capacity, acts).value;
            && |s.table.pending| <= |Unsettled(s)|
            && forall d :: d in s.table.pending ==>
                 s.table.pending[d] < |s.engines| && s.engines[s.table.pending[d]].creator in Unsettled(s)
  {
    HistoryKeepsInv(capacity, acts);
    var s := History(capacity, acts).value;
    CreatorsInject(s, s.table.pending.Keys, Unsettled(s));
    assert |s.table.pending.Keys| == |s.table.pending|;
  }

  predicate Succeeds(s: Strategy, a: Act) {
    a.Finish? && IsClaim(s, a.k) &&
    var inner := s.engines[s.calls[a.k].engine].sys.calls[s.calls[a.k].inner];
    inner.Finished? && inner.answer.Ok?
  }

  // What each operation of the table may take out of it or put into it, at one digest.

  lemma LookupLosesNothing(tb: Table, d: Digest, now: U64, newEngine: nat, x: Digest)
    ensures var tb' := EngineFor(tb, d, now, newEngine).0;
            && (x in tb'.cache.entries <==> x in tb.cache.entries)
            && (x in tb.cache.entries ==> tb'.cache.entries[x].handle == tb.cache.entries[x].handle)
            && (x in tb.pending ==> x in tb'.pending && tb'.pending[x] == tb.pending[x])
            && (x !in tb.pending && x in tb'.pending ==> x == d)
  {
  }

  lemma SettlingLosesItsOwn(tb: Table, d: Digest, e: nat, failure: Option<AuthError>, now: U64, victim: Option<Digest>, x: Digest)
    ensures var tb' := Settled(tb, d, e, failure, now, victim);
            && (x in tb'.pending ==> x in tb.pending)
            && (x in tb.pending && x !in tb'.pending ==> x == d && tb.pending[x] == e)
            && (x in tb.cache.entries && x !in tb'.cache.entries ==>
                  if failure.None? then victim == Some(x) else x == d && tb.cache.entries[x].handle == e)
            && (x !in tb.cache.entries && x in tb'.cache.entries ==> failure.None? && x == d)
            && (x in tb.pending && x in tb'.pending ==> tb'.pending[x] == tb.pending[x])
            && (x in tb.cache.entries && x in tb'.cache.entries ==>
                  tb'.cache.entries[x].handle ==
                  if failure.None? && x == d && tb.cache.capacity > 0 then e else tb.cache.entries[x].handle)
  {
  }

  lemma AbandoningLosesItsOwn(tb: Table, d: Digest, e: nat, x: Digest)
    ensures var tb' := Abandoned(tb, d, e);
            && tb'.cache == tb.cache && (x in tb'.pending ==> x in tb.pending)
            && (x in tb.pending && x !in tb'.pending ==> x == d && tb.pending[x] == e)
            && (x in tb.pending && x in tb'.pending ==> tb'.pending[x] == tb.pending[x])
  {
  }

  /**
    Containment: a step drops an entry only as follows. A failed or cancelled call
    drops its own engine's entry, never another digest's and never a newer engine's;
    a successful one may evict the cache's victim. Only success puts an engine into
    the cache, and only a new call makes one pending. An entry that stays keeps its
    engine, but for the cached one that a success of its own digest replaces.
   */
  lemma LossesAreContained(s: Strategy, a: Act, x: Digest)
    requires Next(s, a).Some?
    ensures var s' := Next(s, a).value;
            && (x in s.table.pending && x !in s'.table.pending ==>
                  && (a.Finish? || a.Abandon?) && IsClaim(s, a.k)
                  && x == s.calls[a.k].digest && s.table.pending[x] == s.calls[a.k].engine)
            && (x in s.table.cache.entries && x !in s'.table.cache.entries ==>
                  && a.Finish? && IsClaim(s, a.k)
                  && (if Succeeds(s, a) then a.victim == Some(x)
                      else x == s.calls[a.k].digest && s.table.cache.entries[x].handle == s.calls[a.k].engine))
            && (x !in s.table.cache.entries && x in s'.table.cache.entries ==> Succeeds(s, a) && x == s.calls[a.k].digest)
            && (x !in s.table.pending && x in s'.table.pending ==> a.Ask? && x == a.d)
            && (x in s.table.pending && x in s'.table.pending ==> s'.table.pending[x] == s.table.pending[x])
            && (x in s.table.cache.entries && x in s'.table.cache.entries ==>
                  s'.table.cache.entries[x].handle ==
                  if Succeeds(s, a) && x == s.calls[a.k].digest && s.table.cache.capacity > 0 then s.calls[a.k].engine
                  else s.table.cache.entries[x].handle)
  {
    match a
    case Ask(d, now) => LookupLosesNothing(s.table, d, now, |s.engines|, x);
    case Inside(_, _) =>
    case Finish(k, now, victim) =>
      var call := s.calls[k];
      var answer := ToPublic(s.engines[call.engine].sys.calls[call.inner].answer);
      SettlingLosesItsOwn(s.table, call.digest, call.engine, if answer.Ok? then None else Some(answer.error), now, victim, x);
    case Abandon(k) => AbandoningLosesItsOwn(s.table, s.calls[k].digest, s.calls[k].engine, x);
  }

  // ----- the refusal that answers every new JWT -----

  /** A call settles with a refusal of the account. */
  predicate SettlesRefusal(s: Strategy, a: Act) {
    a.Finish? && IsClaim(s, a.k) &&
    var inner := s.engines[s.calls[a.k].engine].sys.calls[s.calls[a.k].inner];
    inner.Finished? && inner.answer.Err? && IsAccountRefusal(ToAuthError(inner.answer.error))
  }

  /** A call finds neither a cached nor a pending engine, and consults the refusal. */
  predicate ConsultsRefusal(s: Strategy, a: Act) {
    a.Ask? && a.d !in s.table.cache.entries && a.d !in s.table.pending
  }

  /** The strategy's own reading of the clock in a step, if it takes one. */
  function OwnReading(s: Strategy, a: Act): (r: Option<U64>) {
    if ConsultsRefusal(s, a) || SettlesRefusal(s, a) then Some(a.now) else None
  }

  ghost function OwnClock(capacity: nat, acts: seq<Act>): (k: U64)
    requires History(capacity, acts).Some?
  {
    if acts == [] then 0
    else
      var r := OwnReading(History(capacity, acts[..|acts| - 1]).value, acts[|acts| - 1]);
      if r.Some? then r.value else OwnClock(capacity, acts[..|acts| - 1])
  }

  ghost predicate IsSteady(capacity: nat, acts: seq<Act>)
    requires History(capacity, acts).Some?
  {
    acts == [] ||
    (IsSteady(capacity, acts[..|acts| - 1]) &&
     var r := OwnReading(History(capacity, acts[..|acts| - 1]).value, acts[|acts| - 1]);
     r.Some? ==> OwnClock(capacity, acts[..|acts| - 1]) <= r.value)
  }

  /** When the account was last refused, to whichever user. */
  ghost function LastRefused(capacity: nat, acts: seq<Act>): (r: Option<U64>)
    requires History(capacity, acts).Some?
  {
    if acts == [] then None
    else if SettlesRefusal(History(capacity, acts[..|acts| - 1]).value, acts[|acts| - 1]) then Some(acts[|acts| - 1].now)
    else LastRefused(capacity, acts[..|acts| - 1])
  }

  /** The last refusal is remembered, or at least sixty seconds old. */
  predicate RefusalKept(denial: Option<StickyDenial>, last: Option<U64>, clock: U64) {
    && (denial.Some? ==> last == Some(denial.value.recordedAt) && denial.value.recordedAt <= clock)
    && (last.Some? && denial.None? ==> clock >= last.value + DENIAL_TTL_SECS)
  }

  lemma NextKeepsRefusal(s: Strategy, a: Act, last: Option<U64>, clock: U64)
    requires Next(s, a).Some? && RefusalKept(s.table.denial, last, clock)
    requires OwnReading(s, a).Some? ==> clock <= OwnReading(s, a).value
    ensures RefusalKept(Next(s, a).value.table.denial,
                        if SettlesRefusal(s, a) then Some(a.now) else last,
                        if OwnReading(s, a).Some? then OwnReading(s, a).value else clock)
  {
  }

  lemma {:induction false} HistoryKeepsRefusal(capacity: nat, acts: seq<Act>)
    requires History(capacity, acts).Some? && IsSteady(capacity, acts)
    ensures RefusalKept(History(capacity, acts).value.table.denial, LastRefused(capacity, acts), OwnClock(capacity, acts))
  {
    if acts != [] {
      var before := acts[..|acts| - 1];
      HistoryKeepsRefusal(capacity, before);
      NextKeepsRefusal(History(capacity, before).value, acts[|acts| - 1], LastRefused(capacity, before), OwnClock(capacity, before));
    }
  }

  /** A new engine is made exactly where the refusal is consulted and is not fresh. */
  lemma NewEngineNeedsNoFreshRefusal(s: Strategy, a: Act)
    requires Next(s, a).Some? && TableKept(s)
    ensures |Next(s, a).value.engines| > |s.engines| <==>
            ConsultsRefusal(s, a) && !(s.table.denial.Some? && !s.table.denial.value.IsStale(a.now))
  {
    if a.Ask? { AskMakesAnEngine(s, a.d, a.now); }
  }

  lemma AskMakesAnEngine(s: Strategy, d: Digest, now: U64)
    requires TableKept(s)
    ensures |AskStep(s, d, now).engines| > |s.engines| <==>
            && d !in s.table.cache.entries && d !in s.table.pending
            && !(s.table.denial.Some? && !s.table.denial.value.IsStale(now))
  {
  }

  lemma ConsultedWaits(s: Strategy, a: Act, last: Option<U64>, clock: U64)
    requires RefusalKept(s.table.denial, last, clock) && ConsultsRefusal(s, a) && clock <= a.now
    requires !(s.table.denial.Some? && !s.table.denial.value.IsStale(a.now))
    ensures last.Some? ==> a.now >= last.value + DENIAL_TTL_SECS
  {
  }

  /**
    The rate limit across users: over every history with a steady clock, no engine is made
    for a JWT without one within sixty seconds of the last refusal of the account, whoever
    got that refusal.
   */
  lemma NewEnginesWaitTheirTurn(capacity: nat, acts: seq<Act>, a: Act)
    requires History(capacity, acts).Some? && IsSteady(capacity, acts) && Next(History(capacity, acts).value, a).Some?
    requires |Next(History(capacity, acts).value, a).value.engines| > |History(capacity, acts).value.engines|
    requires a.Ask? ==> OwnClock(capacity, acts) <= a.now
    ensures a.Ask? && (LastRefused(capacity, acts).Some? ==> a.now >= LastRefused(capacity, acts).value + 60)
  {
    HistoryKeepsInv(capacity, acts);
    HistoryKeepsRefusal(capacity, acts);
    NewEngineNeedsNoFreshRefusal(History(capacity, acts).value, a);
    ConsultedWaits(History(capacity, acts).value, a, LastRefused(capacity, acts), OwnClock(capacity, acts));
  }
}
