/**
  The cross-process refresh protocol of a device session. Any number of processes,
  each running a whole refresh engine, share one profile file: lock, re-read,
  exchange, save. What makes an accepted exchange a replay of a rotated refresh token
  is stated for every run, with reads and saves that fail and tasks that are torn down.
 */
module DeviceSession {
  import opened Prelude
  import opened AuthErrors
  import opened Tokens
  import opened RefreshState
  import opened RefreshProtocol
  import opened RefreshSafety
  import opened EngineContents

  /** A token on disk with another refresh token than ours: a sibling has rotated meanwhile. */
  function FreshlyRefreshed(disk: Option<Token>, credential: string): (r: Option<Token>)
    ensures r.Some? <==> disk.Some? && disk.value.refresh.Some? && disk.value.refresh != Some(credential)
    ensures r.Some? ==> r == disk
  {
    if disk.Some? && disk.value.refresh.Some? && disk.value.refresh.value != credential then disk else None
  }

  // ----- one refresh, in place -----

  /** The profile file of a workspace. */
  class ProfileFile {
    var token: Option<Token>

    constructor (token: Option<Token>)
      ensures this.token == token
    {
      this.token := token;
    }

    /**
      One `refresh` with the file lock held throughout. The issuer's answer and the
      outcomes of locking, reading and saving come from outside. A read that fails counts
      as nothing rotated, and the exchange goes on.
     */
    method Refresh(credential: string, lockError: Option<AuthError>, readFails: bool, answer: Result<Token, AuthError>,
                   saveError: Option<string>)
      returns (r: Result<Token, AuthError>, exchanged: bool)
      modifies this
      ensures exchanged <==> lockError.None? && (readFails || FreshlyRefreshed(old(token), credential).None?)
      ensures lockError.Some? ==> r == Err(lockError.value) && token == old(token)
      ensures lockError.None? && !exchanged ==> r == Ok(old(token).value) && token == old(token)
      ensures exchanged && answer.Err? ==> r == answer && token == old(token)
      ensures exchanged && answer.Ok? && saveError.Some? ==> r == Err(Store(saveError.value)) && token == old(token)
      ensures exchanged && answer.Ok? && saveError.None? ==> r == answer && token == Some(answer.value)
    {
      exchanged := false;
      if lockError.Some? {
        return Err(lockError.value), false;
      }
      if !readFails && token.Some? && token.value.refresh.Some? && token.value.refresh.value != credential {
        return Ok(token.value), false;
      }
      exchanged := true;
      if answer.Err? {
        return answer, true;
      }
      if saveError.Some? {
        return Err(Store(saveError.value)), true;
      }
      token := Some(answer.value);
      return answer, true;
    }
  }

  // ----- processes sharing one profile -----

  /** How far a process's `refresh` has got. */
  datatype Stage = Waiting | Locked | Rotated(newToken: Token)

  datatype Process = Process(engine: Sys, stage: Stage)

  /**
    `issued` and `spent` record the issuer's side: refresh tokens in order of issue, and
    those it accepted. `onDisk` is the generation of the one in the file.
   */
  datatype Cluster = Cluster(
    procs: seq<Process>,
    disk: Option<Token>,
    fileLock: Option<nat>,
    issued: seq<string>,
    spent: seq<string>,
    onDisk: nat)

  datatype Move =
    | Launch                                            // a process starts from the file
    | Engine(p: nat, l: Label)                          // any step of its engine outside `refresh`
    | LockFails(p: nat, t: nat, err: AuthError, now: U64)
    | Acquire(p: nat, t: nat)
    | TakeDisk(p: nat, t: nat)                          // a sibling rotated: use its token
    | Rotate(p: nat, t: nat, newToken: Token, readFails: bool)   // the issuer accepts and rotates
    | Refuse(p: nat, t: nat, err: AuthError, now: U64, readFails: bool)
    | Save(p: nat, t: nat)
    | SaveFails(p: nat, t: nat, cause: string, now: U64)
    | Torn(p: nat, t: nat)                              // the task is torn down inside `refresh`

  /** The refresh token that task `t` offers to the issuer, while its exchange is open. */
  function Offered(s: Sys, t: nat): (v: Option<string>) {
    if t < |s.tasks| && IsExchanging(s.tasks[t].phase) && s.tasks[t].phase.credential.RefreshToken?
    then Some(s.tasks[t].phase.credential.value) else None
  }

  predicate IsOwnStep(s: Sys, l: Label) {
    && !l.ExchangeOk? && !l.ExchangeErr?
    && (l.Teardown? ==> Offered(s, l.t).None?) && (l.StoreRead? ==> l.loaded.None?)
  }

  /** Process `p` leaves `refresh` with the engine label `l`, releasing the file lock if it held it. */
  function Leave(k: Cluster, p: nat, l: Label): (r: Option<Cluster>)
    requires p < |k.procs|
  {
    var s' := Step(k.procs[p].engine, l);
    if s'.None? then None
    else Some(k.(procs := k.procs[p := Process(s'.value, Waiting)],
                 fileLock := if k.fileLock == Some(p) then None else k.fileLock))
  }

  /** Under the lock, the process goes on to exchange `v`: its read failed, or found nothing newer. */
  predicate GoesToIssuer(k: Cluster, proc: Process, v: string, readFails: bool) {
    proc.stage.Locked? && (readFails || FreshlyRefreshed(k.disk, v).None?)
  }

  function ClusterStep(k: Cluster, m: Move): (r: Option<Cluster>)
  {
    if m.Launch? then Some(k.(procs := k.procs + [Process(Initial(Refresher.DeviceSession, k.disk), Waiting)]))
    else if m.p >= |k.procs| then None
    else
      var proc := k.procs[m.p];
      if m.Engine? then
        var s' := Step(proc.engine, m.l);
        if IsOwnStep(proc.engine, m.l) && s'.Some? then Some(k.(procs := k.procs[m.p := proc.(engine := s'.value)])) else None
      else
        var v := Offered(proc.engine, m.t);
        if v.None? then None else
          match m
          case LockFails(p, t, err, now) =>
            if proc.stage.Waiting? && !CredentialConsumed(err) then Leave(k, p, ExchangeErr(t, err, now)) else None
          case Acquire(p, t) =>
            if proc.stage.Waiting? && k.fileLock.None?
            then Some(k.(procs := k.procs[p := proc.(stage := Locked)], fileLock := Some(p))) else None
          case TakeDisk(p, t) =>
            if proc.stage.Locked? && FreshlyRefreshed(k.disk, v.value).Some?
            then Leave(k, p, ExchangeOk(t, k.disk.value)) else None
          case Rotate(p, t, newToken, readFails) =>
            // A rotation yields a refresh token never issued before.
            if GoesToIssuer(k, proc, v.value, readFails) && newToken.refresh.Some? && newToken.refresh.value !in k.issued
            then Some(k.(procs := k.procs[p := proc.(stage := Rotated(newToken))],
                         issued := k.issued + [newToken.refresh.value], spent := k.spent + [v.value]))
            else None
          case Refuse(p, t, err, now, readFails) =>
            if GoesToIssuer(k, proc, v.value, readFails) && !CredentialConsumed(err)
            then Leave(k, p, ExchangeErr(t, err, now)) else None
          case Save(p, t) =>
            if proc.stage.Rotated? && |k.issued| > 0
            then Leave(k.(disk := Some(proc.stage.newToken), onDisk := |k.issued| - 1), p, ExchangeOk(t, proc.stage.newToken))
            else None
          case SaveFails(p, t, cause, now) =>
            if proc.stage.Rotated? then Leave(k, p, ExchangeErr(t, Store(cause), now)) else None
          case Torn(p, t) => Leave(k, p, Teardown(t))
          case _ => None
  }

  // The surroundings are free here too, stage by stage.

  /** Whoever waits may meet a lock error, or find the lock free. */
  lemma WaitingIsFree(k: Cluster, p: nat, t: nat, err: AuthError, now: U64)
    requires p < |k.procs| && Offered(k.procs[p].engine, t).Some? && k.procs[p].stage.Waiting?
    ensures !err.Store? ==> ClusterStep(k, LockFails(p, t, err, now)).Some?
    ensures k.fileLock.None? ==> ClusterStep(k, Acquire(p, t)).Some?
  {
  }

  /** Under the lock the file may not be readable; the issuer may then accept or refuse. */
  lemma LockedIsFree(k: Cluster, p: nat, t: nat, newToken: Token, err: AuthError, now: U64)
    requires p < |k.procs| && Offered(k.procs[p].engine, t).Some? && k.procs[p].stage.Locked?
    ensures newToken.refresh.Some? && newToken.refresh.value !in k.issued ==> ClusterStep(k, Rotate(p, t, newToken, true)).Some?
    ensures !err.Store? ==> ClusterStep(k, Refuse(p, t, err, now, true)).Some?
    ensures ClusterStep(k, TakeDisk(p, t)).Some? <==> FreshlyRefreshed(k.disk, Offered(k.procs[p].engine, t).value).Some?
  {
  }

  /** A rotation may be saved or not. */
  lemma RotatedIsFree(k: Cluster, p: nat, t: nat, cause: string, now: U64)
    requires p < |k.procs| && Offered(k.procs[p].engine, t).Some? && k.procs[p].stage.Rotated? && k.issued != []
    ensures ClusterStep(k, Save(p, t)).Some? && ClusterStep(k, SaveFails(p, t, cause, now)).Some?
  {
  }

  /** And the task may be torn down at every stage. */
  lemma TornAnytime(k: Cluster, p: nat, t: nat)
    requires p < |k.procs| && Offered(k.procs[p].engine, t).Some?
    ensures ClusterStep(k, Torn(p, t)).Some?
  {
  }

  /** Nothing runs yet; the file holds a session's first token. */
  function Start(first: Token): (k: Cluster)
    requires first.refresh.Some?
  {
    Cluster([], Some(first), None, [first.refresh.value], [], 0)
  }

  function Moves(k: Cluster, ms: seq<Move>): (r: Option<Cluster>) {
    if ms == [] then Some(k)
    else
      var before := Moves(k, ms[..|ms| - 1]);
      if before.None? then None else ClusterStep(before.value, ms[|ms| - 1])
  }

  // ----- invariant of every run -----

  predicate IsDistinct(vs: seq<string>) {
    forall i, j :: 0 <= i < j < |vs| ==> vs[i] != vs[j]
  }

  function Among(vs: seq<string>): (known: CredentialTest) { v => v in vs }

  function WithRefreshAmong(vs: seq<string>): (good: TokenTest) {
    (t: Token) => t.refresh.Some? ==> t.refresh.value in vs
  }

  /** Every credential the engine holds is one of `vs`. */
  ghost predicate Draws(s: Sys, vs: seq<string>) {
    HoldsOnly(s, WithRefreshAmong(vs), Among(vs))
  }

  ghost predicate LockHeld(k: Cluster) {
    && (k.fileLock.Some? ==> k.fileLock.value < |k.procs|)
    && (forall p :: 0 <= p < |k.procs| ==> (!k.procs[p].stage.Waiting? <==> k.fileLock == Some(p)))
  }

  function Latest(k: Cluster): (v: string)
    requires k.issued != []
  {
    k.issued[|k.issued| - 1]
  }

  /** The issuer's books: tokens are issued once, and whatever was accepted is older than the latest. */
  ghost predicate BooksKept(k: Cluster) {
    && k.issued != [] && IsDistinct(k.issued)
    && (forall v :: v in k.spent ==> v in k.issued && v != Latest(k))
    && (forall p :: 0 <= p < |k.procs| && k.procs[p].stage.Rotated? ==> k.procs[p].stage.newToken.refresh == Some(Latest(k)))
  }

  /** The file holds its generation, and nobody holds a newer one. */
  ghost predicate FileLeads(k: Cluster) {
    && k.onDisk < |k.issued|
    && k.disk.Some? && k.disk.value.refresh == Some(k.issued[k.onDisk])
    && forall p :: 0 <= p < |k.procs| ==> Draws(k.procs[p].engine, k.issued[..k.onDisk + 1])
  }

  ghost predicate ClusterInv(k: Cluster) {
    LockHeld(k) && BooksKept(k) && FileLeads(k)
  }

  ghost predicate IsWithin(vs: seq<string>, ws: seq<string>) { forall v :: v in vs ==> v in ws }

  lemma MoreIsStillDrawn(s: Sys, vs: seq<string>, ws: seq<string>)
    requires Draws(s, vs) && IsWithin(vs, ws)
    ensures Draws(s, ws)
  {
  }

  lemma EngineStepDraws(s: Sys, l: Label, vs: seq<string>)
    requires Draws(s, vs) && Step(s, l).Some? && BringsOnly(l, WithRefreshAmong(vs))
    ensures Draws(Step(s, l).value, vs)
  {
    StepKeepsContents(s, l, WithRefreshAmong(vs), Among(vs));
  }

  /** The token that comes out of `refresh`, if one does. */
  function Delivered(k: Cluster, m: Move): (t: Option<Token>) {
    if m.TakeDisk? then k.disk
    else if m.Save? && m.p < |k.procs| && k.procs[m.p].stage.Rotated? then Some(k.procs[m.p].stage.newToken)
    else None
  }

  /** Whatever engine a move touches draws on nothing but `vs`, if the token it is handed does. */
  lemma MoveDraws(k: Cluster, m: Move, p: nat, vs: seq<string>)
    requires ClusterStep(k, m).Some? && p < |k.procs| && Draws(k.procs[p].engine, vs)
    requires GoodOption(Delivered(k, m), WithRefreshAmong(vs))
    ensures p < |ClusterStep(k, m).value.procs| && Draws(ClusterStep(k, m).value.procs[p].engine, vs)
  {
    var s := k.procs[p].engine;
    if !m.Launch? && m.p == p {
      match m
      case Engine(_, l) => EngineStepDraws(s, l, vs);
      case LockFails(_, t, err, now) => EngineStepDraws(s, ExchangeErr(t, err, now), vs);
      case TakeDisk(_, t) => EngineStepDraws(s, ExchangeOk(t, k.disk.value), vs);
      case Refuse(_, t, err, now, _) => EngineStepDraws(s, ExchangeErr(t, err, now), vs);
      case Save(_, t) => EngineStepDraws(s, ExchangeOk(t, k.procs[p].stage.newToken), vs);
      case SaveFails(_, t, cause, now) => EngineStepDraws(s, ExchangeErr(t, Store(cause), now), vs);
      case Torn(_, t) => EngineStepDraws(s, Teardown(t), vs);
      case _ =>
    }
  }

  lemma MoveKeepsLock(k: Cluster, m: Move)
    requires LockHeld(k) && ClusterStep(k, m).Some?
    ensures LockHeld(ClusterStep(k, m).value)
  {
  }

  /** What an exchange offers is a generation up to the one in the file. */
  lemma OfferIsHeld(k: Cluster, p: nat, t: nat) returns (g: nat)
    requires FileLeads(k) && p < |k.procs| && Offered(k.procs[p].engine, t).Some?
    ensures g <= k.onDisk && Offered(k.procs[p].engine, t).value == k.issued[g]
  {
    var held := k.issued[..k.onDisk + 1];
    assert GoodPhase(k.procs[p].engine.tasks[t].phase, WithRefreshAmong(held), Among(held));
    g :| 0 <= g < |held| && held[g] == Offered(k.procs[p].engine, t).value;
  }

  lemma MoveKeepsBooks(k: Cluster, m: Move)
    requires ClusterInv(k) && ClusterStep(k, m).Some?
    ensures BooksKept(ClusterStep(k, m).value)
  {
    var k' := ClusterStep(k, m).value;
    MoveKeepsLock(k, m);
    if m.Rotate? {
      var g := OfferIsHeld(k, m.p, m.t);
      assert Latest(k') == m.newToken.refresh.value;
      assert k'.fileLock == Some(m.p);
    }
  }

  /** A token handed out by `refresh` is the latest generation, or the one in the file. */
  lemma DeliveryIsNewer(k: Cluster, m: Move)
    requires ClusterInv(k) && ClusterStep(k, m).Some? && Delivered(k, m).Some?
    ensures Delivered(k, m).value.refresh == Some(if m.Save? then Latest(k) else k.issued[k.onDisk])
    ensures m.TakeDisk? ==> exists g :: 0 <= g < k.onDisk && Offered(k.procs[m.p].engine, m.t) == Some(k.issued[g])
  {
    if m.TakeDisk? {
      var g := OfferIsHeld(k, m.p, m.t);
    }
  }

  lemma MoveKeepsHeld(k: Cluster, m: Move, p: nat)
    requires ClusterInv(k) && ClusterStep(k, m).Some? && p < |k.procs|
    ensures var k' := ClusterStep(k, m).value;
            k'.onDisk < |k'.issued| && p < |k'.procs| && Draws(k'.procs[p].engine, k'.issued[..k'.onDisk + 1])
  {
    FileMoves(k, m);
    var k' := ClusterStep(k, m).value;
    HeldMoves(k, m, p, k.issued[..k.onDisk + 1], k'.issued[..k'.onDisk + 1]);
  }

  lemma HeldMoves(k: Cluster, m: Move, p: nat, held: seq<string>, held': seq<string>)
    requires ClusterStep(k, m).Some? && p < |k.procs| && Draws(k.procs[p].engine, held) && IsWithin(held, held')
    requires GoodOption(Delivered(k, m), WithRefreshAmong(held'))
    ensures p < |ClusterStep(k, m).value.procs| && Draws(ClusterStep(k, m).value.procs[p].engine, held')
  {
    MoreIsStillDrawn(k.procs[p].engine, held, held');
    MoveDraws(k, m, p, held');
  }

  lemma MoveKeepsFile(k: Cluster, m: Move)
    requires ClusterInv(k) && ClusterStep(k, m).Some?
    ensures FileLeads(ClusterStep(k, m).value)
  {
    var k' := ClusterStep(k, m).value;
    FileMoves(k, m);
    Population(k, m);
    forall p | 0 <= p < |k'.procs| ensures Draws(k'.procs[p].engine, k'.issued[..k'.onDisk + 1]) {
      if p < |k.procs| { MoveKeepsHeld(k, m, p); } else { LaunchedDraws(k'.disk, k'.issued, k'.onDisk); }
    }
  }

  lemma Population(k: Cluster, m: Move)
    requires ClusterStep(k, m).Some?
    ensures var k' := ClusterStep(k, m).value;
            if m.Launch? then
              |k'.procs| == |k.procs| + 1 && k'.procs[|k.procs|].engine == Initial(Refresher.DeviceSession, k'.disk)
            else |k'.procs| == |k.procs|
  {
  }

  lemma LaunchedDraws(disk: Option<Token>, issued: seq<string>, g: nat)
    requires g < |issued| && disk.Some? && disk.value.refresh == Some(issued[g])
    ensures Draws(Initial(Refresher.DeviceSession, disk), issued[..g + 1])
  {
    assert issued[..g + 1][g] == issued[g];
  }

  /** The file never goes back a generation, and whatever is delivered is in it by then. */
  lemma FileMoves(k: Cluster, m: Move)
    requires ClusterInv(k) && ClusterStep(k, m).Some?
    ensures var k' := ClusterStep(k, m).value;
            && k.onDisk <= k'.onDisk < |k'.issued| && k'.disk.Some? && k'.disk.value.refresh == Some(k'.issued[k'.onDisk])
            && IsWithin(k.issued[..k.onDisk + 1], k'.issued[..k'.onDisk + 1])
            && GoodOption(Delivered(k, m), WithRefreshAmong(k'.issued[..k'.onDisk + 1]))
  {
    var k' := ClusterStep(k, m).value;
    var held, held' := k.issued[..k.onDisk + 1], k'.issued[..k'.onDisk + 1];
    if Delivered(k, m).Some? { DeliveryIsNewer(k, m); }
    assert forall g :: 0 <= g <= k.onDisk ==> held'[g] == held[g];
    assert held'[k'.onDisk] == k'.issued[k'.onDisk];
  }

  lemma {:induction false} RunKeepsClusterInv(first: Token, ms: seq<Move>)
    requires first.refresh.Some? && Moves(Start(first), ms).Some?
    ensures ClusterInv(Moves(Start(first), ms).value)
  {
    if ms != [] {
      RunKeepsClusterInv(first, ms[..|ms| - 1]);
      var k, m := Moves(Start(first), ms[..|ms| - 1]).value, ms[|ms| - 1];
      MoveKeepsLock(k, m);
      MoveKeepsBooks(k, m);
      MoveKeepsFile(k, m);
    }
  }

  // ----- when an accepted exchange is a replay -----

  /** The accepted exchange presents a value that was accepted before. */
  predicate IsReplay(k: Cluster, m: Move)
    requires m.Rotate? && ClusterStep(k, m).Some?
  {
    Offered(k.procs[m.p].engine, m.t).value in k.spent
  }

  /**
    In every run at all: a replay offers a value that is no longer the latest, and either
    the process could not read the file or the file itself holds a spent value.
   */
  lemma ReplayNeedsAStaleFile(first: Token, ms: seq<Move>, m: Move)
    requires first.refresh.Some? && Moves(Start(first), ms).Some?
    requires m.Rotate? && ClusterStep(Moves(Start(first), ms).value, m).Some? && IsReplay(Moves(Start(first), ms).value, m)
    ensures var k := Moves(Start(first), ms).value;
            && k.issued != [] && k.disk.Some? && Offered(k.procs[m.p].engine, m.t) != Some(Latest(k))
            && (m.readFails || (k.disk.value.refresh == Offered(k.procs[m.p].engine, m.t) && k.disk.value.refresh.value in k.spent))
  {
    RunKeepsClusterInv(first, ms);
  }

  /** While nothing was replayed: all that anybody can hold is spent but for the latest, and a rotation came from the latest. */
  ghost predicate NothingReplayed(k: Cluster) {
    && (forall g :: 0 <= g <= k.onDisk && g < |k.issued| - 1 ==> k.issued[g] in k.spent)
    && (forall p :: 0 <= p < |k.procs| && k.procs[p].stage.Rotated? ==> k.onDisk == |k.issued| - 2)
  }

  /** Then an accepted exchange is a replay exactly when what it offers is not the latest. */
  lemma ReplaysTheOld(k: Cluster, m: Move)
    requires ClusterInv(k) && NothingReplayed(k) && m.Rotate? && ClusterStep(k, m).Some?
    ensures IsReplay(k, m) <==> Offered(k.procs[m.p].engine, m.t) != Some(Latest(k))
    ensures !m.readFails ==> Offered(k.procs[m.p].engine, m.t) == k.disk.value.refresh
    ensures !IsReplay(k, m) ==> k.onDisk == |k.issued| - 1
  {
    var g := OfferIsHeld(k, m.p, m.t);
  }

  lemma MoveReplaysNothing(k: Cluster, m: Move)
    requires ClusterInv(k) && NothingReplayed(k) && ClusterStep(k, m).Some? && (m.Rotate? ==> !IsReplay(k, m))
    ensures NothingReplayed(ClusterStep(k, m).value)
  {
    var k' := ClusterStep(k, m).value;
    MoveKeepsLock(k, m);
    if m.Rotate? {
      ReplaysTheOld(k, m);
      assert k'.spent[|k.spent|] == Latest(k);
      assert forall v :: v in k.spent ==> v in k'.spent;
      assert forall g :: 0 <= g < |k.issued| ==> k'.issued[g] == k.issued[g];
    }
  }

  lemma {:induction false} DistinctMeansNothingReplayed(first: Token, ms: seq<Move>)
    requires first.refresh.Some? && Moves(Start(first), ms).Some? && IsDistinct(Moves(Start(first), ms).value.spent)
    ensures NothingReplayed(Moves(Start(first), ms).value)
  {
    if ms != [] {
      var k, m := Moves(Start(first), ms[..|ms| - 1]).value, ms[|ms| - 1];
      SpentGrows(k, m);
      DistinctMeansNothingReplayed(first, ms[..|ms| - 1]);
      RunKeepsClusterInv(first, ms[..|ms| - 1]);
      MoveReplaysNothing(k, m);
    }
  }

  lemma SpentGrows(k: Cluster, m: Move)
    requires ClusterStep(k, m).Some?
    ensures var k' := ClusterStep(k, m).value;
            if m.Rotate? then k'.spent == k.spent + [Offered(k.procs[m.p].engine, m.t).value] else k'.spent == k.spent
    ensures IsDistinct(ClusterStep(k, m).value.spent) ==> IsDistinct(k.spent) && (m.Rotate? ==> !IsReplay(k, m))
    ensures IsDistinct(k.spent) && (m.Rotate? ==> !IsReplay(k, m)) ==> IsDistinct(ClusterStep(k, m).value.spent)
  {
    var k' := ClusterStep(k, m).value;
    assert forall i :: 0 <= i < |k.spent| ==> k'.spent[i] == k.spent[i];
    if m.Rotate? { assert k'.spent[|k.spent|] == Offered(k.procs[m.p].engine, m.t).value; }
  }

  /**
    The exact condition: in any run, an accepted exchange is the first replay exactly when
    it offers a value that is not the latest; and what it offers is the value in the file
    unless it could not read that.
   */
  lemma FirstReplayIsExact(first: Token, ms: seq<Move>, m: Move)
    requires first.refresh.Some? && Moves(Start(first), ms).Some? && IsDistinct(Moves(Start(first), ms).value.spent)
    requires m.Rotate? && ClusterStep(Moves(Start(first), ms).value, m).Some?
    ensures var k := Moves(Start(first), ms).value;
            var offered := Offered(k.procs[m.p].engine, m.t);
            && k.issued != [] && k.disk.Some?
            && (IsReplay(k, m) <==> offered != Some(Latest(k)))
            && (!m.readFails ==> offered == k.disk.value.refresh)
  {
    RunKeepsClusterInv(first, ms);
    DistinctMeansNothingReplayed(first, ms);
    ReplaysTheOld(Moves(Start(first), ms).value, m);
  }

  // ----- no replay while the file is read and written -----

  /** No rotation is lost: none fails to save, and none is torn down before it is saved. */
  predicate KeepsRotations(k: Cluster, m: Move) {
    !m.SaveFails? && (m.Torn? && m.p < |k.procs| ==> !k.procs[m.p].stage.Rotated?)
  }

  /** Every rotation is saved, and every exchange follows a read of the file. */
  predicate FileServes(first: Token, ms: seq<Move>)
    requires first.refresh.Some? && Moves(Start(first), ms).Some?
  {
    ms == [] ||
    (FileServes(first, ms[..|ms| - 1]) &&
     KeepsRotations(Moves(Start(first), ms[..|ms| - 1]).value, ms[|ms| - 1]) &&
     !(ms[|ms| - 1].Rotate? && ms[|ms| - 1].readFails))
  }

  /** The file holds the latest token, except while its save is due. */
  ghost predicate FileIsLatest(k: Cluster) {
    k.onDisk == |k.issued| - 1 || (k.fileLock.Some? && k.fileLock.value < |k.procs| && k.procs[k.fileLock.value].stage.Rotated?)
  }

  lemma MoveKeepsFileLatest(k: Cluster, m: Move)
    requires ClusterInv(k) && FileIsLatest(k) && KeepsRotations(k, m) && ClusterStep(k, m).Some?
    ensures FileIsLatest(ClusterStep(k, m).value)
  {
    MoveKeepsLock(k, m);
  }

  lemma {:induction false} ServedFileIsLatest(first: Token, ms: seq<Move>)
    requires first.refresh.Some? && Moves(Start(first), ms).Some? && FileServes(first, ms)
    ensures FileIsLatest(Moves(Start(first), ms).value) && IsDistinct(Moves(Start(first), ms).value.spent)
  {
    if ms != [] {
      var before := ms[..|ms| - 1];
      var k, m := Moves(Start(first), before).value, ms[|ms| - 1];
      ServedFileIsLatest(first, before);
      RunKeepsClusterInv(first, before);
      MoveKeepsFileLatest(k, m);
      if m.Rotate? { LatestIsNoReplay(first, before, m); }
      SpentGrows(k, m);
    }
  }

  /** In every run: an exchange that read the file offers the value in it, which is the latest while rotations are saved. */
  lemma RotationPresentsTheDisk(k: Cluster, m: Move)
    requires ClusterInv(k) && m.Rotate? && !m.readFails && ClusterStep(k, m).Some?
    ensures Offered(k.procs[m.p].engine, m.t) == k.disk.value.refresh
    ensures FileIsLatest(k) ==> Offered(k.procs[m.p].engine, m.t) == Some(Latest(k)) && !IsReplay(k, m)
  {
    assert k.fileLock == Some(m.p);
  }

  lemma LatestIsNoReplay(first: Token, ms: seq<Move>, m: Move)
    requires first.refresh.Some? && Moves(Start(first), ms).Some? && FileIsLatest(Moves(Start(first), ms).value)
    requires m.Rotate? && !m.readFails && ClusterStep(Moves(Start(first), ms).value, m).Some?
    ensures !IsReplay(Moves(Start(first), ms).value, m)
  {
    RunKeepsClusterInv(first, ms);
    RotationPresentsTheDisk(Moves(Start(first), ms).value, m);
  }

  /**
    No replay: over any number of processes and any interleaving in which rotations are
    saved and the file is read, no refresh token is exchanged successfully twice, and each
    one that is exchanged is the one then on disk.
   */
  lemma NoRefreshTokenIsReplayed(first: Token, ms: seq<Move>)
    requires first.refresh.Some? && Moves(Start(first), ms).Some? && FileServes(first, ms)
    ensures IsDistinct(Moves(Start(first), ms).value.spent)
    ensures forall m: Move :: m.Rotate? && !m.readFails && ClusterStep(Moves(Start(first), ms).value, m).Some? ==>
              var k := Moves(Start(first), ms).value;
              k.disk.Some? && k.disk.value.refresh == Offered(k.procs[m.p].engine, m.t) && !IsReplay(k, m)
  {
    ServedFileIsLatest(first, ms);
    RunKeepsClusterInv(first, ms);
    var k := Moves(Start(first), ms).value;
    forall m: Move | m.Rotate? && !m.readFails && ClusterStep(k, m).Some?
      ensures k.disk.Some? && k.disk.value.refresh == Offered(k.procs[m.p].engine, m.t) && !IsReplay(k, m)
    {
      RotationPresentsTheDisk(k, m);
    }
  }

  // ----- generations -----

  /**
    No going back, in every run at all: once every credential a process holds is of
    generation `g` or later, that stays so, whatever it and its siblings do.
   */
  lemma {:induction false} NeverAnOlderGeneration(first: Token, ms: seq<Move>, more: seq<Move>, p: nat, g: nat)
    requires first.refresh.Some? && Moves(Start(first), ms).Some? && Moves(Start(first), ms + more).Some?
    requires var k := Moves(Start(first), ms).value;
             p < |k.procs| && g <= k.onDisk < |k.issued| && Draws(k.procs[p].engine, k.issued[g..])
    ensures var k := Moves(Start(first), ms + more).value;
            p < |k.procs| && g <= k.onDisk < |k.issued| && Draws(k.procs[p].engine, k.issued[g..])
  {
    RunKeepsClusterInv(first, ms + more);
    if more == [] {
      assert ms + more == ms;
    } else {
      var before, m := more[..|more| - 1], more[|more| - 1];
      OneMoveMore(Start(first), ms, more);
      NeverAnOlderGeneration(first, ms, before, p, g);
      RunKeepsClusterInv(first, ms + before);
      GenerationStep(Moves(Start(first), ms + before).value, m, p, g);
    }
  }

  lemma OneMoveMore(k: Cluster, ms: seq<Move>, more: seq<Move>)
    requires more != [] && Moves(k, ms + more).Some?
    ensures var before := Moves(k, ms + more[..|more| - 1]);
            before.Some? && Moves(k, ms + more) == ClusterStep(before.value, more[|more| - 1])
  {
    LastOfSum(ms, more);
    MovesLast(k, ms + more);
  }

  lemma LastOfSum<T>(a: seq<T>, b: seq<T>)
    requires b != []
    ensures a + b != [] && (a + b)[..|a + b| - 1] == a + b[..|b| - 1] && (a + b)[|a + b| - 1] == b[|b| - 1]
  {
  }

  lemma MovesLast(k: Cluster, ms: seq<Move>)
    requires ms != [] && Moves(k, ms).Some?
    ensures var before := Moves(k, ms[..|ms| - 1]); before.Some? && Moves(k, ms) == ClusterStep(before.value, ms[|ms| - 1])
  {
  }

  lemma GenerationStep(k: Cluster, m: Move, p: nat, g: nat)
    requires ClusterInv(k) && ClusterStep(k, m).Some?
    requires p < |k.procs| && g <= k.onDisk && Draws(k.procs[p].engine, k.issued[g..])
    ensures var k' := ClusterStep(k, m).value;
            p < |k'.procs| && g <= k'.onDisk && g <= |k'.issued| && Draws(k'.procs[p].engine, k'.issued[g..])
  {
    LaterMoves(k, m, g);
    HeldMoves(k, m, p, k.issued[g..], ClusterStep(k, m).value.issued[g..]);
  }

  /** The generations from `g` on only grow, and what is delivered is among them. */
  lemma LaterMoves(k: Cluster, m: Move, g: nat)
    requires ClusterInv(k) && ClusterStep(k, m).Some? && g <= k.onDisk
    ensures var k' := ClusterStep(k, m).value;
            && g <= k'.onDisk && g <= |k'.issued| && IsWithin(k.issued[g..], k'.issued[g..])
            && GoodOption(Delivered(k, m), WithRefreshAmong(k'.issued[g..]))
  {
    var k' := ClusterStep(k, m).value;
    assert k'.issued[..|k.issued|] == k.issued;
    assert forall i :: g <= i < |k.issued| ==> k'.issued[g..][i - g] == k.issued[i];
    if Delivered(k, m).Some? {
      DeliveryIsNewer(k, m);
      assert k'.issued[g..][|k.issued| - 1 - g] == Latest(k);
      assert k'.issued[g..][k.onDisk - g] == k.issued[k.onDisk];
    }
  }

  // ----- both failures do replay -----

  ghost predicate IsMoveClosed(clusters: iset<Cluster>) {
    forall k, m :: k in clusters && ClusterStep(k, m).Some? ==> ClusterStep(k, m).value in clusters
  }

  /** `k` belongs to everything that holds `k0` and is closed under moves. */
  ghost predicate Arrives(k0: Cluster, k: Cluster) {
    forall clusters: iset<Cluster> :: k0 in clusters && IsMoveClosed(clusters) ==> k in clusters
  }

  lemma ArrivesNext(k0: Cluster, k: Cluster, m: Move) returns (k': Cluster)
    requires Arrives(k0, k) && ClusterStep(k, m).Some?
    ensures k' == ClusterStep(k, m).value && Arrives(k0, k')
  {
    k' := ClusterStep(k, m).value;
  }

  /** Arriving is being the end of a run. */
  lemma ArrivesByMoves(k0: Cluster, k: Cluster)
    requires Arrives(k0, k)
    ensures exists ms :: Moves(k0, ms) == Some(k)
  {
    var clusters := iset e, ms | Moves(k0, ms) == Some(e) :: e;
    assert Moves(k0, []) == Some(k0);
    forall e, m | e in clusters && ClusterStep(e, m).Some? ensures ClusterStep(e, m).value in clusters {
      var ms :| Moves(k0, ms) == Some(e);
      assert (ms + [m])[..|ms|] == ms;
      assert Moves(k0, ms + [m]) == Some(ClusterStep(e, m).value);
    }
    assert IsMoveClosed(clusters);
    assert k in clusters;
  }

  /** A process just launched from the file comes to offer the refresh token it found there. */
  lemma LaunchedOffers(k0: Cluster, k: Cluster, q: nat) returns (k': Cluster)
    requires Arrives(k0, k) && q < |k.procs| && k.disk.Some? && k.disk.value.refresh.Some?
    requires k.procs[q] == Process(Initial(Refresher.DeviceSession, k.disk), Waiting)
    ensures Arrives(k0, k') && |k'.procs| == |k.procs| && k' == k.(procs := k.procs[q := k'.procs[q]])
    ensures k'.procs[q].stage.Waiting? && Offered(k'.procs[q].engine, 0) == k.disk.value.refresh
  {
    k' := ArrivesNext(k0, k, Engine(q, Begin));
    k' := ArrivesNext(k0, k', Engine(q, EnterFirst(0, U64_MAX)));
    k' := ArrivesNext(k0, k', Engine(q, Poll(0, U64_MAX)));
  }

  /**
    After any lost rotation, by a failed save or a teardown before the save, of a run that
    replayed nothing yet, a process launched from the file afterwards can have the same
    value accepted again.
   */
  lemma LostRotationIsReplayed(first: Token, ms: seq<Move>, m: Move, newToken: Token) returns (k: Cluster)
    requires first.refresh.Some? && Moves(Start(first), ms).Some? && IsDistinct(Moves(Start(first), ms).value.spent)
    requires ClusterStep(Moves(Start(first), ms).value, m).Some? && !KeepsRotations(Moves(Start(first), ms).value, m)
    requires newToken.refresh.Some? && newToken.refresh.value !in Moves(Start(first), ms).value.issued
    ensures var lost := ClusterStep(Moves(Start(first), ms).value, m).value;
            var again := Rotate(|lost.procs|, 0, newToken, false);
            Arrives(lost, k) && ClusterStep(k, again).Some? && IsReplay(k, again)
  {
    RunKeepsClusterInv(first, ms);
    DistinctMeansNothingReplayed(first, ms);
    k := ReplayAfterLoss(Moves(Start(first), ms).value, m, newToken);
  }

  /** A lost rotation gives up the file lock and leaves the spent value in the file. */
  lemma LossLeavesTheFile(before: Cluster, m: Move)
    requires ClusterInv(before) && NothingReplayed(before) && ClusterStep(before, m).Some? && !KeepsRotations(before, m)
    ensures var lost := ClusterStep(before, m).value;
            && lost == before.(procs := lost.procs, fileLock := None)
            && before.disk.value.refresh.value in before.spent
  {
    assert before.procs[m.p].stage.Rotated? && before.fileLock == Some(m.p);
  }

  lemma ReplayAfterLoss(before: Cluster, m: Move, newToken: Token) returns (k: Cluster)
    requires ClusterInv(before) && NothingReplayed(before) && ClusterStep(before, m).Some? && !KeepsRotations(before, m)
    requires newToken.refresh.Some? && newToken.refresh.value !in before.issued
    ensures var lost := ClusterStep(before, m).value;
            var again := Rotate(|lost.procs|, 0, newToken, false);
            Arrives(lost, k) && ClusterStep(k, again).Some? && IsReplay(k, again)
  {
    var lost := ClusterStep(before, m).value;
    LossLeavesTheFile(before, m);
    var q := |lost.procs|;
    k := ArrivesNext(lost, lost, Launch);
    k := LaunchedOffers(lost, k, q);
    k := ArrivesNext(lost, k, Acquire(q, 0));
  }

  /**
    A failed read replays although every rotation is saved: two processes start from the
    file, one rotates and saves, and the other cannot read the file and offers the old value.
   */
  lemma FailedReadIsReplayed(first: Token, second: Token, third: Token) returns (k: Cluster)
    requires first.refresh.Some? && second.refresh.Some? && third.refresh.Some?
    requires first.refresh != second.refresh && first.refresh != third.refresh && second.refresh != third.refresh
    ensures Arrives(Start(first), k) && k.disk == Some(second) && HoldsLatest(k, second) && k.spent == [first.refresh.value]
    ensures ClusterStep(k, Rotate(1, 0, third, true)).Some? && IsReplay(k, Rotate(1, 0, third, true))
  {
    k := TwoProcessesOffer(first);
    k := FirstRotatesAndSaves(first, second, k);
    k := ArrivesNext(Start(first), k, Acquire(1, 0));
  }

  predicate HoldsLatest(k: Cluster, t: Token) { k.issued != [] && t.refresh == Some(Latest(k)) }

  lemma TwoProcessesOffer(first: Token) returns (k: Cluster)
    requires first.refresh.Some?
    ensures Arrives(Start(first), k) && k == Start(first).(procs := k.procs) && |k.procs| == 2
    ensures forall q :: 0 <= q < 2 ==> k.procs[q].stage.Waiting? && Offered(k.procs[q].engine, 0) == first.refresh
  {
    var k0 := Start(first);
    k := ArrivesNext(k0, k0, Launch);
    k := ArrivesNext(k0, k, Launch);
    k := LaunchedOffers(k0, k, 0);
    k := LaunchedOffers(k0, k, 1);
  }

  lemma FirstRotatesAndSaves(first: Token, second: Token, k: Cluster) returns (k': Cluster)
    requires first.refresh.Some? && second.refresh.Some? && first.refresh != second.refresh
    requires Arrives(Start(first), k) && k == Start(first).(procs := k.procs) && |k.procs| == 2
    requires forall q :: 0 <= q < 2 ==> k.procs[q].stage.Waiting? && Offered(k.procs[q].engine, 0) == first.refresh
    ensures Arrives(Start(first), k') && |k'.procs| == 2 && k'.procs[1] == k.procs[1] && k'.fileLock.None?
    ensures k'.disk == Some(second) && k'.issued == [first.refresh.value, second.refresh.value] && k'.spent == [first.refresh.value]
  {
    var k0 := Start(first);
    k' := ArrivesNext(k0, k, Acquire(0, 0));
    k' := ArrivesNext(k0, k', Rotate(0, 0, second, false));
    k' := ArrivesNext(k0, k', Save(0, 0));
  }
}
