/**
 Advisory-lock single flight for reconciliation: at most one session at a time
 has authority over one tenant, endpoint and remote batch.
 */
module SingleFlight {
  import opened Bytes
  import opened Framing

  // ----- the key pre-image -----

  /** An encoded identity part; its length is written in four bytes. */
  type Part = s: seq<Byte> | |s| < 0x1_0000_0000

  datatype Identity = Identity(tenant: Part, endpointAlias: Part, batchId: Part)

  const LOCK_DOMAIN: string := "pg-llm-batch:reconciliation-single-flight:v1"

  lemma FourBytes()
    ensures Power256(4) == 0x1_0000_0000
  {
    assert Power256(2) == 0x1_0000;
  }

  function PartBytes(p: Part): seq<Byte> {
    FourBytes();
    Prefixed(p, 4)
  }

  function LockPreimage(id: Identity): seq<Byte> {
    Ascii(LOCK_DOMAIN) + PartBytes(id.tenant) + PartBytes(id.endpointAlias) + PartBytes(id.batchId)
  }

  lemma PartIsSelfDelimiting(p: Part, q: Part, rest: seq<Byte>, rest': seq<Byte>)
    requires PartBytes(p) + rest == PartBytes(q) + rest'
    ensures p == q && rest == rest'
  {
    FourBytes();
    PrefixedIsSelfDelimiting(p, q, 4, rest, rest');
  }

  lemma SplitPreimage(id: Identity)
    ensures LockPreimage(id)[|LOCK_DOMAIN|..]
            == PartBytes(id.tenant) + (PartBytes(id.endpointAlias) + PartBytes(id.batchId))
  {
    hide PartBytes;
    var d, t, e, b := Ascii(LOCK_DOMAIN), PartBytes(id.tenant), PartBytes(id.endpointAlias), PartBytes(id.batchId);
    assert LockPreimage(id) == d + (t + (e + b));
  }

  /** Different identities are digested from different bytes. */
  lemma LockPreimageInjective(a: Identity, b: Identity)
    requires LockPreimage(a) == LockPreimage(b)
    ensures a == b
  {
    hide PartBytes, LockPreimage;
    SplitPreimage(a);
    SplitPreimage(b);
    PartIsSelfDelimiting(a.tenant, b.tenant, PartBytes(a.endpointAlias) + PartBytes(a.batchId),
                         PartBytes(b.endpointAlias) + PartBytes(b.batchId));
    PartIsSelfDelimiting(a.endpointAlias, b.endpointAlias, PartBytes(a.batchId), PartBytes(b.batchId));
    assert PartBytes(a.batchId) + [] == PartBytes(b.batchId) + [];
    PartIsSelfDelimiting(a.batchId, b.batchId, [], []);
  }

  /** Feeds the domain and the three parts to the digest, one after the other. */
  method AbsorbIdentity(id: Identity) returns (absorbed: seq<Byte>)
    ensures absorbed == LockPreimage(id)
  {
    var parts := [id.tenant, id.endpointAlias, id.batchId];
    absorbed := Ascii(LOCK_DOMAIN);
    for i := 0 to 3
      invariant i == 0 ==> absorbed == Ascii(LOCK_DOMAIN)
      invariant i == 1 ==> absorbed == Ascii(LOCK_DOMAIN) + PartBytes(id.tenant)
      invariant i == 2 ==> absorbed == Ascii(LOCK_DOMAIN) + PartBytes(id.tenant) + PartBytes(id.endpointAlias)
      invariant i == 3 ==> absorbed == LockPreimage(id)
    {
      absorbed := absorbed + PartBytes(parts[i]);
    }
  }

  // ----- sessions -----

  type SessionId = nat

  /** Sixty-four digest bits as a signed integer; different identities may collide. */
  type KeyFunction = seq<Byte> -> int

  function LockKey(h: KeyFunction, id: Identity): int {
    h(LockPreimage(id))
  }

  /** A session advisory lock is re-entrant, so it has an owner and a count. */
  datatype Held = Held(owner: SessionId, count: nat)

  datatype Stage = Open | Left | Lost

  /** One acquired context from its entry on, with the release attempts it has made. */
  datatype Context = Context(session: SessionId, id: Identity, stage: Stage, releases: nat)

  /** `current` is the place of a session's open context in the list of all contexts ever entered. */
  datatype World = World(
    locks: map<int, Held>, authority: map<SessionId, Identity>,
    contexts: seq<Context>, current: map<SessionId, nat>, deferrals: nat)

  const START: World := World(map[], map[], [], map[], 0)

  /**
   What became of one try-lock statement: its answer reached the caller, it ran but
   the answer was lost or unreadable, or it never ran.
   */
  datatype Fate = Answered | AnswerLost | NeverRan

  datatype Step =
    | TryAcquire(session: SessionId, id: Identity, fate: Fate)
    | Exit(session: SessionId, unlocked: bool)
    | LoseSession(session: SessionId)

  predicate OwnedByOther(locks: map<int, Held>, key: int, s: SessionId) {
    key in locks && locks[key].owner != s
  }

  /** The database's try-lock when no other session owns the key. */
  function Lock(locks: map<int, Held>, key: int, s: SessionId): map<int, Held> {
    locks[key := Held(s, 1 + if key in locks then locks[key].count else 0)]
  }

  /** One level of a session's lock is given back. */
  function Unlock(locks: map<int, Held>, key: int): map<int, Held> {
    if key !in locks then locks
    else if locks[key].count <= 1 then locks - {key}
    else locks[key := Held(locks[key].owner, locks[key].count - 1)]
  }

  function FreeAll(locks: map<int, Held>, s: SessionId): map<int, Held> {
    map k | k in locks && locks[k].owner != s :: locks[k]
  }

  /** The caller enters only when it reads the answer; a refused attempt defers. */
  function Acquire(w: World, s: SessionId, id: Identity, key: int, fate: Fate): World {
    if s in w.authority || fate == NeverRan then w
    else if OwnedByOther(w.locks, key, s) then
      if fate == Answered then w.(deferrals := w.deferrals + 1) else w
    else
      var w' := w.(locks := Lock(w.locks, key, s));
      if fate == Answered
      then w'.(authority := w.authority[s := id], contexts := w.contexts + [Context(s, id, Open, 0)],
               current := w.current[s := |w.contexts|])
      else w'
  }

  /** Leaving an acquired context, for whatever reason, tries once to unlock; the attempt may fail. */
  function Leave(w: World, s: SessionId, key: int, unlocked: bool): World {
    w.(locks := if unlocked then Unlock(w.locks, key) else w.locks,
       authority := w.authority - {s}, current := w.current - {s}, contexts := Ended(w, s, Left))
  }

  /** The contexts after the open one of `s` ended; leaving it makes a release attempt, losing the session does not. */
  function Ended(w: World, s: SessionId, stage: Stage): seq<Context> {
    if s in w.current && w.current[s] < |w.contexts| then
      var c := w.contexts[w.current[s]];
      w.contexts[w.current[s] := Context(c.session, c.id, stage, c.releases + if stage == Left then 1 else 0)]
    else w.contexts
  }

  function Lose(w: World, s: SessionId): World {
    w.(locks := FreeAll(w.locks, s), authority := w.authority - {s}, current := w.current - {s},
       contexts := Ended(w, s, Lost))
  }

  /** A session has at most one attempt at a time. */
  function Next(h: KeyFunction, w: World, step: Step): World {
    match step
    case TryAcquire(s, id, fate) => Acquire(w, s, id, LockKey(h, id), fate)
    case Exit(s, unlocked) => if s in w.authority then Leave(w, s, LockKey(h, w.authority[s]), unlocked) else w
    case LoseSession(s) => Lose(w, s)
  }

  function Execute(h: KeyFunction, steps: seq<Step>): World {
    if steps == [] then START else Next(h, Execute(h, steps[..|steps| - 1]), steps[|steps| - 1])
  }

  // ----- what every run keeps -----

  predicate Holds(h: KeyFunction, w: World, s: SessionId)
    requires s in w.authority
  {
    var key := LockKey(h, w.authority[s]);
    key in w.locks && w.locks[key].owner == s && w.locks[key].count > 0
  }

  /** A context is open exactly while it is its session's current one, and has tried to release once if it was left. */
  predicate ContextOk(w: World, i: nat)
    requires i < |w.contexts|
  {
    var c := w.contexts[i];
    && (c.stage == Open <==> c.session in w.current && w.current[c.session] == i)
    && c.releases == if c.stage == Left then 1 else 0
  }

  predicate ContextsOk(w: World) {
    && w.current.Keys == w.authority.Keys
    && (forall s :: s in w.current ==>
          w.current[s] < |w.contexts| && w.contexts[w.current[s]] == Context(s, w.authority[s], Open, 0))
    && (forall i :: 0 <= i < |w.contexts| ==> ContextOk(w, i))
  }

  predicate Inv(h: KeyFunction, w: World) {
    && (forall s :: s in w.authority ==> Holds(h, w, s))
    && ContextsOk(w)
  }

  lemma EndingKeepsContexts(w: World, s: SessionId, stage: Stage)
    requires ContextsOk(w) && stage != Open
    ensures ContextsOk(w.(authority := w.authority - {s}, current := w.current - {s}, contexts := Ended(w, s, stage)))
  {
    var w' := w.(authority := w.authority - {s}, current := w.current - {s}, contexts := Ended(w, s, stage));
    forall i | 0 <= i < |w'.contexts|
      ensures ContextOk(w', i)
    {
      assert ContextOk(w, i);
    }
  }

  lemma EnteringKeepsContexts(w: World, s: SessionId, id: Identity)
    requires ContextsOk(w) && s !in w.authority
    ensures ContextsOk(w.(authority := w.authority[s := id], contexts := w.contexts + [Context(s, id, Open, 0)],
                          current := w.current[s := |w.contexts|]))
  {
    var w' := w.(authority := w.authority[s := id], contexts := w.contexts + [Context(s, id, Open, 0)],
                 current := w.current[s := |w.contexts|]);
    forall i | 0 <= i < |w'.contexts|
      ensures ContextOk(w', i)
    {
      if i < |w.contexts| {
        assert ContextOk(w, i);
        assert w'.contexts[i] == w.contexts[i];
      }
    }
  }

  /** Locks and deferrals do not matter to the contexts. */
  lemma ContextsAlone(w: World, w': World)
    requires ContextsOk(w) && w'.authority == w.authority && w'.contexts == w.contexts && w'.current == w.current
    ensures ContextsOk(w')
  {
    forall i | 0 <= i < |w'.contexts|
      ensures ContextOk(w', i)
    {
      assert ContextOk(w, i);
    }
  }

  lemma AcquireKeepsInv(h: KeyFunction, w: World, s: SessionId, id: Identity, fate: Fate)
    requires Inv(h, w)
    ensures Inv(h, Acquire(w, s, id, LockKey(h, id), fate))
  {
    hide LockKey;
    var w' := Acquire(w, s, id, LockKey(h, id), fate);
    forall t | t in w'.authority
      ensures Holds(h, w', t)
    {
      assert t in w.authority ==> Holds(h, w, t);
    }
    hide ContextsOk;
    ContextsAlone(w, w.(locks := w'.locks, deferrals := w'.deferrals));
    if s !in w.authority { EnteringKeepsContexts(w.(locks := w'.locks), s, id); }
  }

  lemma LeaveKeepsInv(h: KeyFunction, w: World, s: SessionId, unlocked: bool)
    requires Inv(h, w) && s in w.authority
    ensures Inv(h, Leave(w, s, LockKey(h, w.authority[s]), unlocked))
  {
    hide LockKey;
    var w' := Leave(w, s, LockKey(h, w.authority[s]), unlocked);
    assert Holds(h, w, s);
    forall t | t in w'.authority
      ensures Holds(h, w', t)
    {
      assert Holds(h, w, t);
    }
    hide ContextsOk;
    ContextsAlone(w, w.(locks := w'.locks));
    EndingKeepsContexts(w.(locks := w'.locks), s, Left);
  }

  lemma LoseKeepsInv(h: KeyFunction, w: World, s: SessionId)
    requires Inv(h, w)
    ensures Inv(h, Lose(w, s))
  {
    hide LockKey;
    forall t | t in Lose(w, s).authority
      ensures Holds(h, Lose(w, s), t)
    {
      assert Holds(h, w, t);
    }
    hide ContextsOk;
    ContextsAlone(w, w.(locks := FreeAll(w.locks, s)));
    EndingKeepsContexts(w.(locks := FreeAll(w.locks, s)), s, Lost);
  }

  lemma {:induction false} EveryRunKeepsInv(h: KeyFunction, steps: seq<Step>)
    ensures Inv(h, Execute(h, steps))
  {
    hide LockKey;
    if steps != [] {
      var w := Execute(h, steps[..|steps| - 1]);
      EveryRunKeepsInv(h, steps[..|steps| - 1]);
      match steps[|steps| - 1]
      case TryAcquire(s, id, fate) => AcquireKeepsInv(h, w, s, id, fate);
      case Exit(s, unlocked) => if s in w.authority { LeaveKeepsInv(h, w, s, unlocked); }
      case LoseSession(s) => LoseKeepsInv(h, w, s);
    }
  }

  /**
   Over every run, two sessions never have authority over one identity, nor over
   two whose keys collide.
   */
  lemma {:induction false} MutualExclusion(h: KeyFunction, steps: seq<Step>, s: SessionId, t: SessionId)
    requires s in Execute(h, steps).authority && t in Execute(h, steps).authority && s != t
    ensures var w := Execute(h, steps);
            w.authority[s] != w.authority[t] && LockKey(h, w.authority[s]) != LockKey(h, w.authority[t])
  {
    EveryRunKeepsInv(h, steps);
    var w := Execute(h, steps);
    assert Holds(h, w, s) && Holds(h, w, t);
  }

  /**
   Over every run, each entered context by itself: it is open and its session has
   authority over its identity, with no release attempt yet; or it was left, for
   whatever reason, with exactly one; or it was lost with its session, with none.
   */
  lemma {:induction false} EachContextReleasesOnce(h: KeyFunction, steps: seq<Step>, i: nat)
    requires i < |Execute(h, steps).contexts|
    ensures var w := Execute(h, steps);
            var c := w.contexts[i];
            && c.releases == (if c.stage == Left then 1 else 0)
            && (c.stage == Open ==> c.session in w.authority && w.authority[c.session] == c.id)
  {
    EveryRunKeepsInv(h, steps);
    assert ContextOk(Execute(h, steps), i);
  }

  /** A context keeps its session and identity, and once ended it stays as it ended. */
  lemma {:induction false} ContextsOnlyEnd(h: KeyFunction, steps: seq<Step>, n: nat, i: nat)
    requires n <= |steps| && i < |Execute(h, steps[..n]).contexts|
    ensures i < |Execute(h, steps).contexts|
    ensures var c, c' := Execute(h, steps[..n]).contexts[i], Execute(h, steps).contexts[i];
            c'.session == c.session && c'.id == c.id && (c.stage != Open ==> c' == c)
  {
    hide LockKey, Inv, ContextsOk;
    if n == |steps| {
      assert steps[..n] == steps;
    } else {
      var k := |steps| - 1;
      assert steps[..k][..n] == steps[..n];
      ContextsOnlyEnd(h, steps[..k], n, i);
      EveryRunKeepsInv(h, steps[..k]);
      StepOnlyEnds(h, Execute(h, steps[..k]), steps[k], i);
    }
  }

  lemma StepOnlyEnds(h: KeyFunction, w: World, step: Step, i: nat)
    requires Inv(h, w) && i < |w.contexts|
    ensures var w' := Next(h, w, step);
            && i < |w'.contexts|
            && w'.contexts[i].session == w.contexts[i].session && w'.contexts[i].id == w.contexts[i].id
            && (w.contexts[i].stage != Open ==> w'.contexts[i] == w.contexts[i])
  {
    hide LockKey;
    assert ContextOk(w, i);
  }

  // ----- the context manager -----

  /** What the database makes of the try-lock: granted, denied, or no readable answer. */
  datatype Attempt = Granted | Denied | Unanswered

  /** How the caller's block ends: it returns, raises an ordinary error, or is left by a process-control signal. */
  datatype BodyEnd = Returns | OrdinaryError | ControlSignal

  /** The answer to the unlock: confirmed, not held, or none that can be read. */
  datatype UnlockEnd = Confirmed | NotHeld | Unreadable

  datatype Act = TryLock | RunBody(authority: bool) | TryUnlock

  /** What the caller of the context sees raised; a signal may carry the release failure as its cause. */
  datatype Surfaced =
    | Nothing | InvalidIdentity | AcquireFailure
    | ReleaseFailure | BodyError | Signal(causedByRelease: bool)

  function OfBody(body: BodyEnd): Surfaced {
    match body
    case Returns => Nothing
    case OrdinaryError => BodyError
    case ControlSignal => Signal(false)
  }

  /**
   Enters, runs the caller's block and leaves. A granted context makes exactly one
   unlock attempt, after the block, however the block ended; a failed one replaces
   an ordinary error but only becomes the cause of a signal. A context that was not
   granted makes none.
   */
  method HoldSingleFlight(valid: bool, attempt: Attempt, body: BodyEnd, unlock: UnlockEnd)
    returns (log: seq<Act>, surfaced: Surfaced)
    ensures !valid ==> log == [] && surfaced == InvalidIdentity
    ensures valid && attempt.Unanswered? ==> log == [TryLock] && surfaced == AcquireFailure
    ensures valid && attempt.Denied? ==> log == [TryLock, RunBody(false)] && surfaced == OfBody(body)
    ensures valid && attempt.Granted? ==>
              && log == [TryLock, RunBody(true), TryUnlock]
              && surfaced == if unlock.Confirmed? then OfBody(body)
                             else if body.ControlSignal? then Signal(true) else ReleaseFailure
    ensures multiset(log)[TryUnlock] == if valid && attempt.Granted? then 1 else 0
  {
    log, surfaced := [], Nothing;
    if !valid {
      return log, InvalidIdentity;
    }
    log := log + [TryLock];
    if attempt.Unanswered? {
      return log, AcquireFailure;
    }
    if attempt.Denied? {
      return log + [RunBody(false)], OfBody(body);
    }
    log := log + [RunBody(true)];
    surfaced := OfBody(body);
    log := log + [TryUnlock];
    if !unlock.Confirmed? {
      surfaced := if surfaced.Signal? then Signal(true) else ReleaseFailure;
    }
  }

  /** What a context does to the shared state: the try-lock, and the unlock attempt if it was granted. */
  function ContextSteps(s: SessionId, id: Identity, attempt: Attempt, unlock: UnlockEnd): seq<Step> {
    [TryAcquire(s, id, if attempt.Unanswered? then AnswerLost else Answered)]
    + if attempt.Granted? then [Exit(s, unlock.Confirmed?)] else []
  }

  /** A granted context is the newest one, ended with the one release attempt of its log; its session is idle again. */
  lemma ContextEndsOnce(h: KeyFunction, steps: seq<Step>, s: SessionId, id: Identity, unlock: UnlockEnd)
    requires s !in Execute(h, steps).authority && !OwnedByOther(Execute(h, steps).locks, LockKey(h, id), s)
    ensures var w, w' := Execute(h, steps), Execute(h, steps + ContextSteps(s, id, Granted, unlock));
            && w'.contexts == w.contexts + [Context(s, id, Left, 1)]
            && w'.authority == w.authority
  {
    hide LockKey, Lock, Unlock, Acquire, Leave, OwnedByOther;
    var w, enter, exit := Execute(h, steps), TryAcquire(s, id, Answered), Exit(s, unlock.Confirmed?);
    EveryRunKeepsInv(h, steps);
    SnocParts(steps, enter);
    SnocParts(steps + [enter], exit);
    assert steps + ContextSteps(s, id, Granted, unlock) == steps + [enter] + [exit];
    var w1 := Next(h, w, enter);
    assert Execute(h, steps + [enter]) == w1;
    EntersAndLeaves(w, w1, s, id, LockKey(h, id), unlock.Confirmed?);
  }

  lemma EntersAndLeaves(w: World, w1: World, s: SessionId, id: Identity, key: int, unlocked: bool)
    requires s !in w.authority && !OwnedByOther(w.locks, key, s) && w1 == Acquire(w, s, id, key, Answered)
    ensures s in w1.authority && w1.authority[s] == id
    ensures Leave(w1, s, key, unlocked).contexts == w.contexts + [Context(s, id, Left, 1)]
    ensures Leave(w1, s, key, unlocked).authority == w.authority
  {
    hide Lock, Unlock, OwnedByOther;
    assert w1.contexts[|w.contexts|] == Context(s, id, Open, 0) && w1.current[s] == |w.contexts|;
  }

  // ----- every lock level is accounted for -----

  /** How often the session holds the key. */
  function Levels(w: World, s: SessionId, key: int): nat {
    if key in w.locks && w.locks[key].owner == s then w.locks[key].count else 0
  }

  /** The try-lock statements that the database granted the session on the key since it last lost its connection. */
  function Grants(h: KeyFunction, steps: seq<Step>, s: SessionId, key: int): nat {
    if steps == [] then 0
    else
      var before, w := steps[..|steps| - 1], Execute(h, steps[..|steps| - 1]);
      match steps[|steps| - 1]
      case LoseSession(t) => if t == s then 0 else Grants(h, before, s, key)
      case TryAcquire(t, id, fate) =>
        var granted := t == s && LockKey(h, id) == key && s !in w.authority && fate != NeverRan
            && !OwnedByOther(w.locks, key, s);
        Grants(h, before, s, key) + if granted then 1 else 0
      case Exit(_, _) => Grants(h, before, s, key)
  }

  /** The unlocks of the key that the database confirmed for the session since it last lost its connection. */
  function Unlocks(h: KeyFunction, steps: seq<Step>, s: SessionId, key: int): nat {
    if steps == [] then 0
    else
      var before, w := steps[..|steps| - 1], Execute(h, steps[..|steps| - 1]);
      match steps[|steps| - 1]
      case LoseSession(t) => if t == s then 0 else Unlocks(h, before, s, key)
      case TryAcquire(_, _, _) => Unlocks(h, before, s, key)
      case Exit(t, unlocked) =>
        var given := t == s && unlocked && s in w.authority && LockKey(h, w.authority[s]) == key;
        Unlocks(h, before, s, key) + if given then 1 else 0
  }

  predicate CountsPositive(w: World) {
    forall key :: key in w.locks ==> w.locks[key].count > 0
  }

  lemma StepMovesLevels(h: KeyFunction, w: World, step: Step, s: SessionId, key: int)
    requires Inv(h, w) && CountsPositive(w)
    ensures CountsPositive(Next(h, w, step))
    ensures Levels(Next(h, w, step), s, key)
            == match step
               case LoseSession(t) => if t == s then 0 else Levels(w, s, key)
               case TryAcquire(t, id, fate) =>
                 Levels(w, s, key)
                 + (if t == s && LockKey(h, id) == key && s !in w.authority && fate != NeverRan
                    && !OwnedByOther(w.locks, key, s)
                    then 1 else 0)
               case Exit(t, unlocked) =>
                 Levels(w, s, key)
                 - (if t == s && unlocked && s in w.authority && LockKey(h, w.authority[s]) == key then 1 else 0)
  {
    hide LockKey, ContextsOk, Ended;
    if step.Exit? && step.session in w.authority {
      assert Holds(h, w, step.session);
    }
  }

  /**
   Over every run, clean or not: a session holds a key exactly as often as the
   database granted it minus the unlocks it confirmed, since the session last lost
   its connection; so a key is locked exactly when some session's grants exceed its
   unlocks.
   */
  lemma {:induction false} LocksAreAccountedFor(h: KeyFunction, steps: seq<Step>, s: SessionId, key: int)
    ensures Levels(Execute(h, steps), s, key) == Grants(h, steps, s, key) - Unlocks(h, steps, s, key)
    ensures CountsPositive(Execute(h, steps))
    ensures key in Execute(h, steps).locks ==>
              var owner := Execute(h, steps).locks[key].owner; Levels(Execute(h, steps), owner, key) > 0
  {
    hide LockKey, Inv, Next;
    if steps != [] {
      var before := steps[..|steps| - 1];
      EveryRunKeepsInv(h, before);
      LocksAreAccountedFor(h, before, s, key);
      StepMovesLevels(h, Execute(h, before), steps[|steps| - 1], s, key);
    }
  }

  // ----- nothing is left behind -----

  /** No answer was lost and no release went unconfirmed. */
  predicate Clean(steps: seq<Step>) {
    forall i :: 0 <= i < |steps| ==>
      match steps[i]
      case TryAcquire(_, _, fate) => fate != AnswerLost
      case Exit(_, unlocked) => unlocked
      case LoseSession(_) => true
  }

  predicate Justified(h: KeyFunction, w: World, key: int)
    requires key in w.locks
  {
    var owner := w.locks[key].owner;
    owner in w.authority && LockKey(h, w.authority[owner]) == key && w.locks[key].count == 1
  }

  predicate Tight(h: KeyFunction, w: World) {
    forall key :: key in w.locks ==> Justified(h, w, key)
  }

  lemma CleanStepKeepsTight(h: KeyFunction, w: World, step: Step)
    requires Inv(h, w) && Tight(h, w) && Clean([step])
    ensures Tight(h, Next(h, w, step))
  {
    hide LockKey;
    assert [step][0] == step;
    var w' := Next(h, w, step);
    forall key | key in w'.locks
      ensures Justified(h, w', key)
    {
      assert key in w.locks ==> Justified(h, w, key);
      match step
      case TryAcquire(s, id, fate) =>
      case Exit(s, unlocked) =>
        if s in w.authority {
          assert Holds(h, w, s);
          assert Justified(h, w, LockKey(h, w.authority[s]));
        }
      case LoseSession(s) =>
    }
  }

  /**
   In a clean run the locks held are exactly the keys of the open contexts, once
   each; an attempt is then deferred exactly when an open context has the same key.
   */
  lemma {:induction false} CleanRunsHoldOnlyOpenKeys(h: KeyFunction, steps: seq<Step>)
    requires Clean(steps)
    ensures Inv(h, Execute(h, steps)) && Tight(h, Execute(h, steps))
    ensures Execute(h, steps).authority == map[] ==> Execute(h, steps).locks == map[]
  {
    hide LockKey, Inv, Next;
    EveryRunKeepsInv(h, steps);
    if steps != [] {
      var before, last := steps[..|steps| - 1], steps[|steps| - 1];
      CleanPrefix(steps);
      CleanRunsHoldOnlyOpenKeys(h, before);
      EveryRunKeepsInv(h, before);
      CleanStepKeepsTight(h, Execute(h, before), last);
    }
    NoContextNoLock(h, Execute(h, steps));
  }

  lemma CleanPrefix(steps: seq<Step>)
    requires Clean(steps) && steps != []
    ensures Clean(steps[..|steps| - 1]) && Clean([steps[|steps| - 1]])
  {
  }

  lemma NoContextNoLock(h: KeyFunction, w: World)
    requires Tight(h, w)
    ensures w.authority == map[] ==> w.locks == map[]
  {
    hide LockKey;
    if w.authority == map[] {
      forall key
        ensures key !in w.locks
      {
        assert key in w.locks ==> Justified(h, w, key);
      }
    }
  }

  /**
   After a clean run an answered attempt of an idle session is deferred if and
   only if an open context of some session has the same key; otherwise it enters.
   */
  lemma DeferredExactlyWhenBusy(h: KeyFunction, steps: seq<Step>, s: SessionId, id: Identity)
    requires Clean(steps) && s !in Execute(h, steps).authority
    ensures var w, w' := Execute(h, steps), Execute(h, steps + [TryAcquire(s, id, Answered)]);
            var busy := exists t :: t in w.authority && LockKey(h, w.authority[t]) == LockKey(h, id);
            && (w'.deferrals == w.deferrals + if busy then 1 else 0)
            && (s in w'.authority <==> !busy)
            && (!busy ==> w'.authority[s] == id)
  {
    hide LockKey;
    CleanRunsHoldOnlyOpenKeys(h, steps);
    var w, step, key := Execute(h, steps), TryAcquire(s, id, Answered), LockKey(h, id);
    SnocParts(steps, step);
    assert Execute(h, steps + [step]) == Next(h, w, step);
    assert key in w.locks ==> Justified(h, w, key);
    if t :| t in w.authority && LockKey(h, w.authority[t]) == key {
      assert Holds(h, w, t);
    }
  }

  lemma SnocParts(steps: seq<Step>, step: Step)
    ensures (steps + [step])[..|steps + [step]| - 1] == steps && (steps + [step])[|steps|] == step
  {
  }

  /**
   A lost answer can leave a lock that no context owns: the session must end
   before anyone else can enter.
   */
  lemma LostAnswerBlocksUntilSessionEnds(h: KeyFunction, s: SessionId, t: SessionId, id: Identity)
    requires s != t
    ensures var w := Execute(h, [TryAcquire(s, id, AnswerLost)]);
            && w.authority == map[]
            && t !in Next(h, w, TryAcquire(t, id, Answered)).authority
            && t in Next(h, Next(h, w, LoseSession(s)), TryAcquire(t, id, Answered)).authority
  {
    hide LockKey;
    var steps := [TryAcquire(s, id, AnswerLost)];
    assert steps[..0] == [];
    assert Execute(h, []) == START;
    var w := Execute(h, steps);
    assert w.locks == map[LockKey(h, id) := Held(s, 1)];
    assert Lose(w, s).locks == map[];
  }
}
