/**
 * The polite fetcher as a protocol: any number of concurrent get calls, interleaved at their awaits,
 * share a robots lock, a semaphore, the stored rules and an on-disk cache.
 */
module Fetcher {
  import opened Prelude

  type Url = string
  type Origin = string
  type Key = string
  type Task = nat

  /** A parsed robots.txt, known only through its verdicts. */
  type Rules = int

  /** maxConcurrency is the semaphore's initial value; the functions are foreign. */
  datatype Config = Config(
    maxConcurrency: nat, respectRobots: bool, forceRefresh: bool,
    originOf: Url -> Origin, keyOf: Url -> Key, allows: (Rules, Url) -> bool, emptyRules: Rules)

  datatype Phase =
    | Started          // get was called
    | NeedsLock        // no rules stored for the origin: awaiting the robots lock
    | HasLock          // lock acquired, about to look again
    | AskingRobots     // robots.txt in flight, lock held
    | NeedsSlot        // allowed: awaiting the semaphore
    | Delaying         // slot held, asleep
    | AskingPage       // page in flight, slot held
    | Returned(body: string)
    | Blocked
    | Raised

  datatype Call = Call(url: Url, phase: Phase)

  /** A fetched page as it was written to the cache. */
  datatype Fetch = Fetch(url: Url, body: string)

  datatype State = State(
    calls: map<Task, Call>, lock: Option<Task>, free: nat, robots: map<Origin, Rules>, cache: map<Key, string>,
    asked: seq<Origin>,   // history: robots.txt requests issued
    written: seq<Fetch>)  // history: pages this fetcher wrote to the cache

  datatype Action =
    | Enter(url: Url)
    | Begin            // cache check, then the first look at the stored rules
    | Acquire
    | LookAgain
    | RobotsOk(rules: Rules)
    | RobotsNotOk      // non-200 or a transport error: empty rules
    | TakeSlot
    | Wake
    | PageOk(body: string)
    | PageNotOk
    | Interrupt        // any other exception, or cancellation, at an await

  function Init(c: Config, cache: map<Key, string>): State {
    State(map[], None, c.maxConcurrency, map[], cache, [], [])
  }

  function SetPhase(s: State, t: Task, phase: Phase): State
    requires t in s.calls
  {
    s.(calls := s.calls[t := s.calls[t].(phase := phase)])
  }

  /** Rules in hand: the verdict decides between waiting for a slot and refusing. */
  function Verdict(c: Config, s: State, t: Task, rules: Rules): State
    requires t in s.calls
  {
    SetPhase(s, t, if c.allows(rules, s.calls[t].url) then NeedsSlot else Blocked)
  }

  function StoreRules(c: Config, s: State, t: Task, rules: Rules): State
    requires t in s.calls
  {
    Verdict(c, s.(lock := None, robots := s.robots[c.originOf(s.calls[t].url) := rules]), t, rules)
  }

  /** One atomic stretch of task t between two awaits; None when it cannot take this action now. */
  function Step(c: Config, s: State, t: Task, a: Action): Option<State> {
    if a.Enter? then
      if t in s.calls then None else Some(s.(calls := s.calls[t := Call(a.url, Started)]))
    else if t !in s.calls then None
    else
      var url := s.calls[t].url;
      var origin := c.originOf(url);
      match (s.calls[t].phase, a)
      case (Started, Begin) =>
        if c.keyOf(url) in s.cache && !c.forceRefresh then Some(SetPhase(s, t, Returned(s.cache[c.keyOf(url)])))
        else if !c.respectRobots then Some(SetPhase(s, t, NeedsSlot))
        else if origin in s.robots then Some(Verdict(c, s, t, s.robots[origin]))
        else Some(SetPhase(s, t, NeedsLock))
      case (NeedsLock, Acquire) =>
        if s.lock.Some? then None else Some(SetPhase(s.(lock := Some(t)), t, HasLock))
      case (NeedsLock, Interrupt) => Some(SetPhase(s, t, Raised))
      case (HasLock, LookAgain) =>
        if origin in s.robots then Some(Verdict(c, s.(lock := None), t, s.robots[origin]))
        else Some(SetPhase(s.(asked := s.asked + [origin]), t, AskingRobots))
      case (AskingRobots, RobotsOk(rules)) => Some(StoreRules(c, s, t, rules))
      case (AskingRobots, RobotsNotOk) => Some(StoreRules(c, s, t, c.emptyRules))
      case (AskingRobots, Interrupt) => Some(SetPhase(s.(lock := None), t, Raised))
      case (NeedsSlot, TakeSlot) =>
        if s.free == 0 then None else Some(SetPhase(s.(free := s.free - 1), t, Delaying))
      case (NeedsSlot, Interrupt) => Some(SetPhase(s, t, Raised))
      case (Delaying, Wake) => Some(SetPhase(s, t, AskingPage))
      case (Delaying, Interrupt) => Some(SetPhase(s.(free := s.free + 1), t, Raised))
      case (AskingPage, PageOk(body)) =>
        var stored := s.(cache := s.cache[c.keyOf(url) := body], written := s.written + [Fetch(url, body)]);
        Some(SetPhase(stored.(free := s.free + 1), t, Returned(body)))
      case (AskingPage, PageNotOk) => Some(SetPhase(s.(free := s.free + 1), t, Raised))
      case (AskingPage, Interrupt) => Some(SetPhase(s.(free := s.free + 1), t, Raised))
      case _ => None
  }

  datatype Move = Move(task: Task, action: Action)

  /** An interleaving: moves of any tasks in any order, each enabled when it happens. */
  function Run(c: Config, s: State, moves: seq<Move>): Option<State> {
    if moves == [] then Some(s)
    else
      match Run(c, s, moves[..|moves| - 1])
      case None => None
      case Some(mid) => Step(c, mid, moves[|moves| - 1].task, moves[|moves| - 1].action)
  }

  // --- The invariant ---

  predicate InPhase(s: State, t: Task, phase: Phase) {
    t in s.calls && s.calls[t].phase == phase
  }

  predicate HoldsLock(s: State, t: Task) {
    InPhase(s, t, HasLock) || InPhase(s, t, AskingRobots)
  }

  predicate HoldsSlot(s: State, t: Task) {
    InPhase(s, t, Delaying) || InPhase(s, t, AskingPage)
  }

  ghost function SlotHolders(s: State): set<Task> {
    set t | t in s.calls && HoldsSlot(s, t)
  }

  /** The stored rules of the url's origin allow it. */
  predicate Allowed(c: Config, s: State, url: Url) {
    c.respectRobots ==> c.originOf(url) in s.robots && c.allows(s.robots[c.originOf(url)], url)
  }

  ghost predicate LockInv(s: State) {
    forall t: Task :: HoldsLock(s, t) <==> s.lock == Some(t)
  }

  ghost predicate RobotsInv(c: Config, s: State) {
    forall t: Task :: InPhase(s, t, AskingRobots) ==> c.originOf(s.calls[t].url) !in s.robots
  }

  ghost predicate SlotInv(c: Config, s: State) {
    |SlotHolders(s)| + s.free == c.maxConcurrency
  }

  ghost predicate VerdictInv(c: Config, s: State) {
    && (forall t: Task :: InPhase(s, t, NeedsSlot) || HoldsSlot(s, t) ==> Allowed(c, s, s.calls[t].url))
    && (forall i :: 0 <= i < |s.written| ==> Allowed(c, s, s.written[i].url))
  }

  ghost predicate Inv(c: Config, s: State) {
    LockInv(s) && RobotsInv(c, s) && SlotInv(c, s) && VerdictInv(c, s)
  }

  lemma InitInv(c: Config, cache: map<Key, string>)
    ensures Inv(c, Init(c, cache))
  {
    assert SlotHolders(Init(c, cache)) == {};
  }

  ghost predicate RulesKept(s: State, s': State) {
    forall o :: o in s.robots ==> o in s'.robots && s'.robots[o] == s.robots[o]
  }

  /** Rules never change once stored, and no robots.txt is asked for an origin whose rules are stored. */
  lemma StepKeepsRules(c: Config, s: State, t: Task, a: Action)
    requires Inv(c, s) && Step(c, s, t, a).Some?
    ensures var s' := Step(c, s, t, a).value;
            && RulesKept(s, s')
            && (s'.asked == s.asked || (|s'.asked| == |s.asked| + 1 && s'.asked[..|s.asked|] == s.asked
                                        && s'.asked[|s.asked|] !in s.robots))
  {
    var s' := Step(c, s, t, a).value;
    if s'.asked != s.asked {
      assert s'.asked[..|s.asked|] == s.asked;
    }
    if InPhase(s, t, AskingRobots) {
      assert c.originOf(s.calls[t].url) !in s.robots;
    }
  }

  lemma StepKeepsLock(c: Config, s: State, t: Task, a: Action)
    requires LockInv(s) && Step(c, s, t, a).Some?
    ensures LockInv(Step(c, s, t, a).value)
  {
    var s' := Step(c, s, t, a).value;
    assert HoldsLock(s, t) <==> s.lock == Some(t);
    forall u: Task ensures HoldsLock(s', u) <==> s'.lock == Some(u) {
      assert HoldsLock(s, u) <==> s.lock == Some(u);
    }
  }

  lemma StepKeepsRobots(c: Config, s: State, t: Task, a: Action)
    requires LockInv(s) && RobotsInv(c, s) && Step(c, s, t, a).Some?
    ensures RobotsInv(c, Step(c, s, t, a).value)
  {
    var s' := Step(c, s, t, a).value;
    forall u: Task | InPhase(s', u, AskingRobots) ensures c.originOf(s'.calls[u].url) !in s'.robots {
      if u != t {
        assert InPhase(s, u, AskingRobots);
        assert HoldsLock(s, u) && s.lock == Some(u);
        assert HoldsLock(s, t) ==> s.lock == Some(t);
      }
    }
  }

  ghost predicate OthersUnchanged(s: State, s': State, t: Task) {
    forall u: Task :: u != t ==> (u in s.calls <==> u in s'.calls) && (u in s.calls ==> s'.calls[u] == s.calls[u])
  }

  /** A step of t leaves every other call alone. */
  lemma StepMovesOne(c: Config, s: State, t: Task, a: Action)
    requires Step(c, s, t, a).Some?
    ensures var s' := Step(c, s, t, a).value;
            OthersUnchanged(s, s', t)
  {
  }

  /** A slot is taken exactly when t starts to hold one and given back exactly when it stops. */
  lemma StepMovesSlot(c: Config, s: State, t: Task, a: Action)
    requires Step(c, s, t, a).Some?
    ensures var s' := Step(c, s, t, a).value;
            s'.free + (if HoldsSlot(s', t) then 1 else 0) == s.free + (if HoldsSlot(s, t) then 1 else 0)
  {
  }

  lemma StepKeepsSlots(c: Config, s: State, t: Task, a: Action)
    requires SlotInv(c, s) && Step(c, s, t, a).Some?
    ensures SlotInv(c, Step(c, s, t, a).value)
  {
    StepMovesOne(c, s, t, a);
    StepMovesSlot(c, s, t, a);
    HoldersMove(s, Step(c, s, t, a).value, t);
  }

  lemma HoldersMove(s: State, s': State, t: Task)
    requires OthersUnchanged(s, s', t)
    ensures |SlotHolders(s')| + (if HoldsSlot(s, t) then 1 else 0) == |SlotHolders(s)| + (if HoldsSlot(s', t) then 1 else 0)
  {
    HoldersElsewhere(s, s', t);
    CountWith(SlotHolders(s), t);
    CountWith(SlotHolders(s'), t);
  }

  lemma HoldersElsewhere(s: State, s': State, t: Task)
    requires OthersUnchanged(s, s', t)
    ensures SlotHolders(s) - {t} == SlotHolders(s') - {t}
  {
    forall u: Task | u != t ensures u in SlotHolders(s) <==> u in SlotHolders(s') {}
  }

  lemma CountWith<T>(xs: set<T>, x: T)
    ensures |xs| == |xs - {x}| + if x in xs then 1 else 0
  {
    if x !in xs { assert xs - {x} == xs; }
  }

  /** A page is only written by a task that held a slot for it. */
  ghost predicate WritesHeld(s: State, s': State, t: Task) {
    || s'.written == s.written
    || (HoldsSlot(s, t) && exists body :: s'.written == s.written + [Fetch(s.calls[t].url, body)])
  }

  /** The moving task waits for or holds a slot only after an allowing verdict. */
  lemma MoverIsAllowed(c: Config, s: State, t: Task, a: Action)
    requires VerdictInv(c, s) && Step(c, s, t, a).Some?
    ensures var s' := Step(c, s, t, a).value;
            && WritesHeld(s, s', t)
            && (InPhase(s', t, NeedsSlot) || HoldsSlot(s', t) ==> Allowed(c, s', s'.calls[t].url))
  {
    assert InPhase(s, t, NeedsSlot) || HoldsSlot(s, t) ==> Allowed(c, s, s.calls[t].url);
  }

  lemma VerdictsCarry(c: Config, s: State, s': State, t: Task)
    requires VerdictInv(c, s) && OthersUnchanged(s, s', t) && RulesKept(s, s') && WritesHeld(s, s', t)
    requires InPhase(s', t, NeedsSlot) || HoldsSlot(s', t) ==> Allowed(c, s', s'.calls[t].url)
    ensures VerdictInv(c, s')
  {
    forall u: Task | InPhase(s', u, NeedsSlot) || HoldsSlot(s', u) ensures Allowed(c, s', s'.calls[u].url) {
      if u != t {
        assert InPhase(s, u, NeedsSlot) || HoldsSlot(s, u);
      }
    }
  }

  lemma StepKeepsVerdicts(c: Config, s: State, t: Task, a: Action)
    requires Inv(c, s) && Step(c, s, t, a).Some?
    ensures VerdictInv(c, Step(c, s, t, a).value)
  {
    StepKeepsRules(c, s, t, a);
    StepMovesOne(c, s, t, a);
    MoverIsAllowed(c, s, t, a);
    VerdictsCarry(c, s, Step(c, s, t, a).value, t);
  }

  lemma StepKeepsInv(c: Config, s: State, t: Task, a: Action)
    requires Inv(c, s) && Step(c, s, t, a).Some?
    ensures Inv(c, Step(c, s, t, a).value)
  {
    StepKeepsLock(c, s, t, a);
    StepKeepsRobots(c, s, t, a);
    StepKeepsSlots(c, s, t, a);
    StepKeepsVerdicts(c, s, t, a);
  }

  lemma {:induction false} RunKeepsInv(c: Config, s: State, moves: seq<Move>)
    requires Inv(c, s) && Run(c, s, moves).Some?
    ensures Inv(c, Run(c, s, moves).value)
  {
    if moves != [] {
      var n := |moves| - 1;
      RunKeepsInv(c, s, moves[..n]);
      StepKeepsInv(c, Run(c, s, moves[..n]).value, moves[n].task, moves[n].action);
    }
  }

  // --- What every interleaving guarantees ---

  ghost function PagesInFlight(s: State): set<Task> {
    set t | t in s.calls && InPhase(s, t, AskingPage)
  }

  /** Politeness, in every state every interleaving reaches. */
  lemma Politeness(c: Config, cache: map<Key, string>, moves: seq<Move>)
    requires Run(c, Init(c, cache), moves).Some?
    ensures var s := Run(c, Init(c, cache), moves).value;
            && |PagesInFlight(s)| <= c.maxConcurrency
            && (forall t: Task, u: Task :: InPhase(s, t, AskingRobots) && InPhase(s, u, AskingRobots) ==> t == u)
            && (forall t: Task :: InPhase(s, t, AskingRobots) ==> c.originOf(s.calls[t].url) !in s.robots)
            && (c.respectRobots ==> forall i :: 0 <= i < |s.written| ==>
                  c.originOf(s.written[i].url) in s.robots && c.allows(s.robots[c.originOf(s.written[i].url)], s.written[i].url))
  {
    InitInv(c, cache);
    RunKeepsInv(c, Init(c, cache), moves);
    var s := Run(c, Init(c, cache), moves).value;
    SubsetSize(PagesInFlight(s), SlotHolders(s));
    forall t: Task, u: Task | InPhase(s, t, AskingRobots) && InPhase(s, u, AskingRobots) ensures t == u {
      assert HoldsLock(s, t) && HoldsLock(s, u);
    }
    forall i | c.respectRobots && 0 <= i < |s.written|
      ensures c.originOf(s.written[i].url) in s.robots && c.allows(s.robots[c.originOf(s.written[i].url)], s.written[i].url)
    {
      assert Allowed(c, s, s.written[i].url);
    }
  }

  lemma SubsetSize<T>(a: set<T>, b: set<T>)
    requires a <= b
    ensures |a| <= |b|
  {
    assert b == a + (b - a);
  }

  /** Once rules are stored they stay, and their origin's robots.txt is never asked again. */
  lemma {:induction false} StoredRulesAreFinal(c: Config, s: State, moves: seq<Move>, origin: Origin)
    requires Inv(c, s) && Run(c, s, moves).Some? && origin in s.robots
    ensures var s' := Run(c, s, moves).value;
            && origin in s'.robots && s'.robots[origin] == s.robots[origin]
            && s.asked <= s'.asked && origin !in s'.asked[|s.asked|..]
  {
    if moves != [] {
      var n := |moves| - 1;
      var mid := Run(c, s, moves[..n]).value;
      StoredRulesAreFinal(c, s, moves[..n], origin);
      RunKeepsInv(c, s, moves[..n]);
      StepKeepsRules(c, mid, moves[n].task, moves[n].action);
      AskedExtends(s.asked, mid.asked, Run(c, s, moves).value.asked, origin);
    }
  }

  lemma AskedExtends(a: seq<Origin>, b: seq<Origin>, d: seq<Origin>, origin: Origin)
    requires a <= b && origin !in b[|a|..]
    requires d == b || (|d| == |b| + 1 && d[..|b|] == b && d[|b|] != origin)
    ensures a <= d && origin !in d[|a|..]
  {
    if d != b {
      assert d == b + [d[|b|]];
      assert d[|a|..] == b[|a|..] + [d[|b|]];
    }
  }

  // --- No deadlock, no livelock ---

  predicate Finished(phase: Phase) {
    phase.Returned? || phase.Blocked? || phase.Raised?
  }

  /** Some task can move on its own: not by being called, and not by an interruption. */
  ghost predicate CanProgress(c: Config, s: State) {
    exists t: Task, a: Action :: !a.Enter? && !a.Interrupt? && Step(c, s, t, a).Some?
  }

  /** Unless every call has finished, some call can move (given at least one slot). */
  lemma NoDeadlock(c: Config, cache: map<Key, string>, moves: seq<Move>, waiting: Task)
    requires c.maxConcurrency > 0 && Run(c, Init(c, cache), moves).Some?
    requires var s := Run(c, Init(c, cache), moves).value; waiting in s.calls && !Finished(s.calls[waiting].phase)
    ensures CanProgress(c, Run(c, Init(c, cache), moves).value)
  {
    InitInv(c, cache);
    RunKeepsInv(c, Init(c, cache), moves);
    var s := Run(c, Init(c, cache), moves).value;
    match s.calls[waiting].phase
    case Started => assert Step(c, s, waiting, Begin).Some?;
    case NeedsLock =>
      if s.lock.None? {
        assert Step(c, s, waiting, Acquire).Some?;
      } else {
        LockHolderMoves(c, s, s.lock.value);
      }
    case HasLock => LockHolderMoves(c, s, waiting);
    case AskingRobots => LockHolderMoves(c, s, waiting);
    case NeedsSlot =>
      if s.free > 0 {
        assert Step(c, s, waiting, TakeSlot).Some?;
      } else {
        assert |SlotHolders(s)| > 0;
        var holder :| holder in SlotHolders(s);
        SlotHolderMoves(c, s, holder);
      }
    case Delaying => SlotHolderMoves(c, s, waiting);
    case AskingPage => SlotHolderMoves(c, s, waiting);
  }

  lemma LockHolderMoves(c: Config, s: State, t: Task)
    requires LockInv(s) && (s.lock == Some(t) || HoldsLock(s, t))
    ensures CanProgress(c, s)
  {
    assert HoldsLock(s, t);
    if InPhase(s, t, HasLock) {
      assert Step(c, s, t, LookAgain).Some?;
    } else {
      assert Step(c, s, t, RobotsNotOk).Some?;
    }
  }

  lemma SlotHolderMoves(c: Config, s: State, t: Task)
    requires HoldsSlot(s, t)
    ensures CanProgress(c, s)
  {
    if InPhase(s, t, Delaying) {
      assert Step(c, s, t, Wake).Some?;
    } else {
      assert Step(c, s, t, PageNotOk).Some?;
    }
  }

  /** How far a call has come. */
  function Progress(phase: Phase): nat {
    match phase
    case Started => 1
    case NeedsLock => 2
    case HasLock => 3
    case AskingRobots => 4
    case NeedsSlot => 5
    case Delaying => 6
    case AskingPage => 7
    case _ => 8
  }

  function MovesOf(moves: seq<Move>, t: Task): nat {
    if moves == [] then 0
    else MovesOf(moves[..|moves| - 1], t) + if moves[|moves| - 1].task == t then 1 else 0
  }

  function ProgressOf(s: State, t: Task): nat {
    if t in s.calls then Progress(s.calls[t].phase) else 0
  }

  lemma StepAdvances(c: Config, s: State, t: Task, a: Action)
    requires Step(c, s, t, a).Some?
    ensures ProgressOf(Step(c, s, t, a).value, t) > ProgressOf(s, t)
  {
  }

  /** Every move advances its own call and touches no other, so a call makes at most eight moves. */
  lemma {:induction false} CallsEnd(c: Config, s: State, moves: seq<Move>, t: Task)
    requires t !in s.calls && Run(c, s, moves).Some?
    ensures MovesOf(moves, t) <= ProgressOf(Run(c, s, moves).value, t) <= 8
  {
    if moves != [] {
      var n := |moves| - 1;
      CallsEnd(c, s, moves[..n], t);
      var mid := Run(c, s, moves[..n]).value;
      StepAdvances(c, mid, moves[n].task, moves[n].action);
      StepMovesOne(c, mid, moves[n].task, moves[n].action);
    }
  }

  // --- The cache, the refusals and the rules ---

  /** The body last written under a key. */
  function LastBody(c: Config, written: seq<Fetch>, key: Key): Option<string> {
    if written == [] then None
    else
      var last := written[|written| - 1];
      if c.keyOf(last.url) == key then Some(last.body) else LastBody(c, written[..|written| - 1], key)
  }

  /** The cache entry of a key: the body last written, else what was there at the start. */
  ghost predicate CacheEntry(c: Config, start: map<Key, string>, s: State, key: Key) {
    var body := LastBody(c, s.written, key);
    if body.Some? then key in s.cache && s.cache[key] == body.value
    else (key in s.cache <==> key in start) && (key in s.cache ==> s.cache[key] == start[key])
  }

  /** Some page with this key was fetched with this body. */
  ghost predicate WasFetched(c: Config, s: State, key: Key, body: string) {
    exists i :: 0 <= i < |s.written| && c.keyOf(s.written[i].url) == key && s.written[i].body == body
  }

  /** Where a call's outcome comes from. */
  ghost predicate OutcomeFits(c: Config, start: map<Key, string>, s: State, call: Call) {
    match call.phase
    case Returned(body) =>
      || Fetch(call.url, body) in s.written
      || (!c.forceRefresh
          && (WasFetched(c, s, c.keyOf(call.url), body)
              || (c.keyOf(call.url) in start && start[c.keyOf(call.url)] == body)))
    case Blocked =>
      c.respectRobots && c.originOf(call.url) in s.robots && !c.allows(s.robots[c.originOf(call.url)], call.url)
    case _ => true
  }

  /** A call whose page was cached at the start makes no request, unless it must. */
  ghost predicate CachedStays(c: Config, start: map<Key, string>, call: Call) {
    c.keyOf(call.url) in start && !c.forceRefresh ==> call.phase.Started? || call.phase.Returned?
  }

  ghost predicate CacheInv(c: Config, start: map<Key, string>, s: State) {
    && (forall key :: CacheEntry(c, start, s, key))
    && (forall t: Task :: t in s.calls ==> OutcomeFits(c, start, s, s.calls[t]) && CachedStays(c, start, s.calls[t]))
    && (forall i :: 0 <= i < |s.written| ==> !(c.keyOf(s.written[i].url) in start && !c.forceRefresh))
    && (!c.respectRobots ==> NeverAsks(s))
  }

  ghost predicate NeverAsks(s: State) {
    s.asked == [] && s.robots == map[] && forall t: Task :: !InPhase(s, t, NeedsLock) && !HoldsLock(s, t)
  }

  lemma {:induction false} LastBodyFetched(c: Config, written: seq<Fetch>, key: Key)
    ensures LastBody(c, written, key).Some? ==>
              exists i :: 0 <= i < |written| && c.keyOf(written[i].url) == key && written[i].body == LastBody(c, written, key).value
  {
    if written != [] && c.keyOf(written[|written| - 1].url) != key {
      LastBodyFetched(c, written[..|written| - 1], key);
    }
  }

  /** What a step does to the cache and the history of writes: nothing, or one page under its key. */
  lemma StepWrites(c: Config, s: State, t: Task, a: Action)
    requires Step(c, s, t, a).Some?
    ensures var s' := Step(c, s, t, a).value;
            || (s'.cache == s.cache && s'.written == s.written && (t in s.calls ==> !InPhase(s, t, AskingPage) || !s'.calls[t].phase.Returned?))
            || (InPhase(s, t, AskingPage) && a.PageOk? && s'.calls[t] == Call(s.calls[t].url, Returned(a.body))
                && s'.written == s.written + [Fetch(s.calls[t].url, a.body)]
                && s'.cache == s.cache[c.keyOf(s.calls[t].url) := a.body])
  {
  }

  lemma StepKeepsEntries(c: Config, start: map<Key, string>, s: State, t: Task, a: Action)
    requires (forall key :: CacheEntry(c, start, s, key)) && Step(c, s, t, a).Some?
    ensures forall key :: CacheEntry(c, start, Step(c, s, t, a).value, key)
  {
    var s' := Step(c, s, t, a).value;
    StepWrites(c, s, t, a);
    forall key ensures CacheEntry(c, start, s', key) {
      assert CacheEntry(c, start, s, key);
      if s'.written != s.written { assert s'.written[..|s.written|] == s.written; }
    }
  }

  /** What was fetched, stored and decided stays so: an outcome that fits still fits. */
  lemma OutcomesCarry(c: Config, start: map<Key, string>, s: State, s': State, call: Call)
    requires OutcomeFits(c, start, s, call) && RulesKept(s, s') && s.written <= s'.written
    ensures OutcomeFits(c, start, s', call)
  {
    forall f | f in s.written ensures f in s'.written {
      var i :| 0 <= i < |s.written| && s.written[i] == f;
      assert s'.written[i] == f;
    }
    if call.phase.Returned? && WasFetched(c, s, c.keyOf(call.url), call.phase.body) {
      var i :| 0 <= i < |s.written| && c.keyOf(s.written[i].url) == c.keyOf(call.url) && s.written[i].body == call.phase.body;
      assert s'.written[i] == s.written[i];
    }
  }

  lemma CachedBodyFits(c: Config, start: map<Key, string>, s: State, url: Url)
    requires CacheEntry(c, start, s, c.keyOf(url)) && c.keyOf(url) in s.cache && !c.forceRefresh
    ensures OutcomeFits(c, start, s, Call(url, Returned(s.cache[c.keyOf(url)])))
  {
    LastBodyFetched(c, s.written, c.keyOf(url));
  }

  /** The outcome the moving call may get. */
  lemma MoverFits(c: Config, start: map<Key, string>, s: State, t: Task, a: Action)
    requires CacheInv(c, start, s) && Step(c, s, t, a).Some?
    ensures OutcomeFits(c, start, Step(c, s, t, a).value, Step(c, s, t, a).value.calls[t])
  {
    var s' := Step(c, s, t, a).value;
    if InPhase(s, t, Started) && a.Begin? && s'.calls[t].phase.Returned? {
      assert CacheEntry(c, start, s, c.keyOf(s.calls[t].url));
      CachedBodyFits(c, start, s, s.calls[t].url);
    } else if InPhase(s, t, AskingPage) && a.PageOk? {
      assert s'.written[|s.written|] == Fetch(s.calls[t].url, a.body);
    } else if s'.calls[t].phase.Blocked? {
      assert !c.respectRobots ==> !HoldsLock(s, t);
    }
  }

  lemma MoverStaysCached(c: Config, start: map<Key, string>, s: State, t: Task, a: Action)
    requires CacheInv(c, start, s) && Step(c, s, t, a).Some?
    ensures CachedStays(c, start, Step(c, s, t, a).value.calls[t])
  {
    if t in s.calls {
      assert CachedStays(c, start, s.calls[t]) && CacheEntry(c, start, s, c.keyOf(s.calls[t].url));
    }
  }

  lemma StepKeepsWrites(c: Config, start: map<Key, string>, s: State, t: Task, a: Action)
    requires CacheInv(c, start, s) && Step(c, s, t, a).Some?
    ensures var s' := Step(c, s, t, a).value;
            forall i :: 0 <= i < |s'.written| ==> !(c.keyOf(s'.written[i].url) in start && !c.forceRefresh)
  {
    StepWrites(c, s, t, a);
    if t in s.calls { assert CachedStays(c, start, s.calls[t]); }
  }

  lemma StepKeepsUnasked(c: Config, start: map<Key, string>, s: State, t: Task, a: Action)
    requires CacheInv(c, start, s) && Step(c, s, t, a).Some? && !c.respectRobots
    ensures NeverAsks(Step(c, s, t, a).value)
  {
    assert !InPhase(s, t, NeedsLock) && !HoldsLock(s, t);
    StepMovesOne(c, s, t, a);
    var s' := Step(c, s, t, a).value;
    forall u: Task ensures !InPhase(s', u, NeedsLock) && !HoldsLock(s', u) {
      assert !InPhase(s, u, NeedsLock) && !HoldsLock(s, u);
    }
  }

  lemma StepKeepsCacheInv(c: Config, start: map<Key, string>, s: State, t: Task, a: Action)
    requires Inv(c, s) && CacheInv(c, start, s) && Step(c, s, t, a).Some?
    ensures CacheInv(c, start, Step(c, s, t, a).value)
  {
    var s' := Step(c, s, t, a).value;
    StepKeepsEntries(c, start, s, t, a);
    StepKeepsRules(c, s, t, a);
    StepWrites(c, s, t, a);
    StepMovesOne(c, s, t, a);
    MoverFits(c, start, s, t, a);
    MoverStaysCached(c, start, s, t, a);
    StepKeepsWrites(c, start, s, t, a);
    if !c.respectRobots { StepKeepsUnasked(c, start, s, t, a); }
    forall u: Task | u in s'.calls ensures OutcomeFits(c, start, s', s'.calls[u]) && CachedStays(c, start, s'.calls[u]) {
      if u != t {
        assert u in s.calls && s'.calls[u] == s.calls[u];
        OutcomesCarry(c, start, s, s', s.calls[u]);
      }
    }
  }

  lemma {:induction false} RunKeepsCacheInv(c: Config, start: map<Key, string>, moves: seq<Move>)
    requires Run(c, Init(c, start), moves).Some?
    ensures CacheInv(c, start, Run(c, Init(c, start), moves).value)
  {
    if moves == [] {
      forall key ensures CacheEntry(c, start, Init(c, start), key) {}
    } else {
      var n := |moves| - 1;
      InitInv(c, start);
      RunKeepsInv(c, Init(c, start), moves[..n]);
      RunKeepsCacheInv(c, start, moves[..n]);
      StepKeepsCacheInv(c, start, Run(c, Init(c, start), moves[..n]).value, moves[n].task, moves[n].action);
    }
  }

  /**
   * What a finished call saw, in every state every interleaving reaches: a returned body was fetched for
   * the call's own URL or, unless the cache is bypassed, for its key, by whichever call, or was there at
   * the start; a refused URL is one its origin's stored rules disallow. A page that was cached at the
   * start is never fetched again unless the cache is bypassed, and no robots.txt is asked for when robots
   * are not respected.
   */
  lemma OutcomesAreFounded(c: Config, start: map<Key, string>, moves: seq<Move>, t: Task)
    requires Run(c, Init(c, start), moves).Some?
    ensures var s := Run(c, Init(c, start), moves).value;
            && (t in s.calls && s.calls[t].phase.Returned? ==>
                  var url, body := s.calls[t].url, s.calls[t].phase.body;
                  || Fetch(url, body) in s.written
                  || (!c.forceRefresh && WasFetched(c, s, c.keyOf(url), body))
                  || (!c.forceRefresh && c.keyOf(url) in start && start[c.keyOf(url)] == body))
            && (t in s.calls && s.calls[t].phase.Blocked? ==>
                  var url := s.calls[t].url;
                  c.respectRobots && c.originOf(url) in s.robots && !c.allows(s.robots[c.originOf(url)], url))
            && (!c.forceRefresh ==> forall i :: 0 <= i < |s.written| ==> c.keyOf(s.written[i].url) !in start)
            && (!c.respectRobots ==> s.asked == [])
  {
    RunKeepsCacheInv(c, start, moves);
  }

  /** The cache always holds, under each key, the body last fetched for it, else what was there at the start. */
  lemma CacheHoldsLastBody(c: Config, start: map<Key, string>, moves: seq<Move>, key: Key)
    requires Run(c, Init(c, start), moves).Some?
    ensures var s := Run(c, Init(c, start), moves).value;
            match LastBody(c, s.written, key)
            case Some(body) => key in s.cache && s.cache[key] == body
            case None => (key in s.cache <==> key in start) && (key in s.cache ==> s.cache[key] == start[key])
  {
    RunKeepsCacheInv(c, start, moves);
    assert CacheEntry(c, start, Run(c, Init(c, start), moves).value, key);
  }

  /** With its rules stored a call gets its verdict at once: it never waits for the lock. */
  lemma StoredRulesNeedNoLock(c: Config, s: State, t: Task)
    requires InPhase(s, t, Started) && c.respectRobots && c.originOf(s.calls[t].url) in s.robots
    ensures Step(c, s, t, Begin).Some?
    ensures var s', url := Step(c, s, t, Begin).value, s.calls[t].url;
            && s'.lock == s.lock && s'.asked == s.asked
            && (s'.calls[t].phase.Returned? || (s'.calls[t].phase.NeedsSlot? <==> c.allows(s.robots[c.originOf(url)], url)))
            && s'.calls[t].phase in {NeedsSlot, Blocked, Returned(if c.keyOf(url) in s.cache then s.cache[c.keyOf(url)] else "")}
  {
  }

  /** The move ends the call t with an exception: an interruption or a failed page request. */
  predicate Fails(move: Move, t: Task) {
    move.task == t && (move.action.Interrupt? || move.action.PageNotOk?)
  }

  /** The move stores these rules: they are the answer, or the empty ones if there was no good answer. */
  predicate Answers(c: Config, move: Move, rules: Rules) {
    move.action == RobotsOk(rules) || (move.action.RobotsNotOk? && rules == c.emptyRules)
  }

  /** A call raises only for an interruption or a failed page request of its own: a missing robots.txt raises nothing. */
  lemma {:induction false} RaisedOnlyByFailure(c: Config, s: State, moves: seq<Move>, t: Task)
    requires t !in s.calls && Run(c, s, moves).Some? && InPhase(Run(c, s, moves).value, t, Raised)
    ensures exists i :: 0 <= i < |moves| && Fails(moves[i], t)
  {
    if moves != [] {
      var n := |moves| - 1;
      var mid := Run(c, s, moves[..n]).value;
      StepMovesOne(c, mid, moves[n].task, moves[n].action);
      if InPhase(mid, t, Raised) {
        RaisedOnlyByFailure(c, s, moves[..n], t);
        var i :| 0 <= i < n && Fails(moves[..n][i], t);
        assert Fails(moves[i], t);
      } else {
        assert Fails(moves[n], t);
      }
    }
  }

  /** The rules stored for an origin are what some call to that origin was answered, or the empty ones. */
  lemma {:induction false} RulesAreAnswers(c: Config, s: State, moves: seq<Move>, origin: Origin)
    requires Run(c, s, moves).Some? && origin in Run(c, s, moves).value.robots && origin !in s.robots
    ensures var s' := Run(c, s, moves).value;
            exists i :: 0 <= i < |moves| && Answers(c, moves[i], s'.robots[origin])
                        && moves[i].task in s'.calls && c.originOf(s'.calls[moves[i].task].url) == origin
  {
    if moves != [] {
      var n := |moves| - 1;
      var mid, s' := Run(c, s, moves[..n]).value, Run(c, s, moves).value;
      StepMovesOne(c, mid, moves[n].task, moves[n].action);
      StepStores(c, mid, moves[n].task, moves[n].action, origin);
      if origin in mid.robots && s'.robots[origin] == mid.robots[origin] {
        RulesAreAnswers(c, s, moves[..n], origin);
        var i :| 0 <= i < n && Answers(c, moves[..n][i], mid.robots[origin])
                 && moves[..n][i].task in mid.calls && c.originOf(mid.calls[moves[..n][i].task].url) == origin;
        assert moves[i] == moves[..n][i];
        KeepsUrl(c, mid, moves[n].task, moves[n].action, moves[i].task);
      } else {
        assert Answers(c, moves[n], s'.robots[origin]);
      }
    }
  }

  lemma KeepsUrl(c: Config, s: State, t: Task, a: Action, u: Task)
    requires Step(c, s, t, a).Some? && u in s.calls
    ensures u in Step(c, s, t, a).value.calls && Step(c, s, t, a).value.calls[u].url == s.calls[u].url
  {
  }

  /** A step stores rules only for the mover's origin, and only as an answer. */
  lemma StepStores(c: Config, s: State, t: Task, a: Action, origin: Origin)
    requires Step(c, s, t, a).Some? && origin in Step(c, s, t, a).value.robots
    ensures var s' := Step(c, s, t, a).value;
            || (origin in s.robots && s'.robots[origin] == s.robots[origin])
            || (t in s'.calls && c.originOf(s'.calls[t].url) == origin && Answers(c, Move(t, a), s'.robots[origin]))
  {
  }
}
