/**
  * The reference-counted configuration snapshot: readers take a share under the lock and drop it
  * without, a reload or a shutdown replaces the installed snapshot and drops the writer's share.
  * Every step below is one atomic action of one thread; a thread that brings the count to zero
  * frees the snapshot in a later step of its own.
  */
module Snapshot {
  import opened Prelude

  datatype Snap = Snap(refcount: int, freed: nat)

  datatype Pc =
    | Idle
    | AcquireLocked                                         // in ai_config_acquire, lock taken
    | AcquireSeen(seen: Option<nat>)                        // g_snapshot read
    | AcquireCounted(s: nat)                                // its count raised, lock still held
    | Holding(s: nat)                                       // using the configuration
    | InitLocked                                            // in ai_init, lock taken
    | InitBuilt(prior: Option<nat>, built: nat)               // new snapshot made, not yet installed
    | InitSwapped(s: nat)                                   // installed; the old writer share is still due
    | InitFreeing(s: nat)                                   // that share was the last one
    | InitDone                                              // about to unlock
    | ShutdownLocked
    | ShutdownTaken(taken: Option<nat>)                     // g_snapshot cleared, lock held
    | ShutdownOwing(s: nat)                                 // lock dropped, writer share still due
    | Freeing(s: nat)                                       // dropped the last share, outside the lock

  datatype State = State(heap: map<nat, Snap>, current: Option<nat>, lock: Option<nat>, pcs: map<nat, Pc>) {
    function At(t: nat): Pc { if t in pcs then pcs[t] else Idle }
  }

  /** `t` names the acting thread; `made` the address a new snapshot gets, when calloc succeeds. */
  datatype Event =
    | LockToAcquire(t: nat) | SeeCurrent(t: nat) | RaiseCount(t: nat) | UnlockHolding(t: nat) | Release(t: nat)
    | LockToInit(t: nat) | Build(t: nat, made: Option<nat>) | Install(t: nat) | DropOld(t: nat) | UnlockInit(t: nat)
    | LockToShutdown(t: nat) | TakeCurrent(t: nat) | UnlockShutdown(t: nat) | DropTaken(t: nat)
    | Free(t: nat)

  predicate CanStep(st: State, e: Event) {
    match e
    case LockToAcquire(t) => st.At(t) == Idle && st.lock.None?
    case SeeCurrent(t) => st.At(t) == AcquireLocked
    case RaiseCount(t) => st.At(t).AcquireSeen? && st.At(t).seen.Some? && st.At(t).seen.value in st.heap
    case UnlockHolding(t) => st.At(t).AcquireCounted? || st.At(t) == AcquireSeen(None)
    case Release(t) => st.At(t).Holding? && st.At(t).s in st.heap
    case LockToInit(t) => st.At(t) == Idle && st.lock.None?
    case Build(t, made) => st.At(t) == InitLocked && (made.Some? ==> made.value !in st.heap)
    case Install(t) => st.At(t).InitBuilt?
    case DropOld(t) => st.At(t).InitSwapped? && st.At(t).s in st.heap
    case UnlockInit(t) => st.At(t) == InitDone
    case LockToShutdown(t) => st.At(t) == Idle && st.lock.None?
    case TakeCurrent(t) => st.At(t) == ShutdownLocked
    case UnlockShutdown(t) => st.At(t).ShutdownTaken?
    case DropTaken(t) => st.At(t).ShutdownOwing? && st.At(t).s in st.heap
    case Free(t) => (st.At(t).Freeing? || st.At(t).InitFreeing?) && st.At(t).s in st.heap
  }

  function Go(st: State, t: nat, pc: Pc): State { st.(pcs := st.pcs[t := pc]) }

  function AddShare(heap: map<nat, Snap>, s: nat, d: int): map<nat, Snap>
    requires s in heap
  {
    heap[s := heap[s].(refcount := heap[s].refcount + d)]
  }

  function Step(st: State, e: Event): State
    requires CanStep(st, e)
  {
    match e
    case LockToAcquire(t) => Go(st, t, AcquireLocked).(lock := Some(t))
    case SeeCurrent(t) => Go(st, t, AcquireSeen(st.current))
    case RaiseCount(t) =>
      Go(st, t, AcquireCounted(st.At(t).seen.value)).(heap := AddShare(st.heap, st.At(t).seen.value, 1))
    case UnlockHolding(t) =>
      Go(st, t, if st.At(t).AcquireCounted? then Holding(st.At(t).s) else Idle).(lock := None)
    case Release(t) => Drop(st, t, st.At(t).s, Freeing(st.At(t).s), Idle)
    case LockToInit(t) => Go(st, t, InitLocked).(lock := Some(t))
    case Build(t, made) =>
      if made.None? then Go(st, t, InitDone)
      else Go(st, t, InitBuilt(st.current, made.value)).(heap := st.heap[made.value := Snap(1, 0)])
    case Install(t) =>
      Go(st, t, if st.At(t).prior.Some? then InitSwapped(st.At(t).prior.value) else InitDone)
        .(current := Some(st.At(t).built))
    case DropOld(t) => Drop(st, t, st.At(t).s, InitFreeing(st.At(t).s), InitDone)
    case UnlockInit(t) => Go(st, t, Idle).(lock := None)
    case LockToShutdown(t) => Go(st, t, ShutdownLocked).(lock := Some(t))
    case TakeCurrent(t) => Go(st, t, ShutdownTaken(st.current)).(current := None)
    case UnlockShutdown(t) =>
      Go(st, t, if st.At(t).taken.Some? then ShutdownOwing(st.At(t).taken.value) else Idle).(lock := None)
    case DropTaken(t) => Drop(st, t, st.At(t).s, Freeing(st.At(t).s), Idle)
    case Free(t) =>
      var s := st.At(t).s;
      Go(st, t, if st.At(t).InitFreeing? then InitDone else Idle)
        .(heap := st.heap[s := st.heap[s].(freed := st.heap[s].freed + 1)])
  }

  /** atomic_fetch_sub: whoever saw the count at 1 has to free. */
  function Drop(st: State, t: nat, s: nat, last: Pc, more: Pc): State
    requires s in st.heap
  {
    Go(st, t, if st.heap[s].refcount == 1 then last else more).(heap := AddShare(st.heap, s, -1))
  }

  ghost predicate IsRun(st: State, es: seq<Event>)
    decreases |es|
  {
    es == [] || (CanStep(st, es[0]) && IsRun(Step(st, es[0]), es[1..]))
  }

  ghost function Run(st: State, es: seq<Event>): State
    requires IsRun(st, es)
    decreases |es|
  {
    if es == [] then st else Run(Step(st, es[0]), es[1..])
  }

  // ---------------------------------------------------------------------------------------
  // The invariant

  datatype Role = Owner | Freer

  /** The snapshot a thread holds a share of, or the one it has to free. */
  function Part(pc: Pc, role: Role): Option<nat> {
    match (role, pc)
    case (Owner, AcquireCounted(s)) => Some(s)
    case (Owner, Holding(s)) => Some(s)
    case (Owner, InitBuilt(_, built)) => Some(built)
    case (Owner, InitSwapped(s)) => Some(s)
    case (Owner, ShutdownTaken(taken)) => taken
    case (Owner, ShutdownOwing(s)) => Some(s)
    case (Freer, Freeing(s)) => Some(s)
    case (Freer, InitFreeing(s)) => Some(s)
    case _ => None
  }

  predicate UnderLock(pc: Pc) {
    pc.AcquireLocked? || pc.AcquireSeen? || pc.AcquireCounted? || pc.InitLocked? || pc.InitBuilt? || pc.InitSwapped?
    || pc.InitFreeing? || pc.InitDone? || pc.ShutdownLocked? || pc.ShutdownTaken?
  }

  function Players(pcs: map<nat, Pc>, role: Role, s: nat): set<nat> {
    set t | t in pcs && Part(pcs[t], role) == Some(s)
  }

  /** The installed snapshot carries the writer's share until someone takes it over. */
  function WriterShare(st: State, s: nat): int { if st.current == Some(s) then 1 else 0 }

  ghost predicate CountsOk(st: State, s: nat)
    requires s in st.heap
  {
    && st.heap[s].refcount == |Players(st.pcs, Owner, s)| + WriterShare(st, s)
    && st.heap[s].freed + |Players(st.pcs, Freer, s)| == if st.heap[s].refcount == 0 then 1 else 0
  }

  predicate Known(heap: map<nat, Snap>, s: Option<nat>) { s.Some? ==> s.value in heap }

  /** A thread's snapshots exist, it is under the lock only with the lock, and what it saw is still so. */
  predicate ThreadOk(st: State, t: nat, pc: Pc) {
    && Known(st.heap, Part(pc, Owner)) && Known(st.heap, Part(pc, Freer))
    && (UnderLock(pc) ==> st.lock == Some(t))
    && (pc.AcquireSeen? ==> pc.seen == st.current)
    && (pc.InitBuilt? ==> pc.prior == st.current && pc.prior != Some(pc.built))
  }

  ghost predicate PlacesOk(st: State) {
    Known(st.heap, st.current) && forall t :: t in st.pcs ==> ThreadOk(st, t, st.pcs[t])
  }

  ghost predicate AllCountsOk(st: State) {
    forall s :: s in st.heap ==> CountsOk(st, s)
  }

  ghost predicate Inv(st: State) { PlacesOk(st) && AllCountsOk(st) }

  /** Before the first ai_init there is no snapshot, and nobody uses one. */
  lemma {:induction false} StartsWell()
    ensures Inv(State(map[], None, None, map[]))
  {
  }

  lemma {:induction false} OthersStay(pcs: map<nat, Pc>, t: nat, pc: Pc, role: Role, s: nat)
    ensures Players(pcs[t := pc], role, s) - {t} == Players(pcs, role, s) - {t}
    ensures t in Players(pcs[t := pc], role, s) <==> Part(pc, role) == Some(s)
  {
  }

  /** Moving one thread changes the number of players by its own part. */
  lemma {:induction false} PlayersMove(pcs: map<nat, Pc>, t: nat, pc: Pc, role: Role, s: nat)
    ensures var was := t in pcs && Part(pcs[t], role) == Some(s);
            |Players(pcs[t := pc], role, s)|
              == |Players(pcs, role, s)| - (if was then 1 else 0) + (if Part(pc, role) == Some(s) then 1 else 0)
  {
    var before, after := Players(pcs, role, s), Players(pcs[t := pc], role, s);
    OthersStay(pcs, t, pc, role, s);
    WithoutOne(before, t);
    WithoutOne(after, t);
  }

  lemma {:induction false} WithoutOne(ts: set<nat>, t: nat)
    ensures |ts - {t}| == |ts| - if t in ts then 1 else 0
  {
    assert ts == if t in ts then (ts - {t}) + {t} else ts - {t};
  }

  lemma {:induction false} PlayersMoveAll(st: State, t: nat, pc: Pc)
    ensures forall role, s: nat :: |Players(st.pcs[t := pc], role, s)|
              == |Players(st.pcs, role, s)| - (if Part(st.At(t), role) == Some(s) then 1 else 0)
                 + (if Part(pc, role) == Some(s) then 1 else 0)
  {
    forall role, s: nat
      ensures |Players(st.pcs[t := pc], role, s)|
              == |Players(st.pcs, role, s)| - (if Part(st.At(t), role) == Some(s) then 1 else 0)
                 + (if Part(pc, role) == Some(s) then 1 else 0)
    {
      PlayersMove(st.pcs, t, pc, role, s);
    }
  }

  /** A snapshot a thread owns has a positive count; nobody frees it and it is not freed. */
  lemma {:induction false} OwnedIsAlive(st: State, t: nat, s: nat)
    requires Inv(st) && Part(st.At(t), Owner) == Some(s)
    ensures s in st.heap && st.heap[s].refcount >= 1 && st.heap[s].freed == 0 && Players(st.pcs, Freer, s) == {}
  {
    assert t in Players(st.pcs, Owner, s);
  }

  /** The steps that only take or drop the lock or read the installed snapshot. */
  predicate IsQuiet(e: Event) {
    e.LockToAcquire? || e.SeeCurrent? || e.UnlockHolding? || e.LockToInit? || e.UnlockInit? || e.LockToShutdown?
    || e.UnlockShutdown? || (e.Build? && e.made.None?)
  }

  /** What a step does to the places of the acting thread. */
  ghost predicate ActorOk(st: State, st': State, t: nat) {
    && Known(st'.heap, st'.current) && st.heap.Keys <= st'.heap.Keys
    && t in st'.pcs && st'.pcs == st.pcs[t := st'.pcs[t]] && ThreadOk(st', t, st'.pcs[t])
    && (st'.lock != st.lock || st'.current != st.current ==> st.lock.None? || st.lock == Some(t))
  }

  lemma {:induction false} QuietActorKeepsPlaces(st: State, e: Event)
    requires Known(st.heap, st.current) && ThreadOk(st, e.t, st.At(e.t)) && CanStep(st, e) && IsQuiet(e)
    ensures ActorOk(st, Step(st, e), e.t)
  {
  }

  lemma {:induction false} ActorKeepsPlaces(st: State, e: Event)
    requires Known(st.heap, st.current) && ThreadOk(st, e.t, st.At(e.t)) && CanStep(st, e)
    ensures ActorOk(st, Step(st, e), e.t)
  {
    if IsQuiet(e) {
      QuietActorKeepsPlaces(st, e);
    }
  }

  lemma {:induction false} StepKeepsPlaces(st: State, e: Event)
    requires PlacesOk(st) && CanStep(st, e)
    ensures PlacesOk(Step(st, e))
  {
    assert ThreadOk(st, e.t, st.At(e.t));
    ActorKeepsPlaces(st, e);
    var st' := Step(st, e);
    forall x | x in st'.pcs
      ensures ThreadOk(st', x, st'.pcs[x])
    {
      if x != e.t {
        assert ThreadOk(st, x, st.pcs[x]);
      }
    }
  }

  lemma {:induction false} DropKeepsCounts(st: State, t: nat, last: Pc, more: Pc, s: nat)
    requires Inv(st) && s in st.heap
    requires Part(st.At(t), Owner) == Some(s) && Part(st.At(t), Freer) == None
    requires Part(last, Owner) == None && Part(last, Freer) == Some(s)
    requires Part(more, Owner) == None && Part(more, Freer) == None
    ensures AllCountsOk(Drop(st, t, s, last, more))
  {
    OwnedIsAlive(st, t, s);
    PlayersMoveAll(st, t, last);
    PlayersMoveAll(st, t, more);
  }

  /** A thread that keeps the same shares changes no count. */
  lemma {:induction false} QuietKeepsCounts(st: State, t: nat, pc: Pc, lock: Option<nat>)
    requires Inv(st)
    requires Part(pc, Owner) == Part(st.At(t), Owner) && Part(pc, Freer) == Part(st.At(t), Freer)
    ensures AllCountsOk(Go(st, t, pc).(lock := lock))
  {
    PlayersMoveAll(st, t, pc);
  }

  lemma {:induction false} RaiseKeepsCounts(st: State, t: nat)
    requires Inv(st) && CanStep(st, RaiseCount(t))
    ensures AllCountsOk(Step(st, RaiseCount(t)))
  {
    assert ThreadOk(st, t, st.At(t));
    PlayersMoveAll(st, t, AcquireCounted(st.At(t).seen.value));
  }

  lemma {:induction false} BuildKeepsCounts(st: State, t: nat, made: nat)
    requires Inv(st) && CanStep(st, Build(t, Some(made)))
    ensures AllCountsOk(Step(st, Build(t, Some(made))))
  {
    PlayersMoveAll(st, t, InitBuilt(st.current, made));
    NobodyHas(st, Owner, made);
    NobodyHas(st, Freer, made);
    assert st.current != Some(made);
  }

  lemma {:induction false} NobodyHas(st: State, role: Role, s: nat)
    requires Inv(st) && s !in st.heap
    ensures Players(st.pcs, role, s) == {}
  {
    forall t | t in st.pcs
      ensures Part(st.pcs[t], role) != Some(s)
    {
      assert ThreadOk(st, t, st.pcs[t]);
    }
  }

  /** A thread that gives up its own parts and gets others moves the counts of these alone. */
  lemma {:induction false} PartsMove(st: State, t: nat, pc: Pc, s: nat)
    ensures var pcs := st.pcs[t := pc];
            && |Players(pcs, Owner, s)| == |Players(st.pcs, Owner, s)| - Has(st.At(t), Owner, s) + Has(pc, Owner, s)
            && |Players(pcs, Freer, s)| == |Players(st.pcs, Freer, s)| - Has(st.At(t), Freer, s) + Has(pc, Freer, s)
  {
    PlayersMove(st.pcs, t, pc, Owner, s);
    PlayersMove(st.pcs, t, pc, Freer, s);
  }

  function Has(pc: Pc, role: Role, s: nat): int { if Part(pc, role) == Some(s) then 1 else 0 }

  lemma {:induction false} InstallKeepsCount(st: State, t: nat, prior: Option<nat>, built: nat, s: nat)
    requires s in st.heap && CountsOk(st, s) && st.At(t) == InitBuilt(prior, built)
    requires prior == st.current && prior != Some(built)
    ensures CountsOk(Step(st, Install(t)), s)
  {
    PartsMove(st, t, if prior.Some? then InitSwapped(prior.value) else InitDone, s);
  }

  lemma {:induction false} InstallKeepsCounts(st: State, t: nat)
    requires Inv(st) && CanStep(st, Install(t))
    ensures AllCountsOk(Step(st, Install(t)))
  {
    assert ThreadOk(st, t, st.At(t));
    forall s | s in Step(st, Install(t)).heap
      ensures CountsOk(Step(st, Install(t)), s)
    {
      InstallKeepsCount(st, t, st.At(t).prior, st.At(t).built, s);
    }
  }

  lemma {:induction false} TakeKeepsCounts(st: State, t: nat)
    requires Inv(st) && CanStep(st, TakeCurrent(t))
    ensures AllCountsOk(Step(st, TakeCurrent(t)))
  {
    PlayersMoveAll(st, t, ShutdownTaken(st.current));
  }

  lemma {:induction false} FreeKeepsCount(st: State, t: nat, s: nat, x: nat)
    requires x in st.heap && s in st.heap && CountsOk(st, x)
    requires st.At(t) == Freeing(s) || st.At(t) == InitFreeing(s)
    ensures CountsOk(Step(st, Free(t)), x)
  {
    PartsMove(st, t, if st.At(t).InitFreeing? then InitDone else Idle, x);
  }

  lemma {:induction false} FreeKeepsCounts(st: State, t: nat)
    requires Inv(st) && CanStep(st, Free(t))
    ensures AllCountsOk(Step(st, Free(t)))
  {
    forall x | x in Step(st, Free(t)).heap
      ensures CountsOk(Step(st, Free(t)), x)
    {
      FreeKeepsCount(st, t, st.At(t).s, x);
    }
  }

  lemma {:induction false} QuietIsGo(st: State, e: Event)
    requires CanStep(st, e) && IsQuiet(e)
    ensures var st' := Step(st, e);
            && st' == Go(st, e.t, st'.pcs[e.t]).(lock := st'.lock)
            && Part(st'.pcs[e.t], Owner) == Part(st.At(e.t), Owner)
            && Part(st'.pcs[e.t], Freer) == Part(st.At(e.t), Freer)
  {
  }

  lemma {:induction false} QuietStepKeepsCounts(st: State, e: Event)
    requires Inv(st) && CanStep(st, e) && IsQuiet(e)
    ensures AllCountsOk(Step(st, e))
  {
    QuietIsGo(st, e);
    QuietKeepsCounts(st, e.t, Step(st, e).pcs[e.t], Step(st, e).lock);
  }

  lemma {:induction false} DropStepKeepsCounts(st: State, e: Event)
    requires Inv(st) && CanStep(st, e) && (e.Release? || e.DropOld? || e.DropTaken?)
    ensures AllCountsOk(Step(st, e))
  {
    var s := st.At(e.t).s;
    if e.DropOld? {
      DropKeepsCounts(st, e.t, InitFreeing(s), InitDone, s);
    } else {
      DropKeepsCounts(st, e.t, Freeing(s), Idle, s);
    }
  }

  lemma {:induction false} StepKeepsCounts(st: State, e: Event)
    requires Inv(st) && CanStep(st, e)
    ensures AllCountsOk(Step(st, e))
  {
    if IsQuiet(e) {
      QuietStepKeepsCounts(st, e);
    } else {
      match e
      case Release(t) => DropStepKeepsCounts(st, e);
      case DropOld(t) => DropStepKeepsCounts(st, e);
      case DropTaken(t) => DropStepKeepsCounts(st, e);
      case Build(t, made) => BuildKeepsCounts(st, t, made.value);
      case RaiseCount(t) => RaiseKeepsCounts(st, t);
      case Install(t) => InstallKeepsCounts(st, t);
      case TakeCurrent(t) => TakeKeepsCounts(st, t);
      case Free(t) => FreeKeepsCounts(st, t);
    }
  }

  lemma {:induction false} StepKeepsInv(st: State, e: Event)
    requires Inv(st) && CanStep(st, e)
    ensures Inv(Step(st, e))
  {
    StepKeepsPlaces(st, e);
    StepKeepsCounts(st, e);
  }

  lemma {:induction false} RunKeepsInv(st: State, es: seq<Event>)
    requires Inv(st) && IsRun(st, es)
    ensures Inv(Run(st, es))
    decreases |es|
  {
    if es != [] {
      StepKeepsInv(st, es[0]);
      RunKeepsInv(Step(st, es[0]), es[1..]);
    }
  }

  /** A thread at rest waits for the lock at most. */
  lemma {:induction false} IdleGoesOn(st: State, t: nat)
    requires st.At(t) == Idle && st.lock == None
    ensures CanStep(st, LockToAcquire(t)) && CanStep(st, LockToInit(t)) && CanStep(st, LockToShutdown(t))
  {
  }

  /** No other thread is ever stuck: it can take its next step. */
  lemma {:induction false} ThreadsGoOn(st: State, t: nat)
    requires Inv(st) && st.At(t) != Idle
    ensures exists e :: NextOf(st.At(t), t, e) && CanStep(st, e)
  {
    assert ThreadOk(st, t, st.pcs[t]);
    GoesOn(st, t, st.At(t));
  }

  /** The step a thread takes from a place in the program. */
  predicate NextOf(pc: Pc, t: nat, e: Event) {
    match pc
    case Idle => false
    case AcquireLocked => e == SeeCurrent(t)
    case AcquireSeen(seen) => e == if seen.Some? then RaiseCount(t) else UnlockHolding(t)
    case AcquireCounted(_) => e == UnlockHolding(t)
    case Holding(_) => e == Release(t)
    case InitLocked => e.Build? && e.t == t
    case InitBuilt(_, _) => e == Install(t)
    case InitSwapped(_) => e == DropOld(t)
    case InitFreeing(_) => e == Free(t)
    case InitDone => e == UnlockInit(t)
    case ShutdownLocked => e == TakeCurrent(t)
    case ShutdownTaken(_) => e == UnlockShutdown(t)
    case ShutdownOwing(_) => e == DropTaken(t)
    case Freeing(_) => e == Free(t)
  }

  lemma {:induction false} GoesOn(st: State, t: nat, pc: Pc)
    requires st.At(t) == pc != Idle && Known(st.heap, st.current) && ThreadOk(st, t, pc)
    ensures exists e :: NextOf(pc, t, e) && CanStep(st, e)
  {
    var e := match pc
             case AcquireLocked => SeeCurrent(t)
             case AcquireSeen(seen) => if seen.Some? then RaiseCount(t) else UnlockHolding(t)
             case AcquireCounted(_) => UnlockHolding(t)
             case Holding(_) => Release(t)
             case InitLocked => Build(t, None)
             case InitBuilt(_, _) => Install(t)
             case InitSwapped(_) => DropOld(t)
             case InitDone => UnlockInit(t)
             case ShutdownLocked => TakeCurrent(t)
             case ShutdownTaken(_) => UnlockShutdown(t)
             case ShutdownOwing(_) => DropTaken(t)
             case _ => Free(t);
    assert NextOf(pc, t, e) && CanStep(st, e);
  }

  // ---------------------------------------------------------------------------------------
  // What it means

  /** A thread that uses a snapshot, or has just seen it installed, sees it alive in every run. */
  lemma {:induction false} HeldIsAlive(st: State, es: seq<Event>, t: nat, s: nat)
    requires Inv(st) && IsRun(st, es)
    requires var pc := Run(st, es).At(t); pc == Holding(s) || pc == AcquireSeen(Some(s))
    ensures var end := Run(st, es);
            && s in end.heap && end.heap[s].freed == 0 && end.heap[s].refcount >= 1
            && (forall x :: end.At(x) != Freeing(s) && end.At(x) != InitFreeing(s))
  {
    RunKeepsInv(st, es);
    var end := Run(st, es);
    assert ThreadOk(end, t, end.At(t));
    assert CountsOk(end, s);
    if end.At(t) == Holding(s) {
      OwnedIsAlive(end, t, s);
    }
    forall x
      ensures end.At(x) != Freeing(s) && end.At(x) != InitFreeing(s)
    {
      assert x !in Players(end.pcs, Freer, s);
    }
  }

  /** Only a thread with a share lowers a count, and only if it is not zero. */
  lemma {:induction false} OwnersDrop(st: State, e: Event, s: nat)
    requires Inv(st) && CanStep(st, e) && (e.Release? || e.DropOld? || e.DropTaken?)
    ensures st.At(e.t).s in st.heap && st.heap[st.At(e.t).s].refcount > 0
  {
    OwnedIsAlive(st, e.t, st.At(e.t).s);
  }

  lemma {:induction false} RaisesPositive(st: State, t: nat)
    requires Inv(st) && CanStep(st, RaiseCount(t))
    ensures st.heap[st.At(t).seen.value].refcount > 0
  {
    assert ThreadOk(st, t, st.At(t));
    assert CountsOk(st, st.At(t).seen.value);
  }

  lemma {:induction false} ZeroStaysZero(st: State, e: Event, s: nat)
    requires Inv(st) && CanStep(st, e) && s in st.heap && st.heap[s].refcount == 0
    ensures s in Step(st, e).heap && Step(st, e).heap[s].refcount == 0 && Step(st, e).heap[s].freed >= st.heap[s].freed
  {
    if e.Release? || e.DropOld? || e.DropTaken? {
      OwnersDrop(st, e, s);
    } else if e.RaiseCount? {
      RaisesPositive(st, e.t);
    }
  }

  /** A count that is zero stays zero, and what is freed stays freed. */
  lemma {:induction false} ZeroIsFinal(st: State, es: seq<Event>, s: nat)
    requires Inv(st) && IsRun(st, es) && s in st.heap && st.heap[s].refcount == 0
    ensures s in Run(st, es).heap && Run(st, es).heap[s].refcount == 0
    ensures Run(st, es).heap[s].freed >= st.heap[s].freed
    decreases |es|
  {
    if es != [] {
      StepKeepsInv(st, es[0]);
      ZeroStaysZero(st, es[0], s);
      ZeroIsFinal(Step(st, es[0]), es[1..], s);
    }
  }

  /** Freed once at most, and only when its count is zero: no share of it is left. */
  lemma {:induction false} FreedOnlyOnceAndUnused(st: State, es: seq<Event>, s: nat)
    requires Inv(st) && IsRun(st, es) && s in Run(st, es).heap
    ensures var end := Run(st, es);
            && end.heap[s].freed <= 1
            && (end.heap[s].freed == 1 ==> end.current != Some(s) && Players(end.pcs, Owner, s) == {}
                                           && Players(end.pcs, Freer, s) == {})
  {
    RunKeepsInv(st, es);
    assert CountsOk(Run(st, es), s);
  }

  lemma {:induction false} FreerFrees(st: State, t: nat, s: nat)
    requires s in st.heap && st.heap[s].freed == 0 && t in Players(st.pcs, Freer, s)
    ensures CanStep(st, Free(t)) && Step(st, Free(t)).heap[s].freed == 1
  {
    assert st.At(t).s == s;
  }

  /** A replaced snapshot that no thread holds a share of is freed, or one thread is about to. */
  lemma {:induction false} RetiredIsFreed(st: State, es: seq<Event>, s: nat)
    requires Inv(st) && IsRun(st, es) && s in Run(st, es).heap
    requires Run(st, es).current != Some(s) && Players(Run(st, es).pcs, Owner, s) == {}
    ensures var end := Run(st, es);
            end.heap[s].freed == 1
            || exists t :: t in Players(end.pcs, Freer, s) && CanStep(end, Free(t))
                           && Step(end, Free(t)).heap[s].freed == 1
  {
    RunKeepsInv(st, es);
    var end := Run(st, es);
    assert CountsOk(end, s);
    if end.heap[s].freed == 0 {
      var t :| t in Players(end.pcs, Freer, s);
      FreerFrees(end, t, s);
    }
  }

  /** With every thread done, exactly the installed snapshot is left. */
  lemma {:induction false} QuiescentLeavesOne(st: State, es: seq<Event>, s: nat)
    requires Inv(st) && IsRun(st, es) && s in Run(st, es).heap
    requires forall t :: Run(st, es).At(t) == Idle
    ensures Run(st, es).heap[s].freed == if Run(st, es).current == Some(s) then 0 else 1
  {
    RunKeepsInv(st, es);
    var end := Run(st, es);
    assert CountsOk(end, s);
    forall role, x: nat
      ensures Players(end.pcs, role, x) == {}
    {
      assert forall t :: t in end.pcs ==> end.At(t) == end.pcs[t];
    }
  }
}
