/** Which snapshot is installed after a reload or a shutdown, and which one a reader gets, in every interleaving. */
module SnapshotRuns {
  import opened Prelude
  import opened Snapshot

  lemma {:induction false} SplitRun(st: State, first: seq<Event>, rest: seq<Event>)
    requires IsRun(st, first + rest)
    ensures IsRun(st, first) && IsRun(Run(st, first), rest) && Run(st, first + rest) == Run(Run(st, first), rest)
    decreases |first|
  {
    if first == [] {
      assert first + rest == rest;
    } else {
      assert (first + rest)[1..] == first[1..] + rest;
      SplitRun(Step(st, first[0]), first[1..], rest);
    }
  }

  /** A run that begins with one event and ends with another. */
  lemma {:induction false} SplitCall(st: State, first: Event, es: seq<Event>, last: Event)
    requires IsRun(st, [first] + es + [last])
    ensures CanStep(st, first) && IsRun(Step(st, first), es) && CanStep(Run(Step(st, first), es), last)
    ensures Run(st, [first] + es + [last]) == Step(Run(Step(st, first), es), last)
  {
    assert [first] + es + [last] == [first] + (es + [last]) && ([first] + (es + [last]))[1..] == es + [last];
    SplitRun(Step(st, first), es, [last]);
    assert [last][1..] == [];
  }

  /** While a thread has the lock, no other moves what is installed. */
  lemma {:induction false} OthersWait(st: State, t: nat, e: Event)
    requires Inv(st) && st.lock == Some(t) && CanStep(st, e) && e.t != t
    ensures Step(st, e).current == st.current && Step(st, e).lock == st.lock && Step(st, e).At(t) == st.At(t)
  {
    assert ThreadOk(st, e.t, st.At(e.t));
  }

  // ---------------------------------------------------------------------------------------
  // Reloads

  /** In `ai_init`, with snapshot `m` made while `prior` was installed. */
  ghost predicate Reloading(st: State, t: nat, prior: Option<nat>, m: nat) {
    && Inv(st) && st.lock == Some(t)
    && ((st.At(t) == InitBuilt(prior, m) && st.current == prior)
        || ((st.At(t).InitSwapped? || st.At(t).InitFreeing? || st.At(t) == InitDone) && st.current == Some(m)))
  }

  lemma {:induction false} StepReloads(st: State, t: nat, prior: Option<nat>, m: nat, e: Event)
    requires Reloading(st, t, prior, m) && CanStep(st, e) && e != UnlockInit(t)
    ensures Reloading(Step(st, e), t, prior, m)
  {
    StepKeepsInv(st, e);
    if e.t != t {
      OthersWait(st, t, e);
    }
  }

  lemma {:induction false} RunReloads(st: State, t: nat, prior: Option<nat>, m: nat, es: seq<Event>)
    requires Reloading(st, t, prior, m) && IsRun(st, es) && UnlockInit(t) !in es
    ensures Reloading(Run(st, es), t, prior, m)
    decreases |es|
  {
    if es != [] {
      StepReloads(st, t, prior, m, es[0]);
      RunReloads(Step(st, es[0]), t, prior, m, es[1..]);
    }
  }

  lemma {:induction false} InstalledIsAlive(st: State)
    requires Inv(st) && st.current.Some?
    ensures st.current.value in st.heap && st.heap[st.current.value].freed == 0
  {
    assert CountsOk(st, st.current.value);
  }

  /**
    * Whatever others do in between: when the thread that made snapshot `m` leaves `ai_init`, `m` is installed
    * and not freed, and what was installed before no longer is.
    */
  lemma {:induction false} MadeIsInstalled(st: State, t: nat, m: nat, es: seq<Event>)
    requires Inv(st) && IsRun(st, [Build(t, Some(m))] + es + [UnlockInit(t)]) && UnlockInit(t) !in es
    ensures var end := Run(st, [Build(t, Some(m))] + es + [UnlockInit(t)]);
            && end.current == Some(m) && end.current != st.current && end.lock == None
            && m in end.heap && end.heap[m].freed == 0
  {
    SplitCall(st, Build(t, Some(m)), es, UnlockInit(t));
    var made := Step(st, Build(t, Some(m)));
    assert ThreadOk(st, t, st.At(t));
    StepKeepsInv(st, Build(t, Some(m)));
    assert Reloading(made, t, st.current, m);
    RunReloads(made, t, st.current, m, es);
    StepKeepsInv(Run(made, es), UnlockInit(t));
    InstalledIsAlive(Step(Run(made, es), UnlockInit(t)));
  }

  /** About to leave `ai_init` without a new snapshot. */
  ghost predicate Giving(st: State, t: nat, prior: Option<nat>) {
    Inv(st) && st.lock == Some(t) && st.At(t) == InitDone && st.current == prior
  }

  lemma {:induction false} RunGives(st: State, t: nat, prior: Option<nat>, es: seq<Event>)
    requires Giving(st, t, prior) && IsRun(st, es) && UnlockInit(t) !in es
    ensures Giving(Run(st, es), t, prior)
    decreases |es|
  {
    if es != [] {
      StepKeepsInv(st, es[0]);
      if es[0].t != t {
        OthersWait(st, t, es[0]);
      }
      RunGives(Step(st, es[0]), t, prior, es[1..]);
    }
  }

  /** Without memory for a new snapshot the old one stays installed. */
  lemma {:induction false} FailureKeepsInstalled(st: State, t: nat, es: seq<Event>)
    requires Inv(st) && IsRun(st, [Build(t, None)] + es + [UnlockInit(t)]) && UnlockInit(t) !in es
    ensures Run(st, [Build(t, None)] + es + [UnlockInit(t)]).current == st.current
  {
    SplitCall(st, Build(t, None), es, UnlockInit(t));
    assert ThreadOk(st, t, st.At(t));
    StepKeepsInv(st, Build(t, None));
    RunGives(Step(st, Build(t, None)), t, st.current, es);
  }

  // ---------------------------------------------------------------------------------------
  // Shutdowns

  ghost predicate ShuttingDown(st: State, t: nat) {
    && Inv(st) && st.lock == Some(t)
    && (st.At(t) == ShutdownLocked || (st.At(t).ShutdownTaken? && st.current == None))
  }

  lemma {:induction false} RunShutsDown(st: State, t: nat, es: seq<Event>)
    requires ShuttingDown(st, t) && IsRun(st, es) && UnlockShutdown(t) !in es
    ensures ShuttingDown(Run(st, es), t)
    decreases |es|
  {
    if es != [] {
      StepKeepsInv(st, es[0]);
      if es[0].t != t {
        OthersWait(st, t, es[0]);
      }
      RunShutsDown(Step(st, es[0]), t, es[1..]);
    }
  }

  /** When a thread drops the lock in `ai_shutdown` nothing is installed. */
  lemma {:induction false} ShutdownLeavesNothing(st: State, t: nat, es: seq<Event>)
    requires Inv(st) && IsRun(st, [LockToShutdown(t)] + es + [UnlockShutdown(t)]) && UnlockShutdown(t) !in es
    ensures var end := Run(st, [LockToShutdown(t)] + es + [UnlockShutdown(t)]); end.current == None && end.lock == None
  {
    SplitCall(st, LockToShutdown(t), es, UnlockShutdown(t));
    StepKeepsInv(st, LockToShutdown(t));
    RunShutsDown(Step(st, LockToShutdown(t)), t, es);
  }

  // ---------------------------------------------------------------------------------------
  // Readers

  /** In `ai_config_acquire`, with `seen` installed from the lock on. */
  ghost predicate Acquiring(st: State, t: nat, seen: Option<nat>) {
    && Inv(st) && st.lock == Some(t) && st.current == seen
    && (st.At(t) == AcquireLocked || st.At(t) == AcquireSeen(seen)
        || (seen.Some? && st.At(t) == AcquireCounted(seen.value)))
  }

  lemma {:induction false} RunAcquires(st: State, t: nat, seen: Option<nat>, es: seq<Event>)
    requires Acquiring(st, t, seen) && IsRun(st, es) && UnlockHolding(t) !in es
    ensures Acquiring(Run(st, es), t, seen)
    decreases |es|
  {
    if es != [] {
      StepKeepsInv(st, es[0]);
      if es[0].t != t {
        OthersWait(st, t, es[0]);
      }
      RunAcquires(Step(st, es[0]), t, seen, es[1..]);
    }
  }

  /** A reader gets exactly what was installed when it took the lock. */
  lemma {:induction false} ReaderGetsInstalled(st: State, t: nat, es: seq<Event>)
    requires Inv(st) && IsRun(st, [LockToAcquire(t)] + es + [UnlockHolding(t)]) && UnlockHolding(t) !in es
    ensures var end := Run(st, [LockToAcquire(t)] + es + [UnlockHolding(t)]);
            && end.At(t) == (if st.current.Some? then Holding(st.current.value) else Idle)
            && end.current == st.current
  {
    SplitCall(st, LockToAcquire(t), es, UnlockHolding(t));
    StepKeepsInv(st, LockToAcquire(t));
    RunAcquires(Step(st, LockToAcquire(t)), t, st.current, es);
  }

  /** Only readers have had the lock since `seen` was installed. */
  ghost predicate OnlyReaders(st: State, seen: Option<nat>) {
    && Inv(st) && st.current == seen
    && (st.lock.Some? ==>
          var pc := st.At(st.lock.value); pc.AcquireLocked? || pc.AcquireSeen? || pc.AcquireCounted?)
  }

  lemma {:induction false} StepKeepsInstalled(st: State, seen: Option<nat>, e: Event)
    requires OnlyReaders(st, seen) && CanStep(st, e) && !e.LockToInit? && !e.LockToShutdown?
    ensures OnlyReaders(Step(st, e), seen)
  {
    StepKeepsInv(st, e);
    assert ThreadOk(st, e.t, st.At(e.t));
    if st.lock.Some? && e.t != st.lock.value {
      OthersWait(st, st.lock.value, e);
    }
  }

  /** What is installed stays so as long as nobody enters `ai_init` or `ai_shutdown`. */
  lemma {:induction false} InstalledStays(st: State, seen: Option<nat>, es: seq<Event>)
    requires OnlyReaders(st, seen) && IsRun(st, es) && forall e :: e in es ==> !e.LockToInit? && !e.LockToShutdown?
    ensures OnlyReaders(Run(st, es), seen)
    decreases |es|
  {
    if es != [] {
      StepKeepsInstalled(st, seen, es[0]);
      InstalledStays(Step(st, es[0]), seen, es[1..]);
    }
  }

  /**
    * So after a reload every reader that comes before the next reload or shutdown holds the new snapshot, and
    * that is not freed.
    */
  lemma {:induction false} ReadersGetTheNewOne(st: State, t: nat, m: nat, es: seq<Event>, between: seq<Event>, r: nat,
                                               reading: seq<Event>)
    requires Inv(st) && UnlockInit(t) !in es && UnlockHolding(r) !in reading
    requires forall e :: e in between ==> !e.LockToInit? && !e.LockToShutdown?
    requires IsRun(st, [Build(t, Some(m))] + es + [UnlockInit(t)]
                       + (between + ([LockToAcquire(r)] + reading + [UnlockHolding(r)])))
    ensures var end := Run(st, [Build(t, Some(m))] + es + [UnlockInit(t)]
                               + (between + ([LockToAcquire(r)] + reading + [UnlockHolding(r)])));
            end.At(r) == Holding(m) && m in end.heap && end.heap[m].freed == 0
  {
    var reload, read := [Build(t, Some(m))] + es + [UnlockInit(t)], [LockToAcquire(r)] + reading + [UnlockHolding(r)];
    SplitRun(st, reload, between + read);
    var loaded := Run(st, reload);
    MadeIsInstalled(st, t, m, es);
    RunKeepsInv(st, reload);
    SplitRun(loaded, between, read);
    InstalledStays(loaded, Some(m), between);
    var later := Run(loaded, between);
    ReaderGetsInstalled(later, r, reading);
    HeldIsAlive(later, read, r, m);
  }
}
