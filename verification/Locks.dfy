/** File and log locks: what each request acquires and releases, and why no set of requests can deadlock. */
module Locks {
  import opened Storage
  import opened AddressTranslation
  import opened Nodes

  // ----- The lock table -----

  datatype Mode = ForReading | ForWriting

  /** A `shared_mutex`. */
  datatype Mutex = Free | Shared(readers: nat) | Exclusive

  /** A key without an entry gets a free mutex on first use. */
  function MutexOf<K>(table: map<K, Mutex>, key: K): Mutex {
    if key in table then table[key] else Free
  }

  predicate Available<K>(table: map<K, Mutex>, key: K, mode: Mode) {
    match MutexOf(table, key)
    case Free => true
    case Shared(_) => mode == ForReading
    case Exclusive => false
  }

  function Taken<K>(table: map<K, Mutex>, key: K, mode: Mode): map<K, Mutex> {
    table[key := if mode == ForWriting then Exclusive
                 else match MutexOf(table, key)
                      case Shared(n) => Shared(n + 1)
                      case _ => Shared(1)]
  }

  function Dropped<K>(table: map<K, Mutex>, key: K): map<K, Mutex> {
    table[key := match MutexOf(table, key)
                 case Shared(n) => if n > 1 then Shared(n - 1) else Free
                 case _ => Free]
  }

  /** `MutexMap`. A blocked `Get` call waits and tries again: each of its attempts takes the mutex exactly when it
      is available, which is a step of the threads below. */
  class MutexMap {
    var mutices: map<string, Mutex>

    constructor ()
      ensures mutices == map[]
    {
      mutices := map[];
    }

    method Create(key: string)
      modifies this
      ensures mutices == old(mutices)[key := MutexOf(old(mutices), key)]
    {
      if key !in mutices {
        mutices := mutices[key := Free];
      }
    }

    method GetReadLock(key: string) returns (acquired: bool)
      modifies this
      ensures acquired == Available(old(mutices), key, ForReading)
      ensures acquired <==> !(key in old(mutices) && old(mutices)[key].Exclusive?)
      ensures key in mutices && (acquired ==> mutices[key] == Shared(1 + if MutexOf(old(mutices), key).Shared? then old(mutices)[key].readers else 0))
      ensures mutices == if acquired then Taken(old(mutices), key, ForReading)
                         else old(mutices)[key := MutexOf(old(mutices), key)]
    {
      Create(key);
      if mutices[key].Exclusive? {
        return false;
      }
      if mutices[key].Shared? {
        mutices := mutices[key := Shared(mutices[key].readers + 1)];
      } else {
        mutices := mutices[key := Shared(1)];
      }
      acquired := true;
    }

    method GetWriteLock(key: string) returns (acquired: bool)
      modifies this
      ensures acquired == Available(old(mutices), key, ForWriting)
      ensures acquired <==> key !in old(mutices) || old(mutices)[key] == Free
      ensures key in mutices && (acquired ==> mutices[key] == Exclusive)
      ensures mutices == if acquired then Taken(old(mutices), key, ForWriting)
                         else old(mutices)[key := MutexOf(old(mutices), key)]
    {
      Create(key);
      acquired := mutices[key].Free?;
      if acquired {
        mutices := mutices[key := Exclusive];
      }
    }

    method ReleaseReadLock(key: string)
      requires MutexOf(mutices, key).Shared?
      modifies this
      ensures mutices == Dropped(old(mutices), key)
      ensures mutices == old(mutices)[key := if old(mutices)[key].readers > 1 then Shared(old(mutices)[key].readers - 1) else Free]
    {
      var n := mutices[key].readers;
      mutices := mutices[key := if n > 1 then Shared(n - 1) else Free];
    }

    method ReleaseWriteLock(key: string)
      requires MutexOf(mutices, key) == Exclusive
      modifies this
      ensures mutices == Dropped(old(mutices), key) == old(mutices)[key := Free]
    {
      mutices := mutices[key := Free];
    }
  }

  // ----- Requests as sequences of lock operations -----

  /** Server 0 is the primary, server 1 the backup. */
  datatype Lock = FileLock(server: nat, block: nat) | LogLock(server: nat)

  datatype LockOp = Acquire(lock: Lock, mode: Mode) | Release(lock: Lock)

  type Held = map<Lock, Mode>

  function HoldAfter(held: Held, op: LockOp): Held {
    match op
    case Acquire(lock, mode) => held[lock := mode]
    case Release(lock) => held - {lock}
  }

  function Holding(held: Held, ops: seq<LockOp>): Held {
    if ops == [] then held else HoldAfter(Holding(held, ops[..|ops| - 1]), ops[|ops| - 1])
  }

  /** `writeToLog`. */
  function Logging(server: nat): seq<LockOp> {
    [Acquire(LogLock(server), ForWriting), Release(LogLock(server))]
  }

  function Block(address: nat): nat {
    address / BLOCK_SIZE
  }

  function LastBlock(address: nat): nat {
    if address % BLOCK_SIZE == 0 then Block(address) else Block(address) + 1
  }

  function WriteLock(block: nat): LockOp {
    Acquire(FileLock(0, block), ForWriting)
  }

  /** The loop of `Write` over `k` extents: assigning the second lock takes it and only then drops the first. */
  function StagingLocks(address: nat, k: nat): seq<LockOp> {
    var n := Block(address);
    if k == 0 then []
    else if k == 1 then [WriteLock(n)]
    else [WriteLock(n), WriteLock(n + 1), Release(FileLock(0, n))]
  }

  /** How a write ends: with so many extents staged, with these outcomes of its calls, and with the backup's
      handlers having reached their log or not. */
  datatype Ending = Ending(staged: nat, prepare: Status, commit: Status, preparedLog: bool, committedLog: bool)

  function AfterStaging(e: Ending): seq<LockOp> {
    Logging(0)
    + (if e.preparedLog then Logging(1) else [])
    + match e.prepare
      case OK =>
        Logging(0) + (if e.committedLog then Logging(1) else []) + if e.commit == OTHER then [] else Logging(0)
      case _ => Logging(0)
  }

  /** Every return path of `Write`; an address without extents takes the log lock and throws. */
  function WriteLocks(address: int, e: Ending): seq<LockOp> {
    if !IsValidAddress(address) then Logging(0)
    else
      var m := |Extents(address)|;
      if e.staged < m then StagingLocks(address, e.staged + 1) + [Release(FileLock(0, Block(address) + e.staged))]
      else StagingLocks(address, m) + AfterStaging(e) + [Release(FileLock(0, LastBlock(address)))]
  }

  function ReadPair(server: nat, block: nat): seq<LockOp> {
    [Acquire(FileLock(server, block), ForReading), Release(FileLock(server, block))]
  }

  /** `Read` on either server, stopping at a missing file. */
  function ReadLocks(server: nat, address: int, openedFiles: nat): seq<LockOp> {
    if !IsValidAddress(address) || openedFiles == 0 then []
    else if openedFiles == 1 || |Extents(address)| == 1 then ReadPair(server, Block(address))
    else ReadPair(server, Block(address)) + ReadPair(server, Block(address) + 1)
  }

  // ----- Discipline -----

  /** An address leads to block `BLOCKS` at most. A file lock is asked for with at most the lock of the next lower
      block in hand, a log lock with file locks only; only what is held is released. */
  ghost predicate Disciplined(held: Held, op: LockOp) {
    match op
    case Acquire(FileLock(server, block), _) =>
      block <= BLOCKS && forall l :: l in held ==> l.FileLock? && l.server == server && l.block + 1 == block
    case Acquire(LogLock(_), _) => forall l :: l in held ==> l.FileLock? && l.block <= BLOCKS
    case Release(lock) => lock in held
  }

  ghost predicate AllDisciplined(held: Held, ops: seq<LockOp>) {
    forall k :: 0 <= k < |ops| ==> Disciplined(Holding(held, ops[..k]), ops[k])
  }

  lemma {:induction false} HoldingConcat(held: Held, a: seq<LockOp>, b: seq<LockOp>)
    ensures Holding(held, a + b) == Holding(Holding(held, a), b)
  {
    if b == [] {
      assert a + b == a;
    } else {
      assert (a + b)[..|a + b| - 1] == a + b[..|b| - 1];
      HoldingConcat(held, a, b[..|b| - 1]);
    }
  }

  lemma {:induction false} DisciplinedConcat(held: Held, a: seq<LockOp>, b: seq<LockOp>)
    requires AllDisciplined(held, a) && AllDisciplined(Holding(held, a), b)
    ensures AllDisciplined(held, a + b) && Holding(held, a + b) == Holding(Holding(held, a), b)
  {
    hide Disciplined, Holding;
    HoldingConcat(held, a, b);
    forall k | 0 <= k < |a + b|
      ensures Disciplined(Holding(held, (a + b)[..k]), (a + b)[k])
    {
      if k < |a| {
        assert (a + b)[..k] == a[..k];
      } else {
        assert (a + b)[..k] == a + b[..k - |a|];
        HoldingConcat(held, a, b[..k - |a|]);
      }
    }
  }

  lemma {:induction false} OneOp(held: Held, op: LockOp)
    requires Disciplined(held, op)
    ensures AllDisciplined(held, [op]) && Holding(held, [op]) == HoldAfter(held, op)
  {
  }

  lemma {:induction false} NoOps(held: Held)
    ensures AllDisciplined(held, []) && Holding(held, []) == held
  {
  }

  lemma {:induction false} TwoOps(held: Held, a: LockOp, b: LockOp)
    requires Disciplined(held, a) && Disciplined(HoldAfter(held, a), b)
    ensures AllDisciplined(held, [a, b]) && Holding(held, [a, b]) == HoldAfter(HoldAfter(held, a), b)
  {
  }

  ghost predicate OnlyFileLocks(held: Held) {
    forall l :: l in held ==> l.FileLock? && l.block <= BLOCKS
  }

  lemma {:induction false} LoggingIsNeutral(held: Held, server: nat)
    requires OnlyFileLocks(held)
    ensures AllDisciplined(held, Logging(server)) && Holding(held, Logging(server)) == held
  {
  }

  lemma {:induction false} Then(held: Held, a: seq<LockOp>, b: seq<LockOp>)
    requires AllDisciplined(held, a) && Holding(held, a) == held
    requires AllDisciplined(held, b) && Holding(held, b) == held
    ensures AllDisciplined(held, a + b) && Holding(held, a + b) == held
  {
    hide Disciplined, Holding, AllDisciplined;
    DisciplinedConcat(held, a, b);
  }

  /** Between staging and unlocking only log locks are taken, and they are given back. */
  lemma {:induction false} AfterStagingIsNeutral(held: Held, e: Ending)
    requires OnlyFileLocks(held)
    ensures AllDisciplined(held, AfterStaging(e)) && Holding(held, AfterStaging(e)) == held
  {
    LoggingIsNeutral(held, 0);
    LoggingIsNeutral(held, 1);
    NoOps(held);
    hide Disciplined, Holding, AllDisciplined, Logging, OnlyFileLocks;
    var p := if e.preparedLog then Logging(1) else [];
    var c := if e.committedLog then Logging(1) else [];
    var l := if e.commit == OTHER then [] else Logging(0);
    Then(held, Logging(0), p);
    Then(held, Logging(0), c);
    Then(held, Logging(0) + c, l);
    Then(held, Logging(0) + p, if e.prepare == OK then Logging(0) + c + l else Logging(0));
  }

  lemma {:induction false} StagingIsDisciplined(address: int, k: nat)
    requires IsValidAddress(address) && 1 <= k <= |Extents(address)|
    ensures AllDisciplined(map[], StagingLocks(address, k))
    ensures Holding(map[], StagingLocks(address, k)) == map[FileLock(0, Block(address) + k - 1) := ForWriting]
  {
    var n := Block(address);
    OneOp(map[], WriteLock(n));
    if k > 1 {
      TwoOps(map[], WriteLock(n), WriteLock(n + 1));
      var held: Held := map[FileLock(0, n) := ForWriting, FileLock(0, n + 1) := ForWriting];
      OneOp(held, Release(FileLock(0, n)));
      DisciplinedConcat(map[], [WriteLock(n), WriteLock(n + 1)], [Release(FileLock(0, n))]);
      assert [WriteLock(n), WriteLock(n + 1)] + [Release(FileLock(0, n))] == StagingLocks(address, k);
    }
  }

  /** Every return path of `Write` keeps the discipline, and leaves no lock held. */
  lemma {:induction false} WriteReleasesAll(address: int, e: Ending)
    ensures AllDisciplined(map[], WriteLocks(address, e)) && Holding(map[], WriteLocks(address, e)) == map[]
  {
    hide *;
    WriteLocksAre(address, e);
    if !IsValidAddress(address) {
      EmptyIsFileLocks();
      LoggingIsNeutral(map[], 0);
    } else if e.staged < |Extents(address)| {
      StagedThenReleased(address, e.staged + 1, []);
    } else {
      var m := |Extents(address)|;
      AfterStagingIsNeutral(map[FileLock(0, Block(address) + m - 1) := ForWriting], e);
      StagedThenReleased(address, m, AfterStaging(e));
    }
  }

  lemma {:induction false} EmptyIsFileLocks()
    ensures OnlyFileLocks(map[])
  {
  }

  lemma {:induction false} WriteLocksAre(address: int, e: Ending)
    ensures var m := |Extents(address)|;
            if !IsValidAddress(address) then WriteLocks(address, e) == Logging(0)
            else
              && address >= 0 && 1 <= m <= 2 && OnlyFileLocks(map[FileLock(0, Block(address) + m - 1) := ForWriting])
              && WriteLocks(address, e)
                 == if e.staged < m then StagingLocks(address, e.staged + 1) + [] + [Release(FileLock(0, Block(address) + e.staged))]
                    else StagingLocks(address, m) + AfterStaging(e) + [Release(FileLock(0, Block(address) + m - 1))]
  {
    hide StagingLocks, AfterStaging, BlockPath;
    assert IsValidAddress(address) ==> StagingLocks(address, e.staged + 1) + [] == StagingLocks(address, e.staged + 1);
  }

  lemma {:induction false} StagedThenReleased(address: int, k: nat, middle: seq<LockOp>)
    requires IsValidAddress(address) && 1 <= k <= |Extents(address)|
    requires var held: Held := map[FileLock(0, Block(address) + k - 1) := ForWriting];
             middle == [] || (AllDisciplined(held, middle) && Holding(held, middle) == held)
    ensures var ops := StagingLocks(address, k) + middle + [Release(FileLock(0, Block(address) + k - 1))];
            AllDisciplined(map[], ops) && Holding(map[], ops) == map[]
  {
    var last := FileLock(0, Block(address) + k - 1);
    var held: Held := map[last := ForWriting];
    StagingIsDisciplined(address, k);
    NoOps(held);
    OneOp(held, Release(last));
    assert held - {last} == map[];
    hide Disciplined, Holding, AllDisciplined, Extents, StagingLocks;
    DisciplinedConcat(map[], StagingLocks(address, k), middle);
    DisciplinedConcat(map[], StagingLocks(address, k) + middle, [Release(last)]);
  }

  lemma {:induction false} ReadReleasesAll(server: nat, address: int, openedFiles: nat)
    ensures AllDisciplined(map[], ReadLocks(server, address, openedFiles))
    ensures Holding(map[], ReadLocks(server, address, openedFiles)) == map[]
  {
    NoOps(map[]);
    if IsValidAddress(address) {
      ReadPairIsNeutral(server, Block(address));
      ReadPairIsNeutral(server, Block(address) + 1);
      hide Disciplined, Holding, AllDisciplined, ReadPair, Extents;
      Then(map[], ReadPair(server, Block(address)), ReadPair(server, Block(address) + 1));
    }
  }

  lemma {:induction false} ReadPairIsNeutral(server: nat, block: nat)
    requires block <= BLOCKS
    ensures AllDisciplined(map[], ReadPair(server, block)) && Holding(map[], ReadPair(server, block)) == map[]
  {
  }

  // ----- Exclusion until the end of a write -----

  ghost predicate OnLogLocks(ops: seq<LockOp>) {
    forall k :: 0 <= k < |ops| ==> ops[k].lock.LogLock?
  }

  /** Log locks come and go without touching the file locks in hand. */
  lemma {:induction false} FileLocksStay(held: Held, ops: seq<LockOp>, l: Lock)
    requires OnLogLocks(ops) && l.FileLock?
    ensures (l in Holding(held, ops) <==> l in held) && (l in held ==> Holding(held, ops)[l] == held[l])
  {
    if ops != [] {
      FileLocksStay(held, ops[..|ops| - 1], l);
    }
  }

  lemma {:induction false} AfterStagingLogsOnly(e: Ending)
    ensures OnLogLocks(AfterStaging(e))
  {
  }

  /** The points of a write from the end of its staging loop to just before its last release: `Prepare`, the
      renames and `Commit` lie between them. */
  predicate Completing(address: int, e: Ending, k: nat) {
    IsValidAddress(address) && e.staged >= |Extents(address)|
    && |StagingLocks(address, |Extents(address)|)| <= k < |WriteLocks(address, e)|
  }

  function HeldAt(address: int, e: Ending, k: nat): Held
    requires k <= |WriteLocks(address, e)|
  {
    Holding(map[], WriteLocks(address, e)[..k])
  }

  predicate HoldsBlock(held: Held, block: nat) {
    FileLock(0, block) in held && held[FileLock(0, block)] == ForWriting
  }

  lemma {:induction false} CompletingOps(address: int, e: Ending, k: nat)
    requires Completing(address, e, k)
    ensures var m := |Extents(address)|;
            var staging := StagingLocks(address, m);
            && 1 <= m <= 2 && LastBlock(address) == Block(address) + m - 1
            && k - |staging| <= |AfterStaging(e)|
            && WriteLocks(address, e)[..k] == staging + AfterStaging(e)[..k - |staging|]
  {
    hide StagingLocks, AfterStaging, BlockPath;
  }

  /** At each of these points the write holds the lock of its last block and of no other. */
  lemma {:induction false} HeldWhileCompleting(address: int, e: Ending, k: nat, block: nat)
    requires Completing(address, e, k)
    ensures HoldsBlock(HeldAt(address, e, k), LastBlock(address))
    ensures FileLock(0, block) in HeldAt(address, e, k) <==> block == LastBlock(address)
  {
    var m := |Extents(address)|;
    CompletingOps(address, e, k);
    StagingIsDisciplined(address, m);
    AfterStagingLogsOnly(e);
    hide Extents, StagingLocks, AfterStaging, Holding, WriteLocks, AllDisciplined;
    var staging := StagingLocks(address, m);
    var rest := AfterStaging(e)[..k - |staging|];
    HoldingConcat(map[], staging, rest);
    FileLocksStay(Holding(map[], staging), rest, FileLock(0, block));
    FileLocksStay(Holding(map[], staging), rest, FileLock(0, LastBlock(address)));
  }

  /** So at each of them a write excludes others from every block it writes exactly when its address is aligned. */
  lemma {:induction false} ExclusionExactly(address: int, e: Ending, k: nat)
    requires Completing(address, e, k)
    ensures (forall block :: Block(address) <= block <= LastBlock(address) ==> HoldsBlock(HeldAt(address, e, k), block))
            <==> address % BLOCK_SIZE == 0
  {
    hide HeldAt, StagingLocks, WriteLocks;
    HeldWhileCompleting(address, e, k, Block(address));
    if address % BLOCK_SIZE != 0 {
      assert !HoldsBlock(HeldAt(address, e, k), Block(address));
    }
  }

  /** There are such points in every write that stages all its extents, the renames among them. */
  lemma {:induction false} CompletingSpans(address: int, e: Ending)
    requires IsValidAddress(address) && e.staged >= |Extents(address)|
    ensures var n := |StagingLocks(address, |Extents(address)|)|;
            forall k: nat :: n <= k <= n + |AfterStaging(e)| <==> Completing(address, e, k)
    ensures |AfterStaging(e)| >= 4
  {
    hide StagingLocks, BlockPath;
  }

  // ----- Any number of threads -----

  datatype Thread = Thread(ops: seq<LockOp>, pc: nat)

  /** The lock tables of both servers, and the requests in progress. */
  datatype World = World(table: map<Lock, Mutex>, threads: seq<Thread>)

  function HeldBy(t: Thread): Held {
    Holding(map[], t.ops[..Min(t.pc, |t.ops|)])
  }

  predicate Done(t: Thread) {
    t.pc >= |t.ops|
  }

  predicate CanStep(s: World, i: nat) {
    && i < |s.threads| && !Done(s.threads[i])
    && var op := s.threads[i].ops[s.threads[i].pc];
       (op.Acquire? ==> Available(s.table, op.lock, op.mode))
  }

  function StepThread(s: World, i: nat): World {
    if !CanStep(s, i) then s
    else
      var t := s.threads[i];
      var op := t.ops[t.pc];
      World(match op
            case Acquire(lock, mode) => Taken(s.table, lock, mode)
            case Release(lock) => Dropped(s.table, lock),
            s.threads[i := t.(pc := t.pc + 1)])
  }

  function RunThreads(s: World, schedule: seq<nat>): World {
    if schedule == [] then s else StepThread(RunThreads(s, schedule[..|schedule| - 1]), schedule[|schedule| - 1])
  }

  // ----- The table counts the holders -----

  predicate Holds(t: Thread, l: Lock, mode: Mode) {
    l in HeldBy(t) && HeldBy(t)[l] == mode
  }

  function Count(ts: seq<Thread>, l: Lock, mode: Mode): nat {
    if ts == [] then 0
    else Count(ts[..|ts| - 1], l, mode) + if Holds(ts[|ts| - 1], l, mode) then 1 else 0
  }

  lemma {:induction false} CountUpdate(ts: seq<Thread>, i: nat, t: Thread, l: Lock, mode: Mode)
    requires i < |ts|
    ensures Count(ts[i := t], l, mode) + (if Holds(ts[i], l, mode) then 1 else 0)
            == Count(ts, l, mode) + if Holds(t, l, mode) then 1 else 0
  {
    hide Holds;
    var init := ts[..|ts| - 1];
    if i == |ts| - 1 {
      assert ts[i := t][..|ts| - 1] == init;
    } else {
      assert ts[i := t][..|ts| - 1] == init[i := t];
      CountUpdate(init, i, t, l, mode);
    }
  }

  lemma {:induction false} CountHolder(ts: seq<Thread>, l: Lock, mode: Mode)
    ensures Count(ts, l, mode) > 0 <==> exists i :: 0 <= i < |ts| && Holds(ts[i], l, mode)
  {
    hide Holds;
    if ts != [] {
      CountHolder(ts[..|ts| - 1], l, mode);
      if i :| 0 <= i < |ts| && Holds(ts[i], l, mode) {
        assert i < |ts| - 1 ==> ts[..|ts| - 1][i] == ts[i];
      }
    }
  }

  lemma {:induction false} CountTwo(ts: seq<Thread>, l: Lock, mode: Mode, i: nat, j: nat)
    requires i < j < |ts| && Holds(ts[i], l, mode) && Holds(ts[j], l, mode)
    ensures Count(ts, l, mode) >= 2
  {
    hide Holds;
    var init := ts[..|ts| - 1];
    if j == |ts| - 1 {
      assert init[i] == ts[i];
      CountHolder(init, l, mode);
    } else {
      assert init[i] == ts[i] && init[j] == ts[j];
      CountTwo(init, l, mode, i, j);
    }
  }

  ghost predicate TableCounts(s: World, l: Lock) {
    var shared, exclusive := Count(s.threads, l, ForReading), Count(s.threads, l, ForWriting);
    match MutexOf(s.table, l)
    case Free => shared == 0 && exclusive == 0
    case Shared(n) => n > 0 && shared == n && exclusive == 0
    case Exclusive => shared == 0 && exclusive == 1
  }

  ghost predicate Request(t: Thread) {
    t.pc <= |t.ops| && AllDisciplined(map[], t.ops) && Holding(map[], t.ops) == map[]
  }

  ghost predicate WorldInv(s: World) {
    && (forall i :: 0 <= i < |s.threads| ==> Request(s.threads[i]))
    && (forall l :: TableCounts(s, l))
  }

  lemma {:induction false} HeldAfterStep(t: Thread)
    requires !Done(t)
    ensures HeldBy(t.(pc := t.pc + 1)) == HoldAfter(HeldBy(t), t.ops[t.pc])
  {
    assert t.ops[..t.pc + 1][..t.pc] == t.ops[..t.pc];
  }

  lemma {:induction false} NextIsDisciplined(t: Thread)
    requires Request(t) && !Done(t)
    ensures Disciplined(HeldBy(t), t.ops[t.pc])
  {
  }

  lemma {:induction false} NotHeldTwice(held: Held, op: LockOp)
    requires Disciplined(held, op)
    ensures op.Acquire? ==> op.lock !in held
    ensures op.Release? ==> op.lock in held
  {
  }

  lemma {:induction false} StepCounts(s: World, i: nat, l: Lock)
    requires CanStep(s, i) && Request(s.threads[i]) && TableCounts(s, l)
    ensures TableCounts(StepThread(s, i), l)
  {
    var t := s.threads[i];
    var t', op := t.(pc := t.pc + 1), t.ops[t.pc];
    HoldsAfterStep(t, l, ForReading);
    HoldsAfterStep(t, l, ForWriting);
    CountUpdate(s.threads, i, t', l, ForReading);
    CountUpdate(s.threads, i, t', l, ForWriting);
    hide Holds, Count, Request;
    assert StepThread(s, i).threads == s.threads[i := t'];
  }

  lemma {:induction false} HoldsAfterStep(t: Thread, l: Lock, mode: Mode)
    requires Request(t) && !Done(t)
    ensures var op := t.ops[t.pc];
            && (Holds(t.(pc := t.pc + 1), l, mode)
                <==> if l != op.lock then Holds(t, l, mode) else op.Acquire? && op.mode == mode)
            && (l == op.lock && op.Acquire? ==> !Holds(t, l, mode))
            && (l == op.lock && op.Release? ==> Holds(t, l, ForReading) || Holds(t, l, ForWriting))
            && !(Holds(t, l, ForReading) && Holds(t, l, ForWriting))
  {
    HeldAfterStep(t);
    NextIsDisciplined(t);
    NotHeldTwice(HeldBy(t), t.ops[t.pc]);
    hide HeldBy, Disciplined, Request;
  }

  lemma {:induction false} StepKeepsWorld(s: World, i: nat)
    requires WorldInv(s)
    ensures WorldInv(StepThread(s, i))
  {
    if CanStep(s, i) {
      var s' := StepThread(s, i);
      forall j | 0 <= j < |s'.threads|
        ensures Request(s'.threads[j])
      {
        assert Request(s.threads[j]);
      }
      hide TableCounts, Request;
      forall l
        ensures TableCounts(s', l)
      {
        assert Request(s.threads[i]);
        StepCounts(s, i, l);
      }
    }
  }

  lemma {:induction false} RunKeepsWorld(s: World, schedule: seq<nat>)
    requires WorldInv(s)
    ensures WorldInv(RunThreads(s, schedule))
  {
    hide WorldInv, StepThread;
    if schedule != [] {
      RunKeepsWorld(s, schedule[..|schedule| - 1]);
      StepKeepsWorld(RunThreads(s, schedule[..|schedule| - 1]), schedule[|schedule| - 1]);
    }
  }

  // ----- No deadlock -----

  function Rank(l: Lock): nat {
    match l
    case FileLock(_, block) => block
    case LogLock(_) => BLOCKS + 1
  }

  /** Thread `i` waits for a lock that thread `j` holds in a mode that excludes it. */
  predicate WaitsFor(s: World, i: nat, j: nat) {
    && i < |s.threads| && j < |s.threads| && !Done(s.threads[i]) && !CanStep(s, i)
    && var op := s.threads[i].ops[s.threads[i].pc];
       op.Acquire? && op.lock in HeldBy(s.threads[j]) && (op.mode == ForWriting || HeldBy(s.threads[j])[op.lock] == ForWriting)
  }

  function Wanted(t: Thread): Lock
    requires !Done(t)
  {
    t.ops[t.pc].lock
  }

  lemma {:induction false} DoneHoldsNothing(t: Thread)
    requires Request(t) && Done(t)
    ensures HeldBy(t) == map[]
  {
    assert t.ops[..|t.ops|] == t.ops;
  }

  lemma {:induction false} RankGrows(held: Held, op: LockOp, l: Lock)
    requires Disciplined(held, op) && op.Acquire? && l in held
    ensures Rank(l) < Rank(op.lock) <= BLOCKS + 1
  {
  }

  /** Along the wait-for graph the locks that are wanted go up. */
  lemma {:induction false} WaitingGoesUp(s: World, i: nat, j: nat, k: nat)
    requires WorldInv(s) && WaitsFor(s, i, j) && WaitsFor(s, j, k)
    ensures Rank(Wanted(s.threads[i])) < Rank(Wanted(s.threads[j]))
  {
    hide Disciplined, Holding, HeldBy, TableCounts;
    NextIsDisciplined(s.threads[j]);
    RankGrows(HeldBy(s.threads[j]), s.threads[j].ops[s.threads[j].pc], Wanted(s.threads[i]));
  }

  function Following(chain: seq<nat>, k: nat): nat
    requires k < |chain|
  {
    if k + 1 < |chain| then chain[k + 1] else chain[0]
  }

  ghost predicate Cycle(s: World, chain: seq<nat>) {
    chain != [] && forall k :: 0 <= k < |chain| ==> WaitsFor(s, chain[k], Following(chain, k))
  }

  lemma {:induction false} RanksAlong(s: World, chain: seq<nat>, k: nat)
    requires WorldInv(s) && Cycle(s, chain) && k < |chain|
    ensures WaitsFor(s, chain[0], Following(chain, 0)) && WaitsFor(s, chain[k], Following(chain, k))
    ensures Rank(Wanted(s.threads[chain[0]])) + k <= Rank(Wanted(s.threads[chain[k]]))
  {
    hide WorldInv, Rank, Wanted, CanStep, HeldBy, Done, WaitsFor;
    assert WaitsFor(s, chain[k], Following(chain, k));
    assert WaitsFor(s, chain[0], Following(chain, 0));
    if k > 0 {
      assert Following(chain, k - 1) == chain[k];
      RanksAlong(s, chain, k - 1);
      WaitingGoesUp(s, chain[k - 1], chain[k], Following(chain, k));
    }
  }

  /** So the wait-for graph has no cycle, of any length. */
  lemma {:induction false} NoCycle(s: World, chain: seq<nat>)
    requires WorldInv(s)
    ensures !Cycle(s, chain)
  {
    hide WorldInv, Rank, Wanted, CanStep, HeldBy, Done, WaitsFor;
    if Cycle(s, chain) {
      var last := |chain| - 1;
      RanksAlong(s, chain, last);
      WaitingGoesUp(s, chain[last], chain[0], Following(chain, 0));
      assert false;
    }
  }

  /** A lock that is not available is held by somebody, in a mode that excludes. */
  lemma {:induction false} BlockedByHolder(s: World, i: nat) returns (j: nat)
    requires WorldInv(s) && i < |s.threads| && !Done(s.threads[i]) && !CanStep(s, i)
    ensures WaitsFor(s, i, j)
  {
    var op := s.threads[i].ops[s.threads[i].pc];
    var l := op.lock;
    assert TableCounts(s, l);
    CountHolder(s.threads, l, ForReading);
    CountHolder(s.threads, l, ForWriting);
    hide WorldInv, HeldBy, Count;
    if MutexOf(s.table, l) == Exclusive {
      j :| 0 <= j < |s.threads| && Holds(s.threads[j], l, ForWriting);
    } else {
      j :| 0 <= j < |s.threads| && Holds(s.threads[j], l, ForReading);
    }
  }

  /** Whoever is not done can step, or waits, at the end of a chain, for somebody who can. */
  lemma {:induction false} SomebodyCanStep(s: World, i: nat) returns (j: nat)
    requires WorldInv(s) && i < |s.threads| && !Done(s.threads[i])
    ensures CanStep(s, j)
    decreases BLOCKS + 1 - Rank(Wanted(s.threads[i]))
  {
    if CanStep(s, i) {
      j := i;
    } else {
      var k := BlockedByHolder(s, i);
      HolderIsBusy(s, i, k);
      if CanStep(s, k) {
        j := k;
      } else {
        var next := BlockedByHolder(s, k);
        WaitingGoesUp(s, i, k, next);
        WantedIsBounded(s, k);
        j := SomebodyCanStep(s, k);
      }
    }
  }

  lemma {:induction false} HolderIsBusy(s: World, i: nat, k: nat)
    requires WorldInv(s) && WaitsFor(s, i, k)
    ensures !Done(s.threads[k])
  {
    hide TableCounts, AllDisciplined;
    assert Request(s.threads[k]);
    if Done(s.threads[k]) {
      DoneHoldsNothing(s.threads[k]);
      assert false;
    }
  }

  lemma {:induction false} WantedIsBounded(s: World, k: nat)
    requires WorldInv(s) && k < |s.threads| && !Done(s.threads[k]) && s.threads[k].ops[s.threads[k].pc].Acquire?
    ensures Rank(Wanted(s.threads[k])) <= BLOCKS + 1
  {
  }

  // ----- The requests of the two servers -----

  datatype Call = WriteCall(address: int, ending: Ending) | ReadCall(server: nat, address: int, openedFiles: nat)

  function LockOps(c: Call): seq<LockOp> {
    match c
    case WriteCall(address, ending) => WriteLocks(address, ending)
    case ReadCall(server, address, openedFiles) => ReadLocks(server, address, openedFiles)
  }

  function Begun(calls: seq<Call>): World {
    World(map[], seq(|calls|, i requires 0 <= i < |calls| => Thread(LockOps(calls[i]), 0)))
  }

  lemma {:induction false} BegunIsRequest(c: Call)
    ensures Request(Thread(LockOps(c), 0))
  {
    match c
    case WriteCall(address, ending) => WriteReleasesAll(address, ending);
    case ReadCall(server, address, openedFiles) => ReadReleasesAll(server, address, openedFiles);
  }

  lemma {:induction false} NothingHeldAtFirst(ts: seq<Thread>, l: Lock, mode: Mode)
    requires forall i :: 0 <= i < |ts| ==> ts[i].pc == 0
    ensures Count(ts, l, mode) == 0
  {
    if ts != [] {
      NothingHeldAtFirst(ts[..|ts| - 1], l, mode);
      assert ts[|ts| - 1].ops[..0] == [];
      assert HeldBy(ts[|ts| - 1]) == map[];
    }
  }

  lemma {:induction false} BegunInv(calls: seq<Call>)
    ensures WorldInv(Begun(calls))
  {
    var s := Begun(calls);
    forall i | 0 <= i < |s.threads|
      ensures Request(s.threads[i])
    {
      BegunIsRequest(calls[i]);
    }
    forall l
      ensures TableCounts(s, l)
    {
      NothingHeldAtFirst(s.threads, l, ForReading);
      NothingHeldAtFirst(s.threads, l, ForWriting);
    }
  }

  /** Any number of reads and writes, at any addresses, with any outcomes, under any schedule: as long as one
      is not done, one can go on. */
  lemma {:induction false} NeverStuck(calls: seq<Call>, schedule: seq<nat>, i: nat) returns (j: nat)
    requires i < |RunThreads(Begun(calls), schedule).threads| && !Done(RunThreads(Begun(calls), schedule).threads[i])
    ensures CanStep(RunThreads(Begun(calls), schedule), j)
  {
    BegunInv(calls);
    RunKeepsWorld(Begun(calls), schedule);
    hide RunThreads, Begun, WorldInv, CanStep;
    j := SomebodyCanStep(RunThreads(Begun(calls), schedule), i);
  }

  /** No schedule leads to a cycle of requests that wait for each other. */
  lemma {:induction false} NoDeadlock(calls: seq<Call>, schedule: seq<nat>, chain: seq<nat>)
    ensures !Cycle(RunThreads(Begun(calls), schedule), chain)
  {
    BegunInv(calls);
    RunKeepsWorld(Begun(calls), schedule);
    hide RunThreads, Begun, WorldInv, Cycle;
    NoCycle(RunThreads(Begun(calls), schedule), chain);
  }

  /** Once all are done, every lock is free. */
  lemma {:induction false} AllReleasedAtTheEnd(calls: seq<Call>, schedule: seq<nat>, l: Lock)
    requires var t := RunThreads(Begun(calls), schedule); forall i :: 0 <= i < |t.threads| ==> Done(t.threads[i])
    ensures MutexOf(RunThreads(Begun(calls), schedule).table, l) == Free
  {
    BegunInv(calls);
    RunKeepsWorld(Begun(calls), schedule);
    var t := RunThreads(Begun(calls), schedule);
    hide RunThreads, Begun, AllDisciplined;
    assert TableCounts(t, l);
    CountHolder(t.threads, l, ForReading);
    CountHolder(t.threads, l, ForWriting);
    forall i | 0 <= i < |t.threads|
      ensures HeldBy(t.threads[i]) == map[]
    {
      assert Request(t.threads[i]);
      DoneHoldsNothing(t.threads[i]);
    }
    hide HeldBy, Count;
  }

  /** No two requests hold a lock at the same time unless both read. */
  lemma {:induction false} LocksExclude(calls: seq<Call>, schedule: seq<nat>, l: Lock, i: nat, j: nat)
    requires var t := RunThreads(Begun(calls), schedule);
             i < j < |t.threads| && l in HeldBy(t.threads[i]) && l in HeldBy(t.threads[j])
    ensures var t := RunThreads(Begun(calls), schedule);
            HeldBy(t.threads[i])[l] == ForReading && HeldBy(t.threads[j])[l] == ForReading
  {
    BegunInv(calls);
    RunKeepsWorld(Begun(calls), schedule);
    var t := RunThreads(Begun(calls), schedule);
    hide RunThreads, Begun, AllDisciplined, Request;
    assert TableCounts(t, l);
    var a, b := HeldBy(t.threads[i])[l], HeldBy(t.threads[j])[l];
    CountHolder(t.threads, l, ForReading);
    CountHolder(t.threads, l, ForWriting);
    assert Holds(t.threads[i], l, a) && Holds(t.threads[j], l, b);
    if a == ForWriting && b == ForWriting {
      CountTwo(t.threads, l, ForWriting, i, j);
    }
    hide HeldBy, Count;
  }

  // ----- Runs end -----

  function Remaining(ts: seq<Thread>): nat {
    if ts == [] then 0
    else Remaining(ts[..|ts| - 1]) + (|ts[|ts| - 1].ops| - Min(ts[|ts| - 1].pc, |ts[|ts| - 1].ops|))
  }

  lemma {:induction false} RemainingUpdate(ts: seq<Thread>, i: nat, t: Thread)
    requires i < |ts|
    ensures Remaining(ts[i := t]) + (|ts[i].ops| - Min(ts[i].pc, |ts[i].ops|))
            == Remaining(ts) + (|t.ops| - Min(t.pc, |t.ops|))
  {
    var init := ts[..|ts| - 1];
    if i == |ts| - 1 {
      assert ts[i := t][..|ts| - 1] == init;
    } else {
      assert ts[i := t][..|ts| - 1] == init[i := t];
      RemainingUpdate(init, i, t);
    }
  }

  /** Every step that is taken brings the end of all requests one step nearer. */
  lemma {:induction false} StepsAreProgress(s: World, i: nat)
    requires CanStep(s, i)
    ensures Remaining(StepThread(s, i).threads) + 1 == Remaining(s.threads)
  {
    var t := s.threads[i];
    RemainingUpdate(s.threads, i, t.(pc := t.pc + 1));
  }
}
