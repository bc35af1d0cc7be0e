/** What the locks are held for: each read block, each staged extent and each log record, and what that excludes. */
module LockUse {
  import opened Storage
  import opened AddressTranslation
  import opened Nodes
  import opened Effects
  import opened WriteAheadLog
  import opened WriteAheadAgreement
  import opened BlockServer
  import opened Locks

  // ----- Reads -----

  lemma {:induction false} HoldingOne(held: Held, a: LockOp)
    ensures Holding(held, [a]) == HoldAfter(held, a)
  {
    assert [a][..0] == [];
  }

  lemma {:induction false} HoldingMore(held: Held, ops: seq<LockOp>, a: LockOp)
    ensures Holding(held, ops + [a]) == HoldAfter(Holding(held, ops), a)
  {
    assert (ops + [a])[..|ops|] == ops;
  }

  lemma {:induction false} HeldAlongPair(held: Held, server: nat, block: nat, k: nat)
    requires FileLock(server, block) !in held && k <= |ReadPair(server, block)|
    ensures |ReadPair(server, block)| == 2
    ensures Holding(held, ReadPair(server, block)[..k]) == if k == 1 then held[FileLock(server, block) := ForReading] else held
  {
    var l := FileLock(server, block);
    var ops := ReadPair(server, block);
    assert ops == [Acquire(l, ForReading)] + [Release(l)];
    HoldingOne(held, Acquire(l, ForReading));
    HoldingMore(held, [Acquire(l, ForReading)], Release(l));
    NoOps(held);
    assert ops[..1] == [Acquire(l, ForReading)] && ops[..0] == [] && ops[..2] == ops;
    assert held[l := ForReading] - {l} == held;
  }

  /** The file locks of a read at each of its points: one block's at the odd ones, none at the others. */
  lemma {:induction false} HeldByRead(server: nat, address: int, openedFiles: nat, k: nat)
    requires IsValidAddress(address) && k <= |ReadLocks(server, address, openedFiles)|
    ensures |ReadLocks(server, address, openedFiles)| == 2 * Min(openedFiles, |Extents(address)|)
    ensures Holding(map[], ReadLocks(server, address, openedFiles)[..k])
            == if k % 2 == 1 then map[FileLock(server, address / BLOCK_SIZE + k / 2) := ForReading] else map[]
  {
    var ops, a := ReadLocks(server, address, openedFiles), ReadPair(server, Block(address));
    var b := ReadPair(server, Block(address) + 1);
    assert 1 <= |Extents(address)| <= 2;
    hide Extents, Holding;
    if k <= 2 {
      if ops != [] {
        assert ops[..k] == a[..k];
        HeldAlongPair(map[], server, Block(address), k);
      } else {
        NoOps(map[]);
        assert ops[..k] == [];
      }
    } else {
      assert ops[..k] == a + b[..k - 2];
      assert a[..2] == a;
      HoldingConcat(map[], a, b[..k - 2]);
      HeldAlongPair(map[], server, Block(address), 2);
      HeldAlongPair(map[], server, Block(address) + 1, k - 2);
    }
  }

  /** For each extent that a read opens there is exactly one point at which it holds the lock of that block, for reading,
      and then it holds no other. */
  lemma {:induction false} ReadHoldsOnce(server: nat, address: int, openedFiles: nat, i: nat, k: nat)
    requires IsValidAddress(address) && i < openedFiles && i < |Extents(address)|
    requires k <= |ReadLocks(server, address, openedFiles)|
    ensures 2 * i + 1 <= |ReadLocks(server, address, openedFiles)|
    ensures var l, held := FileLock(server, address / BLOCK_SIZE + i), Holding(map[], ReadLocks(server, address, openedFiles)[..k]);
            && (l in held <==> k == 2 * i + 1)
            && (l in held ==> held == map[l := ForReading])
  {
    hide ReadLocks, Extents, Holding;
    HeldByRead(server, address, openedFiles, k);
  }

  // ----- Writes -----

  ghost predicate ModesOfWrite(ops: seq<LockOp>) {
    forall k :: 0 <= k < |ops| && ops[k].Acquire? ==> ops[k].mode == ForWriting
  }

  lemma {:induction false} ModesConcat(a: seq<LockOp>, b: seq<LockOp>)
    requires ModesOfWrite(a) && ModesOfWrite(b)
    ensures ModesOfWrite(a + b)
  {
  }

  lemma {:induction false} ModesAfterStaging(e: Ending)
    ensures ModesOfWrite(AfterStaging(e))
  {
    assert ModesOfWrite(Logging(0)) && ModesOfWrite(Logging(1)) && ModesOfWrite([]);
    var p := if e.preparedLog then Logging(1) else [];
    var c := if e.committedLog then Logging(1) else [];
    var x := if e.commit == OTHER then [] else Logging(0);
    hide ModesOfWrite, Logging;
    ModesConcat(Logging(0), p);
    ModesConcat(Logging(0), c);
    ModesConcat(Logging(0) + c, x);
    ModesConcat(Logging(0) + p, if e.prepare == OK then Logging(0) + c + x else Logging(0));
  }

  lemma {:induction false} WritesExclude(address: int, e: Ending)
    ensures ModesOfWrite(WriteLocks(address, e))
  {
    if !IsValidAddress(address) {
      assert ModesOfWrite(Logging(0));
    } else {
      var m := |Extents(address)|;
      var last := if e.staged < m then Block(address) + e.staged else LastBlock(address);
      assert forall k: nat :: ModesOfWrite(StagingLocks(address, k)) && ModesOfWrite([Release(FileLock(0, last))]);
      ModesAfterStaging(e);
      hide ModesOfWrite, StagingLocks, AfterStaging, Extents;
      ModesConcat(StagingLocks(address, m), AfterStaging(e));
      ModesConcat(StagingLocks(address, m) + AfterStaging(e), [Release(FileLock(0, last))]);
      ModesConcat(StagingLocks(address, e.staged + 1), [Release(FileLock(0, last))]);
    }
  }

  /** Whatever such a sequence holds, it holds for writing. */
  lemma {:induction false} HeldForWriting(ops: seq<LockOp>, l: Lock)
    requires ModesOfWrite(ops)
    ensures l in Holding(map[], ops) ==> Holding(map[], ops)[l] == ForWriting
  {
    if ops != [] {
      HeldForWriting(ops[..|ops| - 1], l);
    }
  }

  /** While it stages: the lock of its first block, then that of the second as well, then the second alone. */
  lemma {:induction false} StagingHolds(address: int, e: Ending)
    requires IsValidAddress(address)
    ensures var n := address / BLOCK_SIZE;
            && |WriteLocks(address, e)| >= 2 && HeldAt(address, e, 1) == map[FileLock(0, n) := ForWriting]
            && (address % BLOCK_SIZE != 0 && e.staged >= 1 ==>
                  && |WriteLocks(address, e)| >= 4
                  && HeldAt(address, e, 2) == map[FileLock(0, n) := ForWriting, FileLock(0, n + 1) := ForWriting]
                  && HeldAt(address, e, 3) == map[FileLock(0, n + 1) := ForWriting])
  {
    var ops, n, m := WriteLocks(address, e), Block(address), |Extents(address)|;
    assert m == if address % BLOCK_SIZE == 0 then 1 else 2;
    hide Extents, AfterStaging;
    var first, both := FileLock(0, n), [WriteLock(n)] + [WriteLock(n + 1)];
    HoldingOne(map[], WriteLock(n));
    HoldingMore(map[], [WriteLock(n)], WriteLock(n + 1));
    HoldingMore(map[], both, Release(first));
    hide Holding;
    assert ops[..1] == [WriteLock(n)];
    if address % BLOCK_SIZE != 0 && e.staged >= 1 {
      assert ops[..2] == both && ops[..3] == both + [Release(first)];
      assert map[first := ForWriting, FileLock(0, n + 1) := ForWriting] - {first} == map[FileLock(0, n + 1) := ForWriting];
    }
  }

  // ----- Log records -----

  /** At how many of its points a request holds a lock. */
  function PointsHeld(held: Held, ops: seq<LockOp>, l: Lock): nat {
    if ops == [] then 0
    else PointsHeld(held, ops[..|ops| - 1], l) + if l in Holding(held, ops) then 1 else 0
  }

  lemma {:induction false} PointsConcat(held: Held, a: seq<LockOp>, b: seq<LockOp>, l: Lock)
    ensures PointsHeld(held, a + b, l) == PointsHeld(held, a, l) + PointsHeld(Holding(held, a), b, l)
  {
    hide Holding;
    if b == [] {
      assert a + b == a;
    } else {
      assert (a + b)[..|a + b| - 1] == a + b[..|b| - 1];
      PointsConcat(held, a, b[..|b| - 1], l);
      HoldingConcat(held, a, b);
    }
  }

  lemma {:induction false} PointsOfOne(held: Held, a: LockOp, l: Lock)
    ensures PointsHeld(held, [a], l) == if l in HoldAfter(held, a) then 1 else 0
  {
    HoldingOne(held, a);
    assert [a][..0] == [];
  }

  /** A record's own lock is held at one point while the record is appended. */
  lemma {:induction false} PointsOfLogging(held: Held, server: nat, l: Lock)
    requires OnlyFileLocks(held) && l.LogLock?
    ensures PointsHeld(held, Logging(server), l) == if l == LogLock(server) then 1 else 0
  {
    var a, b := Acquire(LogLock(server), ForWriting), Release(LogLock(server));
    assert Logging(server) == [a] + [b];
    HoldingOne(held, a);
    PointsConcat(held, [a], [b], l);
    PointsOfOne(held, a, l);
    PointsOfOne(HoldAfter(held, a), b, l);
    hide PointsHeld, Holding;
  }

  lemma {:induction false} NoPoints(held: Held, l: Lock)
    ensures PointsHeld(held, [], l) == 0
  {
  }

  ghost predicate OnFileLocks(ops: seq<LockOp>) {
    forall k :: 0 <= k < |ops| ==> ops[k].lock.FileLock?
  }

  lemma {:induction false} FileLocksOnly(held: Held, ops: seq<LockOp>, l: Lock)
    requires OnFileLocks(ops) && l.LogLock? && l !in held
    ensures PointsHeld(held, ops, l) == 0 && l !in Holding(held, ops)
  {
    if ops != [] {
      FileLocksOnly(held, ops[..|ops| - 1], l);
    }
  }

  /** Two parts of a request that both end with the locks in hand that they began with. */
  lemma {:induction false} PointsThen(held: Held, a: seq<LockOp>, b: seq<LockOp>, l: Lock)
    requires AllDisciplined(held, a) && Holding(held, a) == held
    requires AllDisciplined(held, b) && Holding(held, b) == held
    ensures AllDisciplined(held, a + b) && Holding(held, a + b) == held
    ensures PointsHeld(held, a + b, l) == PointsHeld(held, a, l) + PointsHeld(held, b, l)
  {
    hide PointsHeld, Holding, AllDisciplined;
    Then(held, a, b);
    PointsConcat(held, a, b, l);
  }

  /** How many records a completed staging leads to on either server, its own first one included. */
  function RecordsOn(server: nat, e: Ending): nat {
    match server
    case 0 => if e.prepare != OK then 2 else if e.commit == OTHER then 2 else 3
    case 1 => (if e.preparedLog then 1 else 0) + if e.prepare == OK && e.committedLog then 1 else 0
    case _ => 0
  }

  lemma {:induction false} PointsAfterStaging(held: Held, e: Ending, server: nat)
    requires OnlyFileLocks(held)
    ensures PointsHeld(held, AfterStaging(e), LogLock(server)) == RecordsOn(server, e)
  {
    var l := LogLock(server);
    LoggingIsNeutral(held, 0);
    LoggingIsNeutral(held, 1);
    PointsOfLogging(held, 0, l);
    PointsOfLogging(held, 1, l);
    NoOps(held);
    NoPoints(held, l);
    hide PointsHeld, Holding, AllDisciplined, Logging, OnlyFileLocks;
    var p := if e.preparedLog then Logging(1) else [];
    var c := if e.committedLog then Logging(1) else [];
    var x := if e.commit == OTHER then [] else Logging(0);
    PointsThen(held, Logging(0), p, l);
    PointsThen(held, Logging(0), c, l);
    PointsThen(held, Logging(0) + c, x, l);
    PointsThen(held, Logging(0) + p, if e.prepare == OK then Logging(0) + c + x else Logging(0), l);
  }

  lemma {:induction false} PointsOfWrite(address: int, e: Ending, server: nat)
    ensures PointsHeld(map[], WriteLocks(address, e), LogLock(server))
            == if !IsValidAddress(address) then if server == 0 then 1 else 0
               else if e.staged < |Extents(address)| then 0 else RecordsOn(server, e)
  {
    var l := LogLock(server);
    if !IsValidAddress(address) {
      PointsOfLogging(map[], 0, l);
    } else {
      var m := |Extents(address)|;
      assert 1 <= m <= 2;
      hide Extents, AfterStaging;
      if e.staged < m {
        FileLocksOnly(map[], WriteLocks(address, e), l);
      } else {
        StagingIsDisciplined(address, m);
        var staging, after, last := StagingLocks(address, m), AfterStaging(e), [Release(FileLock(0, LastBlock(address)))];
        var held := Holding(map[], staging);
        FileLocksOnly(map[], staging, l);
        AfterStagingIsNeutral(held, e);
        PointsAfterStaging(held, e, server);
        FileLocksOnly(held, last, l);
        hide PointsHeld, Holding, AllDisciplined, StagingLocks;
        PointsConcat(map[], staging, after, l);
        HoldingConcat(map[], staging, after);
        PointsConcat(map[], staging + after, last, l);
      }
    }
  }

  function Appends(ops: seq<Op>): nat {
    if ops == [] then 0 else Appends(ops[..|ops| - 1]) + if ops[|ops| - 1].Append? then 1 else 0
  }

  lemma {:induction false} AppendsOfCore(ops: seq<Op>)
    ensures Appends(Core(ops)) == Appends(ops)
  {
    if ops != [] {
      var init, last := ops[..|ops| - 1], ops[|ops| - 1];
      AppendsOfCore(init);
      if IsBookkeeping(last) {
        assert Core(ops)[..|Core(init)|] == Core(init);
      } else {
        assert Core(ops) == Core(init);
      }
    }
  }

  lemma {:induction false} AppendsPair(ops: seq<Op>, r: Record, last: Op)
    requires !last.Append?
    ensures Appends(ops + [Append(r), last]) == Appends(ops) + 1
  {
    var all := ops + [Append(r), last];
    assert all[..|all| - 1] == ops + [Append(r)] && (ops + [Append(r)])[..|ops|] == ops;
  }

  lemma {:induction false} AppendsOnePair(r: Record, last: Op)
    requires !last.Append?
    ensures Appends([Append(r), last]) == 1
  {
    AppendsPair([], r, last);
    assert [] + [Append(r), last] == [Append(r), last];
  }

  lemma {:induction false} AppendsThenDrop(ops: seq<Op>, id: string)
    ensures Appends(ops + [KvDrop(id)]) == Appends(ops)
  {
    assert (ops + [KvDrop(id)])[..|ops|] == ops;
  }

  lemma {:induction false} AppendsOfWriteCore(id: string, ps: seq<Piece>, prepare: Status, commit: Status)
    ensures Appends(WriteCore(id, ps, prepare, commit)) == if prepare != OK || commit == OTHER then 2 else 3
  {
    var begin := [Append(Start(id, Movs(ps))), KvAdd(id, Txn(ps))];
    var installed := begin + [Append(ReplInit(id)), KvSet(id, RPC_INIT)];
    AppendsOnePair(Start(id, Movs(ps)), KvAdd(id, Txn(ps)));
    hide Appends, Movs, Txn;
    AppendsPair(begin, ReplInit(id), KvSet(id, RPC_INIT));
    match prepare
    case UNAVAILABLE => AppendsPair(begin, Pending(id), KvSet(id, PENDING_REPLICATION));
    case OTHER => AppendsPair(begin, Abort(id), KvDrop(id));
    case OK =>
      match commit
      case OK => AppendsPair(installed, Commit(id), KvDrop(id));
      case UNAVAILABLE => AppendsPair(installed, Pending(id), KvSet(id, PENDING_REPLICATION));
      case OTHER => AppendsThenDrop(installed, id);
  }

  lemma {:induction false} AppendsOfHandlers(id: string, ps: seq<Piece>, names: seq<string>)
    ensures Appends(PrepareOps(id, ps)) == 1 && Appends(CommitOps(id, names)) == 1
  {
    CoreOfPrepare(id, ps);
    AppendsOfCore(PrepareOps(id, ps));
    AppendsOnePair(Start(id, Movs(ps)), KvAdd(id, Txn(ps)));
    AppendsPair(MoveOps(names), Commit(id), KvDrop(id));
    NoAppends(MoveOps(names));
    hide PrepareOps, Core, MoveOps;
  }

  lemma {:induction false} NoAppends(ops: seq<Op>)
    requires forall i :: 0 <= i < |ops| ==> !ops[i].Append?
    ensures Appends(ops) == 0
  {
    if ops != [] {
      NoAppends(ops[..|ops| - 1]);
    }
  }

  /** A write holds its server's log lock at one point for each record that it appends there, and the other server's
      at one for each that its handlers append; an address without blocks takes it once and throws. */
  lemma {:induction false} OncePerRecord(d: Disk, id: string, address: int, buffer: Bytes, e: Ending)
    requires |buffer| == BLOCK_SIZE
    ensures !IsValidAddress(address) ==> PointsHeld(map[], WriteLocks(address, e), LogLock(0)) == 1
    ensures IsValidAddress(address) ==>
              && SizeBefore(Extents(address), |Extents(address)|) <= |buffer|
              && var ps := Cut(Extents(address), buffer);
                 e.staged == Stageable(d, ps) ==>
                   && PointsHeld(map[], WriteLocks(address, e), LogLock(0)) == Appends(WriteOps(d, id, ps, e.prepare, e.commit))
                   && PointsHeld(map[], WriteLocks(address, e), LogLock(1))
                      == if e.staged < |ps| then 0
                         else (if e.preparedLog then Appends(PrepareOps(id, ps)) else 0)
                              + if e.prepare == OK && e.committedLog then Appends(CommitOps(id, Paths(ps))) else 0
  {
    PointsOfWrite(address, e, 0);
    PointsOfWrite(address, e, 1);
    if IsValidAddress(address) {
      CutOfExtents(address, buffer);
      var ps := Cut(Extents(address), buffer);
      CoreOfWrite(d, id, ps, e.prepare, e.commit);
      AppendsOfCore(WriteOps(d, id, ps, e.prepare, e.commit));
      AppendsOfWriteCore(id, ps, e.prepare, e.commit);
      AppendsOfHandlers(id, ps, Paths(ps));
      hide WriteLocks, PointsHeld, WriteOps, Core, WriteCore, PrepareOps, CommitOps, Stageable;
    }
  }

  // ----- Any number of requests -----

  lemma {:induction false} SameOps(s: World, schedule: seq<nat>)
    ensures var t := RunThreads(s, schedule);
            |t.threads| == |s.threads| && forall i :: 0 <= i < |s.threads| ==> t.threads[i].ops == s.threads[i].ops
  {
    if schedule != [] {
      SameOps(s, schedule[..|schedule| - 1]);
    }
  }

  ghost predicate LogsForWriting(ops: seq<LockOp>) {
    forall k :: 0 <= k < |ops| && ops[k].Acquire? && ops[k].lock.LogLock? ==> ops[k].mode == ForWriting
  }

  lemma {:induction false} LogHeldForWriting(ops: seq<LockOp>, server: nat)
    requires LogsForWriting(ops)
    ensures LogLock(server) in Holding(map[], ops) ==> Holding(map[], ops)[LogLock(server)] == ForWriting
  {
    if ops != [] {
      LogHeldForWriting(ops[..|ops| - 1], server);
    }
  }

  lemma {:induction false} CallsLogForWriting(c: Call)
    ensures LogsForWriting(LockOps(c))
  {
    match c
    case WriteCall(address, ending) => WritesExclude(address, ending);
    case ReadCall(server, address, openedFiles) => hide Extents;
  }

  /** Under any schedule of any requests, at most one of them holds a server's log lock. */
  lemma {:induction false} OneLogger(calls: seq<Call>, schedule: seq<nat>, server: nat, i: nat, j: nat)
    requires var t := RunThreads(Begun(calls), schedule);
             i < |t.threads| && j < |t.threads| && LogLock(server) in HeldBy(t.threads[i]) && LogLock(server) in HeldBy(t.threads[j])
    ensures i == j
  {
    var t := RunThreads(Begun(calls), schedule);
    SameOps(Begun(calls), schedule);
    CallsLogForWriting(calls[i]);
    CallsLogForWriting(calls[j]);
    LogHeldForWriting(t.threads[i].ops[..Min(t.threads[i].pc, |t.threads[i].ops|)], server);
    LogHeldForWriting(t.threads[j].ops[..Min(t.threads[j].pc, |t.threads[j].ops|)], server);
    hide RunThreads, LockOps, Holding;
    if i < j {
      LocksExclude(calls, schedule, LogLock(server), i, j);
    } else if j < i {
      LocksExclude(calls, schedule, LogLock(server), j, i);
    }
  }

  /** Under any schedule a request waits exactly when it wants a lock that another holds, one of the two for writing. */
  lemma {:induction false} WaitsExactly(calls: seq<Call>, schedule: seq<nat>, i: nat)
    requires i < |RunThreads(Begun(calls), schedule).threads| && !Done(RunThreads(Begun(calls), schedule).threads[i])
    ensures var t := RunThreads(Begun(calls), schedule);
            var op := t.threads[i].ops[t.threads[i].pc];
            CanStep(t, i) <==> op.Release? || forall j :: 0 <= j < |t.threads| && op.lock in HeldBy(t.threads[j]) ==>
                                                op.mode == ForReading && HeldBy(t.threads[j])[op.lock] == ForReading
  {
    BegunInv(calls);
    RunKeepsWorld(Begun(calls), schedule);
    var t := RunThreads(Begun(calls), schedule);
    hide RunThreads, Begun, Request;
    WaitsInWorld(t, i);
  }

  lemma {:induction false} WaitsInWorld(t: World, i: nat)
    requires WorldInv(t) && i < |t.threads| && !Done(t.threads[i])
    ensures var op := t.threads[i].ops[t.threads[i].pc];
            CanStep(t, i) <==> op.Release? || forall j :: 0 <= j < |t.threads| && op.lock in HeldBy(t.threads[j]) ==>
                                                op.mode == ForReading && HeldBy(t.threads[j])[op.lock] == ForReading
  {
    var op := t.threads[i].ops[t.threads[i].pc];
    if op.Acquire? {
      assert TableCounts(t, op.lock);
      CountHolder(t.threads, op.lock, ForReading);
      CountHolder(t.threads, op.lock, ForWriting);
      hide Count, HeldBy;
      if CanStep(t, i) {
        forall j | 0 <= j < |t.threads| && op.lock in HeldBy(t.threads[j])
          ensures op.mode == ForReading && HeldBy(t.threads[j])[op.lock] == ForReading
        {
          var mode := HeldBy(t.threads[j])[op.lock];
          assert Holds(t.threads[j], op.lock, mode);
        }
      } else {
        var j := BlockedByHolder(t, i);
        assert op.lock in HeldBy(t.threads[j]);
      }
    }
  }

  /** Under any schedule, no write holds a block at the point at which a read of the primary reads it. */
  lemma {:induction false} NoWriteWhileReading(calls: seq<Call>, schedule: seq<nat>, i: nat, j: nat, extent: nat)
    requires i < |calls| && j < |calls| && calls[i].ReadCall? && calls[i].server == 0 && calls[j].WriteCall?
    requires IsValidAddress(calls[i].address) && extent < calls[i].openedFiles && extent < |Extents(calls[i].address)|
    ensures |RunThreads(Begun(calls), schedule).threads| == |calls|
    ensures var t := RunThreads(Begun(calls), schedule);
            t.threads[i].pc == 2 * extent + 1 ==> FileLock(0, calls[i].address / BLOCK_SIZE + extent) !in HeldBy(t.threads[j])
  {
    var t := RunThreads(Begun(calls), schedule);
    SameOps(Begun(calls), schedule);
    assert t.threads[i].ops == ReadLocks(0, calls[i].address, calls[i].openedFiles);
    assert t.threads[j].ops == WriteLocks(calls[j].address, calls[j].ending);
    hide RunThreads, ReadLocks, WriteLocks, Extents, Holding, Begun;
    if t.threads[i].pc == 2 * extent + 1 {
      var l, w := FileLock(0, calls[i].address / BLOCK_SIZE + extent), t.threads[j];
      ReadHoldsOnce(0, calls[i].address, calls[i].openedFiles, extent, t.threads[i].pc);
      WritesExclude(calls[j].address, calls[j].ending);
      assert ModesOfWrite(w.ops[..Min(w.pc, |w.ops|)]);
      HeldForWriting(w.ops[..Min(w.pc, |w.ops|)], l);
      if l in HeldBy(w) {
        if i < j {
          LocksExclude(calls, schedule, l, i, j);
        } else {
          LocksExclude(calls, schedule, l, j, i);
        }
      }
    }
  }
}
