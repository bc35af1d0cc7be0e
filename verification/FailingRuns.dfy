/** Runs from newly created storage on which a promise fails. */
module FailingRuns {
  import opened Decimal
  import opened Storage
  import opened AddressTranslation
  import opened WriteAheadLog
  import opened LogParser
  import opened KeyValueStore
  import opened ContentCache
  import opened Nodes
  import opened Effects
  import opened CrashAtomicity
  import opened BlockServer
  import opened Recovery
  import opened RecoverySafety
  import opened WriteAheadAgreement
  import opened PrimaryRecovery
  import opened Divergence
  import opened CatchUp
  import opened FlatMemory
  import opened FlatRuns
  import opened CacheAgreement

  // ----- Writes of one repeated byte -----

  function Filled(v: byte): (b: Bytes)
    ensures |b| == BLOCK_SIZE && forall i :: 0 <= i < BLOCK_SIZE ==> b[i] == v
  {
    seq(BLOCK_SIZE, _ => v)
  }

  function WholeBlock(n: nat, v: byte): Piece {
    Piece(BlockPath(n), Filled(v), 0)
  }

  /** A client's write of one block. */
  function BlockWrite(id: string, n: nat, v: byte, fault: Fault): Event {
    ClientWrite(id, n * BLOCK_SIZE, Filled(v), fault)
  }

  /** A client's write of all of one block but its first byte, and of the first byte of the next. */
  function StraddlingWrite(id: string, n: nat, v: byte): Event {
    ClientWrite(id, n * BLOCK_SIZE + 1, Filled(v), NoFault)
  }

  function StraddlingPieces(n: nat, v: byte): seq<Piece> {
    [Piece(BlockPath(n), Filled(v)[..BLOCK_SIZE - 1], 1), Piece(BlockPath(n + 1), Filled(v)[BLOCK_SIZE - 1..], 0)]
  }

  lemma {:induction false} BlockWritePieces(n: nat, v: byte)
    requires n < BLOCKS
    ensures PiecesOf(n * BLOCK_SIZE, Filled(v)) == [WholeBlock(n, v)] && CleanPieces([WholeBlock(n, v)])
  {
    hide BlockPath, Filled, PiecesOf;
    assert IsValidAddress(n * BLOCK_SIZE);
    PiecesSpelledOut(n * BLOCK_SIZE, Filled(v));
    PiecesAreClean(n * BLOCK_SIZE, Filled(v));
  }

  lemma {:induction false} StraddlingWritePieces(n: nat, v: byte)
    requires n < BLOCKS
    ensures PiecesOf(n * BLOCK_SIZE + 1, Filled(v)) == StraddlingPieces(n, v) && CleanPieces(StraddlingPieces(n, v))
  {
    hide BlockPath, Filled, PiecesOf;
    assert IsValidAddress(n * BLOCK_SIZE + 1);
    assert (n * BLOCK_SIZE + 1) / BLOCK_SIZE == n && (n * BLOCK_SIZE + 1) % BLOCK_SIZE == 1;
    PiecesSpelledOut(n * BLOCK_SIZE + 1, Filled(v));
    PiecesAreClean(n * BLOCK_SIZE + 1, Filled(v));
  }

  lemma {:induction false} DistinctBlocks(m: nat, n: nat)
    requires m != n
    ensures BlockPath(m) != BlockPath(n) && IsBlockName(BlockPath(m)) && IsBlockName(BlockPath(n))
  {
    BlockPathIsBlockName(m);
    BlockPathIsBlockName(n);
    if BlockPath(m) == BlockPath(n) {
      BlockPathInjective(m, n);
    }
  }

  lemma {:induction false} NewBlock(n: nat)
    ensures BlockPath(n) in NewStorage() <==> n < BLOCKS
    ensures n < BLOCKS ==> NewStorage()[BlockPath(n)] == []
    ensures IsBlockName(BlockPath(n)) && Tmp(BlockPath(n)) !in NewStorage()
  {
    hide BlockPath, NewStorage, IsStoredBlock;
    NewStorageFiles(BlockPath(n));
    NewStorageFiles(Tmp(BlockPath(n)));
    BlockPathIsBlockName(n);
    TmpIsNotABlock(BlockPath(n));
    BlockIsStored(n);
  }

  lemma {:induction false} ShortIds()
    ensures IsId("1") && IsId("2") && IsId("5") && IsId("7") && IsId("8") && Ids([]) == {}
  {
  }

  // ----- A whole block, whatever was there -----

  lemma {:induction false} WholeStaged(d: Disk, n: nat, v: byte)
    requires Short(d) && TempsSmall(d) && BlockPath(n) in d
    ensures StagedContent(d, WholeBlock(n, v)) == Filled(v)
  {
    var p := BlockPath(n);
    var c := StagedContent(d, WholeBlock(n, v));
    BlockPathIsBlockName(n);
    StaleIsSmall(d, p);
    hide BlockPath, Staged, StaleOf, IsBlockName;
    StagedLength(StaleOf(d, p), d[p], Filled(v), 0);
    forall i | 0 <= i < |c|
      ensures ByteAt(c, i) == ByteAt(Filled(v), i)
    {
      StagedByte(StaleOf(d, p), d[p], Filled(v), 0, i);
    }
    SameBytes(c, Filled(v));
  }

  lemma {:induction false} WholePlaced(d: Disk, e: Disk, n: nat, v: byte)
    requires Short(d) && TempsSmall(d) && BlockPath(n) in d && Placed(d, e, [WholeBlock(n, v)], 1)
    ensures BlockPath(n) in e && e[BlockPath(n)] == Filled(v)
    ensures forall q :: IsBlockName(q) && q != BlockPath(n) ==> SameAt(e, d, q)
  {
    WholeStaged(d, n, v);
    BlockPathIsBlockName(n);
    var ps := [WholeBlock(n, v)];
    hide BlockPath, StagedContent, Filled, IsBlockName;
    assert ps[0] == WholeBlock(n, v);
    forall q | IsBlockName(q)
      ensures q == BlockPath(n) ==> q in e && e[q] == Filled(v)
      ensures q != BlockPath(n) ==> SameAt(e, d, q)
    {
      assert OldOrStaged(d, e, ps, 1, q);
    }
  }

  lemma {:induction false} WholeIsClean(d: Disk, n: nat, v: byte)
    requires Short(d) && TempsSmall(d)
    ensures PiecesOk([WholeBlock(n, v)]) && Reusable(d, [WholeBlock(n, v)])
  {
    BlockPathIsBlockName(n);
    hide BlockPath, TempsSmall, Short;
    UsuallyReusable(d, [WholeBlock(n, v)]);
  }

  // ----- A backup that misses two writes -----

  function OneBlock(n: nat): TxnData {
    TxnData([BlockPath(n)], [BLOCK_SIZE], [0], PENDING_REPLICATION)
  }

  /** A write that the primary completes while the backup is down. */
  lemma {:induction false} StepAlone(s: Sys, id: string, address: int, buffer: Bytes, ps: seq<Piece>)
    requires !s.up && PiecesOf(address, buffer) == ps && ps != [] && Stageable(s.primary.disk, ps) == |ps|
    ensures Step(s, ClientWrite(id, address, buffer, NoFault))
            == Sys(Exec(s.primary, WriteOps(s.primary.disk, id, ps, UNAVAILABLE, OK)), s.backup, false)
  {
    hide PiecesOf, Exec, WriteOps, Stageable, BackupAfter;
  }

  lemma {:induction false} BlockTxn(n: nat, v: byte)
    ensures Txn([WholeBlock(n, v)]).(state := PENDING_REPLICATION) == OneBlock(n) && EndsPending(UNAVAILABLE, OK)
  {
    hide BlockPath, Filled;
  }

  lemma {:induction false} WholePresent(d: Disk, n: nat, v: byte)
    requires BlockPath(n) in d
    ensures Present(d, [WholeBlock(n, v)]) && Stageable(d, [WholeBlock(n, v)]) == 1
  {
    hide Filled, BlockPath;
    StageableAll(d, [WholeBlock(n, v)]);
  }

  lemma {:induction false} MissedStep(s: Sys, id: string, n: nat, v: byte)
    requires !s.up && n < BLOCKS && BlockPath(n) in s.primary.disk
    ensures Present(s.primary.disk, [WholeBlock(n, v)])
    ensures Step(s, BlockWrite(id, n, v, NoFault))
            == Sys(Exec(s.primary, WriteOps(s.primary.disk, id, [WholeBlock(n, v)], UNAVAILABLE, OK)), s.backup, false)
  {
    BlockWritePieces(n, v);
    WholePresent(s.primary.disk, n, v);
    hide PiecesOf, Filled, BlockPath, Exec, WriteOps, Step, Stageable, WholeBlock;
    StepAlone(s, id, n * BLOCK_SIZE, Filled(v), [WholeBlock(n, v)]);
  }

  /** A write of one whole block that a stopped backup misses. */
  lemma {:induction false} MissedWrite(s: Sys, id: string, n: nat, v: byte)
    requires Inv(s) && !s.up && IsId(id) && id !in s.primary.kv && id !in Ids(s.backup.log)
    requires n < BLOCKS && BlockPath(n) in s.primary.disk
    ensures var e := BlockWrite(id, n, v, NoFault);
            var t := Step(s, e);
            && Possible(s, e) && Inv(t) && !t.up && t.backup == s.backup && t.primary.kv == s.primary.kv[id := OneBlock(n)]
            && BlockPath(n) in t.primary.disk && t.primary.disk[BlockPath(n)] == Filled(v)
            && forall q :: IsBlockName(q) && q != BlockPath(n) ==> SameAt(t.primary.disk, s.primary.disk, q)
  {
    var e, ps, p := BlockWrite(id, n, v, NoFault), [WholeBlock(n, v)], s.primary;
    var t := Step(s, e);
    hide *;
    BlockWritePossible(s, id, n, v, NoFault);
    StepExactly(s, e);
    InvHolds(s);
    ShapeParts(s);
    InvIs(t);
    MissedStep(s, id, n, v);
    BlockTxn(n, v);
    WholeIsClean(p.disk, n, v);
    PrimaryPlaces(p, id, ps, UNAVAILABLE, OK);
    KvAfterWrite(p, id, ps, UNAVAILABLE, OK);
    WholePlaced(p.disk, t.primary.disk, n, v);
  }

  lemma {:induction false} BlockWritePossible(s: Sys, id: string, n: nat, v: byte, fault: Fault)
    requires Inv(s) && IsId(id) && id !in s.primary.kv && id !in Ids(s.backup.log) && n < BLOCKS
    ensures Possible(s, BlockWrite(id, n, v, fault)) && Accounted(s, BlockWrite(id, n, v, fault))
  {
    InvHolds(s);
    ShapeParts(s);
    BlockWritePieces(n, v);
    WholeIsClean(s.primary.disk, n, v);
    WholeIsClean(s.backup.disk, n, v);
    hide PiecesOf, Filled, IsId, Accounted, WholeBlock, Reusable, Shape, AllCovered;
    CleanIsAccounted(s, BlockWrite(id, n, v, fault));
  }

  /** From newly created storage: the backup stops, and misses a write to the first block and one to the second. */
  function TwoMissed(): seq<Event> {
    [BackupCrash, BlockWrite("1", 0, 1, NoFault), BlockWrite("2", 1, 1, NoFault)]
  }

  lemma {:induction false} RunOfTwo(s: Sys, a: Event, b: Event)
    requires Possible(s, a) && Possible(Step(s, a), b)
    ensures PossibleRun(s, [a, b]) && RunEvents(s, [a, b]) == Step(Step(s, a), b)
  {
    hide Possible, Step;
    var es := [a, b];
    assert es[..0] == [] && es[..1] == [a] && [a][..0] == [];
    assert RunEvents(s, [a]) == Step(s, a);
  }

  lemma {:induction false} RunOfThree(s: Sys, a: Event, b: Event, c: Event)
    requires Possible(s, a) && Possible(Step(s, a), b) && Possible(Step(Step(s, a), b), c)
    ensures PossibleRun(s, [a, b, c]) && RunEvents(s, [a, b, c]) == Step(Step(Step(s, a), b), c)
  {
    RunOfTwo(s, a, b);
    hide Possible, Step;
    var es := [a, b, c];
    assert es[..2] == [a, b] && forall i :: 0 <= i < 2 ==> es[..i] == [a, b][..i];
  }

  lemma {:induction false} OneDiffers(d: Disk, e: Disk, p: string, v: byte)
    requires IsBlockName(p) && p in d && p in e && d[p] == Filled(v) && v != 0 && e[p] == []
    ensures Differs(d, e, p, 0)
  {
  }

  lemma {:induction false} NewServersHold()
    ensures Inv(NewServers()) && NewServers().up
    ensures NewServers().primary == Node(NewStorage(), [], map[]) == NewServers().backup
  {
    NewServersAreShaped();
    SameIsCovered(NewServers());
  }

  lemma {:induction false} StartOfMissed() returns (s: Sys)
    ensures Possible(NewServers(), BackupCrash) && s == Step(NewServers(), BackupCrash)
    ensures Inv(s) && s == Sys(Node(NewStorage(), [], map[]), Node(NewStorage(), [], map[]), false)
  {
    NewServersHold();
    s := Step(NewServers(), BackupCrash);
    hide NewStorage, Shape, AllCovered;
    CrashKeepsShape(NewServers());
    CrashKeepsCovered(NewServers());
  }

  lemma {:induction false} AfterTwoMissed() returns (s: Sys)
    ensures PossibleRun(NewServers(), TwoMissed()) && s == RunEvents(NewServers(), TwoMissed())
    ensures Inv(s) && !s.up && s.backup.log == [] && s.primary.kv == map["1" := OneBlock(0)]["2" := OneBlock(1)]
    ensures Differs(s.primary.disk, s.backup.disk, BlockPath(0), 0) && Differs(s.primary.disk, s.backup.disk, BlockPath(1), 0)
  {
    FewBlocks();
    hide *;
    var s1 := StartOfMissed();
    NewBlock(0);
    NewBlock(1);
    DistinctBlocks(0, 1);
    ShortIds();
    MissedWrite(s1, "1", 0, 1);
    var s2 := Step(s1, BlockWrite("1", 0, 1, NoFault));
    SameContents(s2.primary.disk, s1.primary.disk, BlockPath(1));
    MissedWrite(s2, "2", 1, 1);
    s := Step(s2, BlockWrite("2", 1, 1, NoFault));
    SameContents(s.primary.disk, s2.primary.disk, BlockPath(0));
    OneDiffers(s.primary.disk, s.backup.disk, BlockPath(0), 1);
    OneDiffers(s.primary.disk, s.backup.disk, BlockPath(1), 1);
    RunOfThree(NewServers(), BackupCrash, BlockWrite("1", 0, 1, NoFault), BlockWrite("2", 1, 1, NoFault));
    TwoMissedIs();
  }

  lemma {:induction false} FewBlocks()
    ensures 2 < BLOCKS && BLOCKS == 262144
  {
  }

  lemma {:induction false} SameContents(d: Disk, e: Disk, p: string)
    requires SameAt(d, e, p)
    ensures p in d <==> p in e
    ensures p in d ==> d[p] == e[p]
  {
  }

  lemma {:induction false} TwoMissedIs()
    ensures TwoMissed() == [BackupCrash, BlockWrite("1", 0, 1, NoFault), BlockWrite("2", 1, 1, NoFault)]
  {
  }

  /** Of two owed blocks, one is not streamed. */
  lemma {:induction false} OneIsNotStreamed(s: Sys, ids: seq<string>, beyond: nat -> Bytes) returns (p: string)
    requires s.primary.kv == map["1" := OneBlock(0)]["2" := OneBlock(1)]
    requires Differs(s.primary.disk, s.backup.disk, BlockPath(0), 0) && Differs(s.primary.disk, s.backup.disk, BlockPath(1), 0)
    ensures StillDiffers(s, ids, beyond, p, 0)
  {
    DistinctBlocks(0, 1);
    hide BlockPath, Garbles, Requested, Summary, ByteAt;
    p := if Streamed(s.backup.log, ids) == ["1"] then BlockPath(1) else BlockPath(0);
  }

  lemma {:induction false} TheyAreListed(s: Sys)
    requires s.backup.log == [] && s.primary.kv == map["1" := OneBlock(0)]["2" := OneBlock(1)]
    ensures RecoveryRun(s.backup, s.primary, ["1", "2"], [])
  {
    hide BlockPath;
    ParsedLogIsSummary(s.backup);
    assert PendingIds(s.primary.kv) == {"1", "2"};
  }

  /** However the primary lists the two transactions, a complete recovery leaves a byte that differs. */
  lemma {:induction false} TwoMissedWrites(ids: seq<string>, order: seq<string>, beyond: nat -> Bytes, steps: nat)
    ensures var s := RunEvents(NewServers(), TwoMissed());
            && PossibleRun(NewServers(), TwoMissed())
            && RecoveryRun(s.backup, s.primary, ["1", "2"], [])
            && (RecoveryRun(s.backup, s.primary, ids, order)
                && steps >= |RecoverOps(ParsedLog(s.backup), s.primary, ids, order, beyond)| ==>
                  !Alike(AfterRecovery(s, ids, order, beyond, steps).primary.disk,
                         AfterRecovery(s, ids, order, beyond, steps).backup.disk))
  {
    hide *;
    var s := AfterTwoMissed();
    TheyAreListed(s);
    if RecoveryRun(s.backup, s.primary, ids, order)
       && steps >= |RecoverOps(ParsedLog(s.backup), s.primary, ids, order, beyond)| {
      CaughtUpExactly(s, ids, order, beyond, steps);
      var p := OneIsNotStreamed(s, ids, beyond);
    }
  }

  // ----- A write that is refused, and what it leaves behind -----

  const LAST: nat := BLOCKS - 1

  /** A write at the end of the storage, whose second block does not exist: it is answered NOT_FOUND. */
  lemma {:induction false} RefusedAtTheEnd(d: Disk, v: byte)
    requires BlockPath(LAST) in d && BlockPath(BLOCKS) !in d
    ensures Stageable(d, StraddlingPieces(LAST, v)) == 1
  {
    hide BlockPath, Filled;
    var ps := StraddlingPieces(LAST, v);
    assert ps[0].path in d && ps[1].path == BlockPath(BLOCKS);
  }

  /** What the refused write leaves of its first block. */
  lemma {:induction false} Leftover(n: Node, v: byte)
    requires BlockPath(LAST) in n.disk && BlockPath(BLOCKS) !in n.disk
    ensures var ps := StraddlingPieces(LAST, v);
            var n1 := Exec(n, StageOps(ps[..1]));
            && SameBlocks(n1.disk, n.disk) && n1.log == n.log && n1.kv == n.kv && Tmp(BlockPath(LAST)) in n1.disk
            && StaleOf(n1.disk, BlockPath(LAST)) == Staged(StaleOf(n.disk, BlockPath(LAST)), n.disk[BlockPath(LAST)], ps[0].data, 1)
            && forall id, commit, prepare :: ServeOps(n.disk, id, ps, prepare, commit) == StageOps(ps[..1])
  {
    var ps := StraddlingPieces(LAST, v);
    RefusedAtTheEnd(n.disk, v);
    StraddlingWritePieces(LAST, v);
    hide BlockPath, Filled, Exec, Stageable, Staged;
    FirstPiecesOk(ps, 1);
    assert ps[..1] == [ps[0]];
    StagedFromLeftovers(n, ps[..1], 0);
    WholeOps(StageOps(ps[..1]));
    StagingKeepsBlocks(n, ps[..1], |StageOps(ps[..1])|);
    StageOpsAreFiles(ps[..1]);
    FilesKeepBooks(n, StageOps(ps[..1]));
  }

  /** Two clients' writes and no fault: the first is refused, the second completes on both servers. */
  function TwoWrites(): seq<Event> {
    [StraddlingWrite("1", LAST, 1), StraddlingWrite("2", LAST - 1, 1)]
  }

  lemma {:induction false} StraddlingPossible(s: Sys, id: string, n: nat, v: byte)
    requires IsId(id) && id !in s.primary.kv && id !in Ids(s.backup.log)
    ensures Possible(s, StraddlingWrite(id, n, v))
  {
    hide Filled;
  }

  lemma {:induction false} AfterRefused() returns (s: Sys)
    ensures Possible(NewServers(), StraddlingWrite("1", LAST, 1)) && s == Step(NewServers(), StraddlingWrite("1", LAST, 1))
    ensures Inv(s) && s.up && s.primary.kv == map[] && s.backup == NewServers().backup
    ensures SameBlocks(s.primary.disk, NewStorage()) && s.primary == Exec(NewServers().primary, StageOps(StraddlingPieces(LAST, 1)[..1]))
    ensures StaleOf(s.primary.disk, BlockPath(LAST)) == Staged([], [], StraddlingPieces(LAST, 1)[0].data, 1)
  {
    var s0, e := NewServers(), StraddlingWrite("1", LAST, 1);
    s := Step(s0, e);
    FewBlocks();
    hide *;
    NewServersHold();
    ShortIds();
    LastBlocks();
    NewBlock(LAST);
    NewBlock(BLOCKS);
    Leftover(s0.primary, 1);
    StraddlingPossible(s0, "1", LAST, 1);
    StraddlingWritePieces(LAST, 1);
    RefusedStep(s0, "1", 1);
    NoStale(NewStorage(), BlockPath(LAST));
    StepKeepsShape(s0, e);
    StepExactly(s0, e);
    AccountedWhenRefused(s0, e);
    InvIs(s);
  }

  lemma {:induction false} LastBlocks()
    ensures LAST + 1 == BLOCKS && LAST - 1 + 1 == LAST && 1 < LAST < BLOCKS
  {
  }

  lemma {:induction false} InvHolds(s: Sys)
    requires Inv(s)
    ensures Shape(s) && AllCovered(s) && Short(s.primary.disk) && Short(s.backup.disk)
  {
  }

  lemma {:induction false} InvIs(s: Sys)
    requires Shape(s) && AllCovered(s)
    ensures Inv(s)
  {
  }

  lemma {:induction false} RefusedStep(s: Sys, id: string, v: byte)
    requires BlockPath(LAST) in s.primary.disk && BlockPath(BLOCKS) !in s.primary.disk
    ensures var ps := StraddlingPieces(LAST, v);
            && Step(s, StraddlingWrite(id, LAST, v)) == s.(primary := Exec(s.primary, ServeOps(s.primary.disk, id, ps, OK, OK)))
            && Stageable(s.primary.disk, ps) < |ps|
  {
    StraddlingWritePieces(LAST, v);
    RefusedAtTheEnd(s.primary.disk, v);
    hide PiecesOf, Filled, BlockPath, Exec, ServeOps, Stageable;
  }

  lemma {:induction false} NoStale(d: Disk, p: string)
    requires Tmp(p) !in d
    ensures StaleOf(d, p) == []
  {
  }

  lemma {:induction false} AccountedWhenRefused(s: Sys, e: Event)
    requires e == StraddlingWrite("1", LAST, 1) && PiecesOf(e.address, e.buffer) == StraddlingPieces(LAST, 1)
    requires Stageable(s.primary.disk, StraddlingPieces(LAST, 1)) < |StraddlingPieces(LAST, 1)|
    ensures Accounted(s, e)
  {
    hide PiecesOf, Stageable, Filled, BlockPath;
  }

  /** In the second write's second block the leftover's second byte shows through, on the primary alone. */
  lemma {:induction false} LeftoverShows(d: Disk, e: Disk)
    requires BlockPath(LAST) in d && d[BlockPath(LAST)] == [] && BlockPath(LAST) in e && e[BlockPath(LAST)] == []
    requires StaleOf(d, BlockPath(LAST)) == Staged([], [], StraddlingPieces(LAST, 1)[0].data, 1)
    requires Tmp(BlockPath(LAST)) !in e
    ensures ShowsApart(d, e, StraddlingPieces(LAST - 1, 1), 2, 1, 1) && ShownByte(d, BlockPath(LAST), 1) == 1
  {
    var p, data := BlockPath(LAST), StraddlingPieces(LAST, 1)[0].data;
    hide BlockPath, Staged;
    assert data == Filled(1)[..BLOCK_SIZE - 1] && data[0] == 1;
    StagedByte([], [], data, 1, 1);
    assert StraddlingPieces(LAST - 1, 1)[1] == Piece(p, Filled(1)[BLOCK_SIZE - 1..], 0);
  }

  lemma {:induction false} StraddlingPresent(d: Disk)
    requires BlockPath(LAST) in d && BlockPath(LAST - 1) in d
    ensures Present(d, StraddlingPieces(LAST - 1, 1)) && StraddlingPieces(LAST - 1, 1)[1].path == BlockPath(LAST)
    ensures Stageable(d, StraddlingPieces(LAST - 1, 1)) == 2 == |StraddlingPieces(LAST - 1, 1)|
  {
    hide Filled, BlockPath;
    StageableAll(d, StraddlingPieces(LAST - 1, 1));
  }

  /** A fault-free run from newly created storage: afterwards both servers are up, nothing is pending, and a byte of
      the last block differs. */
  lemma {:induction false} StaleTempDiverges()
    ensures var t := RunEvents(NewServers(), TwoWrites());
            && PossibleRun(NewServers(), TwoWrites())
            && t.up && t.primary.kv == map[]
            && Differs(t.primary.disk, t.backup.disk, BlockPath(LAST), 1) && !AllCovered(t)
  {
    hide *;
    var s := AfterRefused();
    LastBlocks();
    ShortIds();
    NewServersHold();
    NewBlock(LAST);
    NewBlock(LAST - 1);
    SameBlocksAt(s.primary.disk, NewStorage(), BlockPath(LAST));
    SameBlocksAt(s.primary.disk, NewStorage(), BlockPath(LAST - 1));
    StraddlingPossible(s, "2", LAST - 1, 1);
    StraddlingWritePieces(LAST - 1, 1);
    StraddlingPresent(s.primary.disk);
    StraddlingPresent(s.backup.disk);
    LeftoverShows(s.primary.disk, s.backup.disk);
    SecondStep(s);
    RunOfTwo(NewServers(), StraddlingWrite("1", LAST, 1), StraddlingWrite("2", LAST - 1, 1));
    TwoWritesAre();
  }

  lemma {:induction false} TwoWritesAre()
    ensures TwoWrites() == [StraddlingWrite("1", LAST, 1), StraddlingWrite("2", LAST - 1, 1)]
  {
  }

  lemma {:induction false} SameBlocksAt(d: Disk, e: Disk, p: string)
    requires SameBlocks(d, e) && IsBlockName(p)
    ensures p in d <==> p in e
    ensures p in d ==> d[p] == e[p]
  {
  }

  lemma {:induction false} SecondStep(s: Sys)
    requires var ps := StraddlingPieces(LAST - 1, 1);
             && Inv(s) && s.up && s.primary.kv == map[] && "2" !in Ids(s.backup.log) && IsId("2") && CleanPieces(ps)
             && PiecesOf((LAST - 1) * BLOCK_SIZE + 1, Filled(1)) == ps && ps[1].path == BlockPath(LAST) && |ps| == 2
             && Present(s.primary.disk, ps) && Present(s.backup.disk, ps) && ShowsApart(s.primary.disk, s.backup.disk, ps, 2, 1, 1)
    ensures var t := Step(s, StraddlingWrite("2", LAST - 1, 1));
            t.up && t.primary.kv == map[] && Differs(t.primary.disk, t.backup.disk, BlockPath(LAST), 1) && !AllCovered(t)
  {
    var ps, t := StraddlingPieces(LAST - 1, 1), Step(s, StraddlingWrite("2", LAST - 1, 1));
    StepIsWrite(s, ps);
    hide *;
    InvHolds(s);
    ShapeParts(s);
    CleanArePieces(ps);
    CompletedWrite(s, "2", ps, NoFault);
    NoFaultReaches(s, ps);
    WrittenParts(s, t, "2", ps, 2);
    ShowingIsOutside(s.primary.disk, s.backup.disk, ps);
    DifferenceAfterWrite(s.primary.disk, s.backup.disk, t.primary.disk, t.backup.disk, ps, 2, 1, 1);
    KvAfterWrite(s.primary, "2", ps, OK, OK);
    NotPending();
    NothingOwed(t, BlockPath(LAST), 1);
    NotCovered(t, BlockPath(LAST), 1);
  }

  lemma {:induction false} NotPending()
    ensures !EndsPending(OK, OK)
  {
  }

  lemma {:induction false} NotCovered(s: Sys, p: string, i: nat)
    requires Differs(s.primary.disk, s.backup.disk, p, i) && !Covered(s, p, i)
    ensures !AllCovered(s)
  {
  }

  lemma {:induction false} WrittenParts(s: Sys, t: Sys, id: string, ps: seq<Piece>, r: nat)
    requires WrittenBoth(s, t, id, ps, r)
    ensures Placed(s.primary.disk, t.primary.disk, ps, |ps|) && Placed(s.backup.disk, t.backup.disk, ps, r)
  {
  }

  lemma {:induction false} ShowingIsOutside(d: Disk, e: Disk, ps: seq<Piece>)
    requires |ps| == 2 && ShowsApart(d, e, ps, 2, 1, 1)
    ensures !InExtent(ps[1], 1) && ps[1].path in d
  {
  }

  lemma {:induction false} NoFaultReaches(s: Sys, ps: seq<Piece>)
    requires s.up && |ps| == 2
    ensures RenamedThere(s, ps, NoFault) == 2
  {
  }

  lemma {:induction false} StepIsWrite(s: Sys, ps: seq<Piece>)
    requires s.up && |ps| == 2 && PiecesOf((LAST - 1) * BLOCK_SIZE + 1, Filled(1)) == ps
    requires Present(s.primary.disk, ps) && Present(s.backup.disk, ps)
    ensures var t := Step(s, StraddlingWrite("2", LAST - 1, 1));
            && t == AfterWrite(s, "2", ps, NoFault) && t.up
            && t.primary == Exec(s.primary, WriteOps(s.primary.disk, "2", ps, OK, OK))
  {
    StageableAll(s.primary.disk, ps);
    StageableAll(s.backup.disk, ps);
    hide PiecesOf, Filled, Exec, WriteOps, Stageable, BackupAfter;
  }

  // ----- The same on one server, as a flat array -----

  function FlatRequests(): seq<Request> {
    [Request("1", LAST * BLOCK_SIZE + 1, Filled(1), OK, OK), Request("2", (LAST - 1) * BLOCK_SIZE + 1, Filled(1), OK, OK)]
  }

  lemma {:induction false} FlatLengths()
    ensures |FlatRequests()| == 2 && forall r :: r in FlatRequests() ==> |r.buffer| == BLOCK_SIZE
    ensures forall r :: r in FlatRequests()[..1] ==> |r.buffer| == BLOCK_SIZE
  {
    assert FlatRequests()[..1] == [FlatRequests()[0]];
  }

  /** After a refused write, one that succeeds changes a byte that it does not cover. */
  lemma {:induction false} RefusedWriteShows()
    ensures InUse(NewStorage()) && forall r :: r in FlatRequests() ==> |r.buffer| == BLOCK_SIZE
    ensures !IsFlat(Node(NewStorage(), [], map[]), FlatRequests())
  {
    var n, rs := Node(NewStorage(), [], map[]), FlatRequests();
    FlatLengths();
    NewStorageIsFlat();
    assert rs[..1] == [rs[0]] && rs[..|rs| - 1] == rs[..1];
    hide InUse, IsFlat, ShowsNothing, After, NewStorage, FlatRequests, Filled;
    FirstShowsNothing(n);
    FlatSoFar(n, rs, 1);
    SecondShows(n);
    FlatOneMore(n, rs);
  }

  lemma {:induction false} FirstShowsNothing(n: Node)
    ensures ShowsNothing(After(n, FlatRequests()[..0]), FlatRequests()[0])
  {
    assert !Fits(LAST * BLOCK_SIZE + 1);
    hide After;
  }

  lemma {:induction false} SecondShows(n: Node)
    requires n == Node(NewStorage(), [], map[])
    ensures !ShowsNothing(After(n, FlatRequests()[..1]), FlatRequests()[1])
  {
    var r := FlatRequests()[1];
    var n1, ps := After(n, FlatRequests()[..1]), StraddlingPieces(LAST - 1, 1);
    AfterFirst(n);
    SecondFits();
    hide *;
    FewBlocks();
    LastBlocks();
    NewBlock(LAST);
    NewBlock(BLOCKS);
    Leftover(n, 1);
    NoStale(NewStorage(), BlockPath(LAST));
    SameBlocksAt(n1.disk, NewStorage(), BlockPath(LAST));
    LeftoverShows(n1.disk, NewStorage());
    StraddlingWritePieces(LAST - 1, 1);
    ShowsInNone(n1, r, ps);
  }

  lemma {:induction false} SecondFits()
    ensures var r := FlatRequests()[1];
            && r.address == (LAST - 1) * BLOCK_SIZE + 1 && r.buffer == Filled(1) && Takes(r)
            && StraddlingPieces(LAST - 1, 1)[1].path == BlockPath(LAST)
  {
    hide Filled, BlockPath;
  }

  lemma {:induction false} AfterFirst(n: Node)
    ensures After(n, FlatRequests()[..1]) == Exec(n, ServeOps(n.disk, "1", StraddlingPieces(LAST, 1), OK, OK))
  {
    var rs := FlatRequests()[..1];
    assert rs == [FlatRequests()[0]] && rs[..0] == [];
    StraddlingWritePieces(LAST, 1);
    hide PiecesOf, ServeOps, Exec, StraddlingPieces, Filled;
  }

  lemma {:induction false} ShowsInNone(n: Node, r: Request, ps: seq<Piece>)
    requires Takes(r) && PiecesOf(r.address, r.buffer) == ps && |ps| == 2 && ps[1].path == BlockPath(LAST)
    requires ShowsApart(n.disk, NewStorage(), ps, 2, 1, 1) && ShownByte(n.disk, BlockPath(LAST), 1) == 1
    requires n.disk[BlockPath(LAST)] == []
    ensures !ShowsNothing(n, r)
  {
    hide Takes, PiecesOf, BlockPath, NewStorage, ShownByte;
    assert ByteAt(n.disk[BlockPath(LAST)], 1) == 0;
  }

  // ----- Stale cached reads -----

  ghost function NewCaching(): CachingServer {
    CachingServer(Node(NewStorage(), [], map[]), map[])
  }

  lemma {:induction false} NewCachingHolds()
    ensures CacheAgrees(NewCaching()) && Lengths(NewCaching().node.disk)
    ensures BlockPath(0) in NewStorage() && BlockPath(1) in NewStorage()
  {
    NewServersHold();
    NewBlock(0);
    NewBlock(1);
    hide NewStorage, BlockPath;
  }

  lemma {:induction false} NoZero(v: byte)
    requires v != 0
    ensures CString(Filled(v)) == Filled(v) && 0 !in Filled(v) && Filled(v) != []
  {
    CStringWhole(Filled(v));
  }

  /** A server that the other one replicates to is asked for a block, and then replicated to again. */
  function ReplicatedTwice(): seq<CacheRequest> {
    [Replicated("1", 0, Filled(1)), ReadAt(0), Replicated("2", 0, Filled(2))]
  }

  lemma {:induction false} HandleThree(s: CachingServer, a: CacheRequest, b: CacheRequest, c: CacheRequest)
    ensures HandleAll(s, [a, b]) == Handle(Handle(s, a), b)
    ensures HandleAll(s, [a, b, c]) == Handle(Handle(Handle(s, a), b), c)
  {
    hide Handle;
    assert [a, b, c][..2] == [a, b] && [a, b][..1] == [a] && [a][..0] == [];
    assert HandleAll(s, [a]) == Handle(s, a);
  }

  lemma {:induction false} BlockReplicated(s: CachingServer, id: string, v: byte)
    requires CacheAgrees(s) && Lengths(s.node.disk) && BlockPath(0) in s.node.disk && v != 0
    ensures var s' := AfterReplicated(s, id, PiecesOf(0, Filled(v)));
            && Lengths(s'.node.disk) && s'.cache == s.cache && BlockPath(0) in s'.node.disk
            && ExtentsPresent(s'.node.disk, Extents(0)) && ReadAll(s'.node.disk, Extents(0)) == Filled(v)
            && (CacheAgrees(s') <==> var entry := Lookup(s.cache, IntToString(0)); entry == [] || entry == Filled(v))
  {
    var ps, d := [WholeBlock(0, v)], s.node.disk;
    BlockWritePieces(0, v);
    NoZero(v);
    hide Filled, BlockPath, PiecesOf, CacheAgrees, ReadAll, ExtentsPresent, Extents, ReplicaOps, Exec, Placed, IntToString, CString, NewContent, Lengths;
    AlignedReplicaExactly(s, id, 0, Filled(v));
    ReplicaPlaces(s.node, id, ps);
    BlockZero(d);
    PlacedRead(d, AfterReplicated(s, id, ps).node.disk, ps, 0);
    assert ps[0].path == BlockPath(0);
    WholeBlockContent(d, BlockPath(0), Filled(v));
    BlockZero(AfterReplicated(s, id, ps).node.disk);
  }

  lemma {:induction false} BlockZero(d: Disk)
    ensures IsBlockName(BlockPath(0)) && (ExtentsPresent(d, Extents(0)) <==> BlockPath(0) in d)
  {
    BlockPathIsBlockName(0);
    ReadOfBlock(d, 0);
  }

  lemma {:induction false} ReadIntoEmpty(s: CachingServer, v: byte)
    requires CacheAgrees(s) && s.cache == map[] && ExtentsPresent(s.node.disk, Extents(0)) && ReadAll(s.node.disk, Extents(0)) == Filled(v)
    ensures var s' := AfterRead(s, 0); CacheAgrees(s') && s'.node == s.node && Lookup(s'.cache, IntToString(0)) == Filled(v)
  {
    hide ReadAll, ExtentsPresent, Extents, IntToString, Filled, Agrees;
    ReadKeepsAgreement(s, 0);
  }

  lemma {:induction false} ReplicatedTwiceIs()
    ensures HandleAll(NewCaching(), ReplicatedTwice())
            == AfterReplicated(AfterRead(AfterReplicated(NewCaching(), "1", PiecesOf(0, Filled(1))), 0), "2", PiecesOf(0, Filled(2)))
    ensures forall r :: r in ReplicatedTwice() ==> Aligned(r)
  {
    hide HandleAll, AfterReplicated, AfterRead, PiecesOf, Filled;
    HandleThree(NewCaching(), ReplicatedTwice()[0], ReplicatedTwice()[1], ReplicatedTwice()[2]);
  }

  lemma {:induction false} EmptyCache()
    ensures NewCaching().cache == map[] && NewCaching().node.disk == NewStorage() && Lookup(map[], IntToString(0)) == []
  {
  }

  /** No failure, no zero byte: the next cached read on that server returns the block before last. */
  lemma {:induction false} StaleCachedRead()
    ensures forall r :: r in ReplicatedTwice() ==> Aligned(r)
    ensures var s := HandleAll(NewCaching(), ReplicatedTwice());
            && Lookup(s.cache, IntToString(0)) == Filled(1)
            && ExtentsPresent(s.node.disk, Extents(0)) && ReadAll(s.node.disk, Extents(0)) == Filled(2)
            && !CacheAgrees(s)
  {
    hide *;
    NewCachingHolds();
    EmptyCache();
    NoZero(1);
    DifferentFills();
    ReplicatedTwiceIs();
    BlockReplicated(NewCaching(), "1", 1);
    var s1 := AfterReplicated(NewCaching(), "1", PiecesOf(0, Filled(1)));
    ReadIntoEmpty(s1, 1);
    BlockReplicated(AfterRead(s1, 0), "2", 2);
  }

  lemma {:induction false} DifferentFills()
    ensures Filled(1) != Filled(2)
  {
    assert Filled(1)[0] != Filled(2)[0];
  }

  /** A client's own writes do the same when the second is not at a block boundary. */
  function WrittenAcross(): seq<CacheRequest> {
    [WriteAt("1", 0, Filled(1), OK, OK), WriteAt("2", 1, Filled(2), OK, OK)]
  }

  lemma {:induction false} WriteAcross(s: CachingServer)
    requires Lengths(s.node.disk) && BlockPath(0) in s.node.disk && BlockPath(1) in s.node.disk
    requires s.node.disk[BlockPath(0)] == Filled(1) && Lookup(s.cache, IntToString(0)) == Filled(1)
    ensures var s' := AfterCachedWrite(s, "2", 1, Filled(2), OK, OK);
            && Lookup(s'.cache, IntToString(0)) == Filled(1)
            && ExtentsPresent(s'.node.disk, Extents(0)) && ReadAll(s'.node.disk, Extents(0)) != Filled(1)
  {
    var ps, d := StraddlingPieces(0, 2), s.node.disk;
    var s' := AfterCachedWrite(s, "2", 1, Filled(2), OK, OK);
    StraddlingWritePieces(0, 2);
    AcrossPresent(d);
    hide Filled, BlockPath, PiecesOf, ReadAll, ExtentsPresent, Extents, WriteOps, Exec, Placed, IntToString, CString, NewContent, Lengths, WriteReply, CacheAfterWrite;
    OtherEntry(s.cache, 1, 0, Filled(2), WriteReply(d, ps, OK, OK));
    WritePlaces(s.node, "2", ps, OK, OK);
    BlockZero(d);
    PlacedRead(d, s'.node.disk, ps, 0);
    AcrossContent(d);
  }

  lemma {:induction false} AcrossPresent(d: Disk)
    requires BlockPath(0) in d && BlockPath(1) in d
    ensures Present(d, StraddlingPieces(0, 2)) && StraddlingPieces(0, 2)[0].path == BlockPath(0)
    ensures StraddlingPieces(0, 2)[0].off == 1 && StraddlingPieces(0, 2)[0].data == Filled(2)[..BLOCK_SIZE - 1]
    ensures Stageable(d, StraddlingPieces(0, 2)) == 2 && |StraddlingPieces(0, 2)| == 2
  {
    hide Filled, BlockPath;
    StageableAll(d, StraddlingPieces(0, 2));
  }

  lemma {:induction false} AcrossContent(d: Disk)
    requires BlockPath(0) in d && StraddlingPieces(0, 2)[0].path == BlockPath(0)
    ensures NewContent(d, StraddlingPieces(0, 2)[0]) != Filled(1)
  {
    var piece := StraddlingPieces(0, 2)[0];
    var c := StagedContent(d, piece);
    var w := Window(c, 0, BLOCK_SIZE);
    StagedByte(StaleOf(d, BlockPath(0)), d[BlockPath(0)], piece.data, 1, 1);
    assert w[1] == ByteAt(c, 1) == piece.data[0] == 2;
    assert |CString(w)| > 1 ==> CString(w)[1] == 2;
    assert Filled(1)[1] == 1;
  }

  /** The cached block is not the one that an uncached read returns. */
  lemma {:induction false} StaleAfterUnaligned()
    ensures !CacheAgrees(HandleAll(NewCaching(), WrittenAcross()))
    ensures Lookup(HandleAll(NewCaching(), WrittenAcross()).cache, IntToString(0)) == Filled(1)
  {
    hide *;
    NewCachingHolds();
    EmptyCache();
    WrittenAcrossIs();
    FirstAcross(NewCaching());
    WriteAcross(AfterCachedWrite(NewCaching(), "1", 0, Filled(1), OK, OK));
    NoZero(1);
    OneStale(HandleAll(NewCaching(), WrittenAcross()));
  }

  lemma {:induction false} OneStale(s: CachingServer)
    requires Lookup(s.cache, IntToString(0)) == Filled(1) && Filled(1) != []
    requires ExtentsPresent(s.node.disk, Extents(0)) && ReadAll(s.node.disk, Extents(0)) != Filled(1)
    ensures !CacheAgrees(s)
  {
    hide IntToString, Filled, ExtentsPresent, ReadAll, Extents;
    assert !Agrees(s, 0);
  }

  lemma {:induction false} WrittenAcrossIs()
    ensures HandleAll(NewCaching(), WrittenAcross())
            == AfterCachedWrite(AfterCachedWrite(NewCaching(), "1", 0, Filled(1), OK, OK), "2", 1, Filled(2), OK, OK)
  {
    hide HandleAll, AfterCachedWrite, Filled;
    HandleTwo(NewCaching(), WrittenAcross()[0], WrittenAcross()[1]);
  }

  lemma {:induction false} HandleTwo(s: CachingServer, a: CacheRequest, b: CacheRequest)
    ensures HandleAll(s, [a, b]) == Handle(Handle(s, a), b)
  {
    hide Handle;
    assert [a, b][..1] == [a] && [a][..0] == [];
    assert HandleAll(s, [a]) == Handle(s, a);
  }

  lemma {:induction false} FirstAcross(s: CachingServer)
    requires s == NewCaching() && Lengths(s.node.disk) && BlockPath(0) in s.node.disk && BlockPath(1) in s.node.disk
    ensures var s' := AfterCachedWrite(s, "1", 0, Filled(1), OK, OK);
            && Lengths(s'.node.disk) && BlockPath(0) in s'.node.disk && BlockPath(1) in s'.node.disk
            && s'.node.disk[BlockPath(0)] == Filled(1) && Lookup(s'.cache, IntToString(0)) == Filled(1)
  {
    var ps, d := [WholeBlock(0, 1)], s.node.disk;
    var s' := AfterCachedWrite(s, "1", 0, Filled(1), OK, OK);
    BlockWritePieces(0, 1);
    DistinctBlocks(0, 1);
    WholePresent(d, 0, 1);
    assert WriteReply(d, ps, OK, OK) == Ok;
    hide Filled, BlockPath, PiecesOf, WriteOps, Exec, Placed, IntToString, WriteReply, CacheAfterWrite, NewStorage, Short, TempsSmall;
    OwnCacheEntry(s.cache, IntToString(0), Filled(1), WriteReply(d, ps, OK, OK));
    PrimaryPlaces(s.node, "1", ps, OK, OK);
    WholePlaced(d, s'.node.disk, 0, 1);
    assert SameAt(s'.node.disk, d, BlockPath(1));
  }
}
