/** Client writes on newly created storage after which a recovery fails to do what it is for. */
module FailingRecoveries {
  import opened Storage
  import opened AddressTranslation
  import opened WriteAheadLog
  import opened LogParser
  import opened KeyValueStore
  import opened Nodes
  import opened Effects
  import opened CrashAtomicity
  import opened BlockServer
  import opened Recovery
  import opened RecoverySafety
  import opened WriteAheadAgreement
  import opened PrimaryRecovery
  import opened Divergence
  import opened CatchUp
  import opened Idempotence
  import opened SafeRuns
  import opened FailingRuns

  ghost function NewNode(): Node {
    Node(NewStorage(), [], map[])
  }

  lemma {:induction false} NewNodeHolds()
    ensures NewServers() == Sys(NewNode(), NewNode(), true) && Inv(NewServers())
    ensures SafeServer(NewNode()) && Short(NewStorage()) && TempsSmall(NewStorage()) && Sane(NewStorage())
    ensures NewNode().disk == NewStorage() && NewNode().log == [] && NewNode().kv == map[]
  {
    NewServersHold();
    hide NewStorage;
  }

  lemma {:induction false} CleanBlock(n: nat, v: byte)
    ensures CleanPieces([WholeBlock(n, v)])
  {
    BlockPathIsBlockName(n);
    hide BlockPath, Filled;
  }

  // ----- Two new servers and the first write of a block -----

  lemma {:induction false} ReplicasFrom(p: Node, b: Node, id: string, n: nat, v: byte)
    requires BlockPath(n) in p.disk && SameBlocks(p.disk, b.disk)
    requires Short(p.disk) && TempsSmall(p.disk) && Short(b.disk) && TempsSmall(b.disk) && Sane(p.disk) && Sane(b.disk)
    requires LogOk(p.log) && IsId(id) && id !in Ids(p.log) && b.kv == map[]
    ensures Replicas(p, b, id, [WholeBlock(n, v)]) && Present(p.disk, [WholeBlock(n, v)])
  {
    CleanBlock(n, v);
    BlockPathIsBlockName(n);
    WholeIsClean(p.disk, n, v);
    WholeIsClean(b.disk, n, v);
    SameBlocksAt(p.disk, b.disk, BlockPath(n));
    WholePresent(p.disk, n, v);
    WholePresent(b.disk, n, v);
    hide BlockPath, Filled, Reusable, Sane, LogOk, SameBlocks, PiecesOk, Present, IsId, WholeBlock;
  }

  /** Any first write of a block, and no earlier transaction: the hypotheses of the theorems about a primary's crash. */
  lemma {:induction false} NewReplicas(id: string, n: nat, v: byte)
    requires n < BLOCKS && IsId(id)
    ensures var ps := PiecesOf(n * BLOCK_SIZE, Filled(v));
            && ps == [WholeBlock(n, v)] && Replicas(NewNode(), NewNode(), id, ps) && Present(NewNode().disk, ps)
            && Harmless(NewNode(), NewNode(), ps)
  {
    hide *;
    NewNodeHolds();
    ShortIds();
    NewBlock(n);
    BlockWritePieces(n, v);
    SameBlocksRefl(NewStorage());
    EmptyLogOk();
    ReplicasFrom(NewNode(), NewNode(), id, n, v);
    HarmlessWithoutLog(NewNode(), NewNode(), [WholeBlock(n, v)]);
  }

  lemma {:induction false} EmptyLogOk()
    ensures LogOk([])
  {
  }

  lemma {:induction false} HarmlessWithoutLog(p: Node, b: Node, ps: seq<Piece>)
    requires Present(p.disk, ps) && p.log == []
    ensures Harmless(p, b, ps)
  {
  }

  lemma {:induction false} HarmInWindow(n: Node, ps: seq<Piece>, ids: seq<string>, order: seq<string>, beyond: nat -> Bytes)
    requires Replicas(n, n, "7", ps) && Present(n.disk, ps) && Harmless(n, n, ps) && |ps| == 1
    requires !SameBlocks(Install(n.disk, ps[..1]), n.disk)
    requires RecoveryRun(PrimaryAt(n, "7", ps, 6), BackupAt(n, "7", ps, HasPrepared), ids, order)
    ensures var r := Recovered(PrimaryAt(n, "7", ps, 6), BackupAt(n, "7", ps, HasPrepared), ids, order, beyond);
            !SameBlocks(r.self.disk, r.peer.disk)
  {
    hide *;
    OneInWindow();
    PrimaryRecoveryAgreement(n, n, "7", ps, 6, HasPrepared, ids, order, beyond);
  }

  /** The primary stops right after its first rename: every recovery that follows leaves the replicas different. */
  lemma {:induction false} WindowDoesHarm(ids: seq<string>, order: seq<string>, beyond: nat -> Bytes)
    ensures var n, ps := NewNode(), PiecesOf(0, Filled(1));
            && Replicas(n, n, "7", ps) && Present(n.disk, ps) && Harmless(n, n, ps)
            && Reached(|ps|, 6, HasPrepared) && InWindow(|ps|, 6)
    ensures var n, ps := NewNode(), PiecesOf(0, Filled(1));
            exists someIds, someOrder :: RecoveryRun(PrimaryAt(n, "7", ps, 6), BackupAt(n, "7", ps, HasPrepared), someIds, someOrder)
    ensures var n, ps := NewNode(), PiecesOf(0, Filled(1));
            RecoveryRun(PrimaryAt(n, "7", ps, 6), BackupAt(n, "7", ps, HasPrepared), ids, order) ==>
              var r := Recovered(PrimaryAt(n, "7", ps, 6), BackupAt(n, "7", ps, HasPrepared), ids, order, beyond);
              !SameBlocks(r.self.disk, r.peer.disk)
  {
    var n, ps := NewNode(), PiecesOf(0, Filled(1));
    hide *;
    ShortIds();
    FewBlocks();
    NewReplicas("7", 0, 1);
    assert ps == [WholeBlock(0, 1)];
    OneInWindow();
    FirstRename();
    var someIds, someOrder := RecoveryCanRun(PrimaryAt(n, "7", ps, 6), BackupAt(n, "7", ps, HasPrepared));
    if RecoveryRun(PrimaryAt(n, "7", ps, 6), BackupAt(n, "7", ps, HasPrepared), ids, order) {
      HarmInWindow(n, ps, ids, order, beyond);
    }
  }

  lemma {:induction false} OneInWindow()
    ensures Reached(1, 6, HasPrepared) && InWindow(1, 6) && 6 - (3 * 1 + 2) == 1
  {
  }

  lemma {:induction false} FirstRename()
    ensures !SameBlocks(Install(NewNode().disk, [WholeBlock(0, 1)][..1]), NewNode().disk)
  {
    var d, ps := NewNode().disk, [WholeBlock(0, 1)];
    NewBlock(0);
    CleanBlock(0, 1);
    hide Overwrite, BlockPath, NewStorage, Filled, SameBlocks, Install;
    assert ps[..1] == ps;
    InstallHere(d, ps, 0);
    assert |Overwrite(d[BlockPath(0)], Filled(1), 0)| == BLOCK_SIZE;
    NotSameBlocks(Install(d, ps), d, BlockPath(0));
  }

  lemma {:induction false} NotSameBlocks(d: Disk, e: Disk, p: string)
    requires IsBlockName(p) && p in d && p in e && d[p] != e[p]
    ensures !SameBlocks(d, e)
  {
    assert !SameAt(d, e, p);
  }

  // ----- A write whose commit failed, and the next write -----

  /** The backup stops just before it would commit, and recovers. */
  function CommitMissed(beyond: nat -> Bytes, steps: nat): seq<Event> {
    [BlockWrite("5", 0, 1, DuringCommit(0)), BackupRecover(["5"], ["5"], beyond, steps)]
  }

  lemma {:induction false} CoreWhenPending(n: Node, id: string, ps: seq<Piece>)
    ensures Exec(n, WriteCore(id, ps, OK, UNAVAILABLE)).log == n.log + [Start(id, Movs(ps)), ReplInit(id), Pending(id)]
  {
    var s, a := Append(Start(id, Movs(ps))), KvAdd(id, Txn(ps));
    var i, k := Append(ReplInit(id)), KvSet(id, RPC_INIT);
    hide Exec, Txn, Movs;
    TwoSteps(n, s, a);
    ThenTwo(n, [s, a], i, k);
    ThenTwo(n, [s, a] + [i, k], Append(Pending(id)), KvSet(id, PENDING_REPLICATION));
    assert WriteCore(id, ps, OK, UNAVAILABLE) == [s, a] + [i, k] + [Append(Pending(id)), KvSet(id, PENDING_REPLICATION)];
  }

  lemma {:induction false} LogWhenPending(n: Node, id: string, ps: seq<Piece>)
    requires Present(n.disk, ps)
    ensures Exec(n, WriteOps(n.disk, id, ps, OK, UNAVAILABLE)).log == n.log + [Start(id, Movs(ps)), ReplInit(id), Pending(id)]
  {
    hide *;
    StageableAll(n.disk, ps);
    CoreOfWrite(n.disk, id, ps, OK, UNAVAILABLE);
    CoreDecides(n, WriteOps(n.disk, id, ps, OK, UNAVAILABLE));
    CoreWhenPending(n, id, ps);
  }

  lemma {:induction false} CommitMissedStep(s: Sys)
    requires s.up && BlockPath(0) in s.primary.disk && BlockPath(0) in s.backup.disk
    ensures var ps, t := [WholeBlock(0, 1)], Step(s, BlockWrite("5", 0, 1, DuringCommit(0)));
            && t == AfterWrite(s, "5", ps, DuringCommit(0)) && !t.up
            && t.primary == Exec(s.primary, WriteOps(s.primary.disk, "5", ps, OK, UNAVAILABLE))
            && t.backup == BackupAfter(s.backup, "5", ps, DuringCommit(0)) && t.backup.kv == map[]
            && RenamedThere(s, ps, DuringCommit(0)) == 0 && StepsTaken(1, DuringCommit(0)) == 5
            && Present(s.primary.disk, ps) && Present(s.backup.disk, ps)
  {
    BlockWritePieces(0, 1);
    WholePresent(s.primary.disk, 0, 1);
    WholePresent(s.backup.disk, 0, 1);
    hide PiecesOf, Filled, BlockPath, Exec, WriteOps, Stageable, WholeBlock, PrepareHandler, CommitOps;
  }

  /** The servers then: the primary has the new block and owes it, the backup has the old one. */
  lemma {:induction false} AfterCommitMissed() returns (s: Sys)
    ensures var e := BlockWrite("5", 0, 1, DuringCommit(0)); Possible(NewServers(), e) && s == Step(NewServers(), e)
    ensures Inv(s) && !s.up && s.primary.kv == map["5" := OneBlock(0)] && s.backup.kv == map[]
    ensures BlockPath(0) in s.primary.disk && s.primary.disk[BlockPath(0)] == Filled(1)
    ensures forall q :: IsBlockName(q) && q != BlockPath(0) ==> SameAt(s.primary.disk, NewStorage(), q)
    ensures SameBlocks(s.backup.disk, NewStorage())
    ensures s.primary.log == [Start("5", Movs([WholeBlock(0, 1)])), ReplInit("5"), Pending("5")]
    ensures s.backup.log == [Start("5", Movs([WholeBlock(0, 1)]))]
    ensures SafeServer(s.primary)
  {
    var s0, ps, e := NewServers(), [WholeBlock(0, 1)], BlockWrite("5", 0, 1, DuringCommit(0));
    s := Step(s0, e);
    hide *;
    NewNodeHolds();
    ServerSides();
    ShortIds();
    FewBlocks();
    NewBlock(0);
    CleanBlock(0, 1);
    CleanArePieces(ps);
    CommitMissedStep(s0);
    BlockWritePossible(s0, "5", 0, 1, DuringCommit(0));
    StepExactly(s0, e);
    InvIs(s);
    InvHolds(s0);
    CompletedWrite(s0, "5", ps, DuringCommit(0));
    WrittenParts(s0, s, "5", ps, 0);
    WholePlaced(NewStorage(), s.primary.disk, 0, 1);
    PlacedNone(NewStorage(), s.backup.disk, ps);
    KvAfterWrite(s0.primary, "5", ps, OK, UNAVAILABLE);
    PendingTxn(0, 1);
    LogWhenPending(s0.primary, "5", ps);
    BackupLogThen(s0.backup, ps);
    WriteIsSafe(s0.primary, "5", 0, 1, OK, UNAVAILABLE);
    EmptyAppend([Start("5", Movs(ps)), ReplInit("5"), Pending("5")]);
  }

  lemma {:induction false} ServerSides()
    ensures var s := Sys(NewNode(), NewNode(), true); s.primary == NewNode() == s.backup && s.up
  {
  }

  lemma {:induction false} EmptyAppend(rs: seq<Record>)
    ensures [] + rs == rs
  {
  }

  lemma {:induction false} PendingTxn(n: nat, v: byte)
    ensures EndsPending(OK, UNAVAILABLE)
    ensures Txn([WholeBlock(n, v)]).(state := PENDING_REPLICATION) == OneBlock(n)
  {
    BlockTxn(n, v);
  }

  lemma {:induction false} PlacedNone(d: Disk, e: Disk, ps: seq<Piece>)
    requires Placed(d, e, ps, 0)
    ensures SameBlocks(e, d)
  {
    forall q | IsBlockName(q)
      ensures SameAt(e, d, q)
    {
      assert OldOrStaged(d, e, ps, 0, q);
    }
  }

  lemma {:induction false} BackupLogThen(b: Node, ps: seq<Piece>)
    requires |ps| == 1 && CleanPieces(ps) && Present(b.disk, ps) && b.log == []
    ensures BackupAfter(b, "5", ps, DuringCommit(0)).log == [Start("5", Movs(ps))]
  {
    BackupStops(b, "5", ps, DuringCommit(0));
    hide BackupAfter, Exec, PrepareOps, CommitOps, Movs, Paths;
    BackupLogAt(b, "5", ps, 5);
    assert Logged("5", ps, 5) == [Start("5", Movs(ps))];
    assert BackupSteps("5", ps) == PrepareOps("5", ps) + CommitOps("5", Paths(ps));
  }

  lemma {:induction false} WriteIsSafe(n: Node, id: string, block: nat, v: byte, prepare: Status, commit: Status)
    requires SafeServer(n) && IsId(id) && BlockPath(block) in n.disk
    ensures SafeServer(Exec(n, WriteOps(n.disk, id, [WholeBlock(block, v)], prepare, commit)))
  {
    var ps := [WholeBlock(block, v)];
    CleanBlock(block, v);
    hide SafeServer, WriteOps, Exec, WholeBlock, IsId, BlockPath;
    ServingIsDecent(n.disk, id, ps, prepare, commit);
    DecentRun(n, ServeOps(n.disk, id, ps, prepare, commit));
  }

  lemma {:induction false} StartedOnly(id: string, movs: seq<(string, string)>)
    ensures StateOf([Start(id, movs)], id) == START && Ids([Start(id, movs)]) == {id}
  {
    assert [Start(id, movs)][..0] == [];
  }

  lemma {:induction false} OneOwedListed(kv: Kv)
    requires kv == map["5" := OneBlock(0)]
    ensures Lists(["5"], PendingIds(kv)) && PendingOk(kv)
  {
    BlockPathIsBlockName(0);
    hide BlockPath;
    assert PendingIds(kv) == {"5"};
  }

  lemma {:induction false} OneLogged(log: seq<Record>, movs: seq<(string, string)>)
    requires log == [Start("5", movs)]
    ensures Lists(["5"], Summary(log).Keys) && Requested(Summary(log), ["5"]) == ["5"]
  {
    StartedOnly("5", movs);
    hide StateOf, NamesOf, Ids;
    assert Summary(log).Keys == {"5"};
    assert NotCommittedHere(Summary(log), "5");
    hide Summary;
    assert ["5"][..0] == [];
  }

  /** The backup's recovery can run, and asks for that write. */
  lemma {:induction false} AsksForIt(s: Sys, movs: seq<(string, string)>)
    requires s.primary.kv == map["5" := OneBlock(0)] && s.backup.log == [Start("5", movs)] && LogOk(s.backup.log)
    ensures RecoveryRun(s.backup, s.primary, ["5"], ["5"])
    ensures Requested(Summary(s.backup.log), ["5"]) == ["5"] && PendingOk(s.primary.kv)
  {
    OneOwedListed(s.primary.kv);
    OneLogged(s.backup.log, movs);
    hide Lists, PendingIds, Summary, ParsedLog, LogOk, Requested, PendingOk, OneBlock;
    ParsedLogIsSummary(s.backup);
  }

  /** What is pulled is the whole block. */
  lemma {:induction false} PulledWholeBlock(b: Node, peer: Node, beyond: nat -> Bytes)
    requires peer.kv == map["5" := OneBlock(0)] && Lists(["5"], PendingIds(peer.kv)) && PendingOk(peer.kv)
    requires Requested(Summary(b.log), ["5"]) == ["5"]
    requires BlockPath(0) in peer.disk && peer.disk[BlockPath(0)] == Filled(1) && BlockPath(0) in b.disk && b.disk[BlockPath(0)] == []
    ensures var e := Exec(b, PullOps(Summary(b.log), peer, ["5"], beyond)).disk;
            && BlockPath(0) in e && e[BlockPath(0)] == Filled(1)
            && forall q :: IsBlockName(q) && q != BlockPath(0) ==> SameAt(e, b.disk, q)
  {
    var e := Exec(b, PullOps(Summary(b.log), peer, ["5"], beyond)).disk;
    hide Exec, PullOps, Summary, Requested, BlockPath, Lists, PendingOk, PendingIds, Filled, Window, InMemory, CString, Overwrite;
    PulledFile(Summary(b.log), b, peer, ["5"], beyond, 0);
    FilledPatch(1, beyond(0));
    forall q | IsBlockName(q) && q != BlockPath(0)
      ensures SameAt(e, b.disk, q)
    {
      PulledElsewhere(Summary(b.log), b, peer, ["5"], beyond, q);
    }
  }

  lemma {:induction false} FilledPatch(v: byte, behind: Bytes)
    requires v != 0
    ensures var w := Window(Filled(v), 0, BLOCK_SIZE);
            && w == Filled(v) && |w| == BLOCK_SIZE && 0 !in w
            && Overwrite([], InMemory(CString(w), |w|, behind), 0) == Filled(v)
  {
    var w := Window(Filled(v), 0, BLOCK_SIZE);
    assert w == Filled(v);
    NoZero(v);
    PatchIsWhole(w, behind);
    assert Overwrite([], w, 0) == w;
  }

  lemma {:induction false} RecoveryKeepsTable(n: Node, kv: Kv, log: seq<Record>, ops: seq<Op>)
    requires RecoveryOps(kv, log, ops)
    ensures Exec(n, ops).kv == n.kv
  {
    if ops != [] {
      RecoveryKeepsTable(n, kv, log, ops[..|ops| - 1]);
      assert RecoveryOp(kv, log, ops[|ops| - 1]);
    }
  }

  lemma {:induction false} TableAfterRecovery(s: Sys, ids: seq<string>, order: seq<string>, beyond: nat -> Bytes, steps: nat)
    requires Shape(s) && RecoveryRun(s.backup, s.primary, ids, order) && s.backup.kv == map[]
    ensures AfterRecovery(s, ids, order, beyond, steps).backup.kv == map[]
  {
    var xs := RecoverOps(ParsedLog(s.backup), s.primary, ids, order, beyond);
    var k := Min(steps, |xs|);
    BackupRecoverySteps(s.backup, s.primary, ids, order, beyond);
    SplitPrefix(xs, k);
    ExecBothSplits(Pair(s.backup, s.primary), xs[..k]);
    hide Exec, RecoverOps, ParsedLog, HereOps, ThereOps, RecoveryOp, Shape;
    RecoveryKeepsTable(s.backup, s.primary.kv, s.backup.log, HereOps(xs[..k]));
  }

  lemma {:induction false} SameBlocksByPath(d: Disk, e: Disk, p: string, b: Disk)
    requires p in d && p in e && d[p] == e[p]
    requires forall q :: IsBlockName(q) && q != p ==> SameAt(d, b, q) && SameAt(e, b, q)
    ensures SameBlocks(d, e)
  {
  }

  lemma {:induction false} ElsewhereToo(e: Disk, d: Disk, b: Disk, p: string)
    requires (forall q :: IsBlockName(q) && q != p ==> SameAt(e, d, q)) && SameBlocks(d, b)
    ensures forall q :: IsBlockName(q) && q != p ==> SameAt(e, b, q)
  {
    forall q | IsBlockName(q) && q != p
      ensures SameAt(e, b, q)
    {
      assert SameAt(d, b, q);
    }
  }

  /** Once the backup has recovered, the replicas agree. */
  lemma {:induction false} AfterCatchingUp(s: Sys, beyond: nat -> Bytes, steps: nat) returns (t: Sys)
    requires Inv(s) && !s.up && s.primary.kv == map["5" := OneBlock(0)] && s.backup.kv == map[]
    requires BlockPath(0) in s.primary.disk && s.primary.disk[BlockPath(0)] == Filled(1)
    requires forall q :: IsBlockName(q) && q != BlockPath(0) ==> SameAt(s.primary.disk, NewStorage(), q)
    requires SameBlocks(s.backup.disk, NewStorage()) && s.backup.log == [Start("5", Movs([WholeBlock(0, 1)]))]
    requires steps == |RecoverOps(ParsedLog(s.backup), s.primary, ["5"], ["5"], beyond)|
    ensures var e := BackupRecover(["5"], ["5"], beyond, steps); Possible(s, e) && t == Step(s, e)
    ensures t.primary == s.primary && t.backup.kv == map[] && Shape(t) && SameBlocks(t.primary.disk, t.backup.disk)
  {
    var e := BackupRecover(["5"], ["5"], beyond, steps);
    t := Step(s, e);
    var d := Exec(s.backup, PullOps(Summary(s.backup.log), s.primary, ["5"], beyond)).disk;
    hide *;
    InvHolds(s);
    LogIsOk(s);
    AsksForIt(s, Movs([WholeBlock(0, 1)]));
    RecoverStep(s, beyond, steps);
    FullRecovery(s, ["5"], ["5"], beyond, steps);
    RecoveryKeepsShape(s, ["5"], ["5"], beyond, steps);
    TableAfterRecovery(s, ["5"], ["5"], beyond, steps);
    FewBlocks();
    NewBlock(0);
    SameBlocksAt(s.backup.disk, NewStorage(), BlockPath(0));
    PulledWholeBlock(s.backup, s.primary, beyond);
    ElsewhereToo(d, s.backup.disk, NewStorage(), BlockPath(0));
    BothElsewhere(s.primary.disk, d, NewStorage(), BlockPath(0));
    SameBlocksByPath(s.primary.disk, d, BlockPath(0), NewStorage());
    SymmetricBlocks(t.backup.disk, d);
    SameBlocksTrans(s.primary.disk, d, t.backup.disk);
  }

  lemma {:induction false} BothElsewhere(d: Disk, e: Disk, b: Disk, p: string)
    requires forall q :: IsBlockName(q) && q != p ==> SameAt(d, b, q)
    requires forall q :: IsBlockName(q) && q != p ==> SameAt(e, b, q)
    ensures forall q :: IsBlockName(q) && q != p ==> SameAt(d, b, q) && SameAt(e, b, q)
  {
  }

  lemma {:induction false} LogIsOk(s: Sys)
    requires Shape(s)
    ensures LogOk(s.backup.log)
  {
  }

  lemma {:induction false} RecoverStep(s: Sys, beyond: nat -> Bytes, steps: nat)
    requires !s.up && RecoveryRun(s.backup, s.primary, ["5"], ["5"])
    ensures var e := BackupRecover(["5"], ["5"], beyond, steps);
            && Possible(s, e) && Step(s, e) == AfterRecovery(s, ["5"], ["5"], beyond, steps)
            && Lists(["5"], PendingIds(s.primary.kv))
  {
    hide AfterRecovery, ParsedLog;
  }

  lemma {:induction false} ThreeRecords(movs: seq<(string, string)>)
    ensures var log := [Start("5", movs), ReplInit("5"), Pending("5")];
            && StateOf(log, "5") == RPC_INIT && "5" in Ids(log) && "7" !in Ids(log)
            && NamesOf(log, "5") == Flatten(movs) + [] + NamesIn(Pending("5"))
  {
    var log, two := [Start("5", movs), ReplInit("5"), Pending("5")], [Start("5", movs), ReplInit("5")];
    assert log[..2] == two && two[..1] == [Start("5", movs)] && two[..1][..0] == [];
    assert log[1] in log;
    hide Flatten;
    assert NamesOf([Start("5", movs)], "5") == Flatten(movs);
    assert NamesOf(two, "5") == Flatten(movs) + [];
    assert StateOf(two, "5") == RPC_INIT;
  }

  lemma {:induction false} UnfinishedThen(path: string, ps: seq<Piece>)
    requires |ps| == 1 && ps[0].path == path
    ensures Unfinished([Start("5", Movs(ps)), ReplInit("5"), Pending("5")], path)
    ensures "7" !in Ids([Start("5", Movs(ps)), ReplInit("5"), Pending("5")])
  {
    assert Flatten(Movs(ps))[1] == path;
    hide Flatten, Movs, StateOf, NamesOf, Ids;
    ThreeRecords(Movs(ps));
    assert path in Flatten(Movs(ps));
  }

  lemma {:induction false} HarmFrom(p: Node, b: Node, log: seq<Record>)
    requires BlockPath(0) in p.disk && p.disk[BlockPath(0)] == Filled(1) && Unfinished(p.log, BlockPath(0))
    requires Present(p.disk, [WholeBlock(0, 2)])
    ensures !Harmless(p, b, [WholeBlock(0, 2)])
  {
    BlockPathIsBlockName(0);
    var c := Overwrite(Filled(1), Filled(2), 0);
    assert ByteAt(c, 0) == 2 && ByteAt(Filled(1), 0) == 1;
    hide BlockPath, Filled, Overwrite, Unfinished;
    assert [WholeBlock(0, 2)][0].path == BlockPath(0);
  }

  /** After such a run the replicas agree, and the next write of that block is not harmless: `HarmIsDone` applies. */
  lemma {:induction false} HarmfulReplicas(beyond: nat -> Bytes) returns (steps: nat)
    ensures PossibleRun(NewServers(), CommitMissed(beyond, steps))
    ensures var s, ps := RunEvents(NewServers(), CommitMissed(beyond, steps)), PiecesOf(0, Filled(2));
            Replicas(s.primary, s.backup, "7", ps) && Present(s.primary.disk, ps) && !Harmless(s.primary, s.backup, ps)
  {
    hide *;
    var s1 := AfterCommitMissed();
    steps := |RecoverOps(ParsedLog(s1.backup), s1.primary, ["5"], ["5"], beyond)|;
    var s := AfterCatchingUp(s1, beyond, steps);
    CommitMissedIs(beyond, steps);
    RunOfTwo(NewServers(), BlockWrite("5", 0, 1, DuringCommit(0)), BackupRecover(["5"], ["5"], beyond, steps));
    FewBlocks();
    ShortIds();
    ShapeSides(s);
    SafeParts(s.primary);
    PathOf(0, 1);
    UnfinishedThen(BlockPath(0), [WholeBlock(0, 1)]);
    ReplicasFrom(s.primary, s.backup, "7", 0, 2);
    HarmFrom(s.primary, s.backup, s.primary.log);
    BlockWritePieces(0, 2);
    assert 0 * BLOCK_SIZE == 0;
  }

  lemma {:induction false} PathOf(n: nat, v: byte)
    ensures |[WholeBlock(n, v)]| == 1 && [WholeBlock(n, v)][0].path == BlockPath(n)
  {
  }

  lemma {:induction false} CommitMissedIs(beyond: nat -> Bytes, steps: nat)
    ensures CommitMissed(beyond, steps) == [BlockWrite("5", 0, 1, DuringCommit(0)), BackupRecover(["5"], ["5"], beyond, steps)]
  {
  }

  lemma {:induction false} ShapeSides(s: Sys)
    requires Shape(s)
    ensures Short(s.primary.disk) && TempsSmall(s.primary.disk) && Short(s.backup.disk) && TempsSmall(s.backup.disk)
    ensures Sane(s.backup.disk)
  {
  }

  lemma {:induction false} SafeParts(n: Node)
    requires SafeServer(n)
    ensures LogOk(n.log) && Sane(n.disk)
  {
  }

  // ----- A recovery that must not be cut short -----

  /** The old primary has stopped right after the REPL_INIT record of a write to the last block, which the other server
      had prepared; that one takes over. */
  ghost function TakenOver(): Sys {
    var ps := PiecesOf(LAST * BLOCK_SIZE, Filled(1));
    Sys(BackupAt(NewNode(), "5", ps, HasPrepared), PrimaryAt(NewNode(), "5", ps, 7), false)
  }

  /** It completes a write of that block alone, and refuses one that would go beyond it. */
  function WhileAlone(): seq<Event> {
    [BlockWrite("7", LAST, 3, NoFault), StraddlingWrite("8", LAST, 2)]
  }

  lemma {:induction false} StoppedHolds() returns (n: Node)
    ensures n == TakenOver().backup && SafeServer(n) && BlockPath(LAST) in n.disk
    ensures n.log == [Start("5", Movs([WholeBlock(LAST, 1)])), ReplInit("5")]
  {
    var ps := [WholeBlock(LAST, 1)];
    n := PrimaryAt(NewNode(), "5", ps, 7);
    hide *;
    LastBlocks();
    FewBlocks();
    ShortIds();
    NewBlock(LAST);
    NewNodeHolds();
    NewReplicas("5", LAST, 1);
    TakenOverIs();
    StopIsSafe(ps);
    LogAt(NewNode(), "5", ps, 7);
    RecordsByThen(ps);
    PrimaryAtCrash(NewNode(), NewNode(), "5", ps, 7);
    NamesOfInstall(NewStorage(), ps[..Installed(|ps|, OK, 7)], BlockPath(LAST));
    SameBlocksAt(n.disk, Install(NewStorage(), ps[..Installed(|ps|, OK, 7)]), BlockPath(LAST));
  }

  lemma {:induction false} TakenOverIs()
    ensures var ps := PiecesOf(LAST * BLOCK_SIZE, Filled(1));
            TakenOver() == Sys(BackupAt(NewNode(), "5", ps, HasPrepared), PrimaryAt(NewNode(), "5", ps, 7), false)
    ensures TakenOver().backup == PrimaryAt(NewNode(), "5", PiecesOf(LAST * BLOCK_SIZE, Filled(1)), 7)
  {
  }

  lemma {:induction false} RecordsByThen(ps: seq<Piece>)
    requires |ps| == 1
    ensures RecordCount(Bookkept(|ps|, 7)) == 2
    ensures [] + AddedRecords("5", ps, 2) == [Start("5", Movs(ps)), ReplInit("5")]
  {
    hide Movs;
  }

  lemma {:induction false} StopIsSafe(ps: seq<Piece>)
    requires ps == [WholeBlock(LAST, 1)] && Present(NewNode().disk, ps)
    ensures SafeServer(PrimaryAt(NewNode(), "5", ps, 7))
  {
    ShortIds();
    NewNodeHolds();
    CleanBlock(LAST, 1);
    StepsAreStructured(NewNode(), "5", ps);
    hide NewNode, IsId, BlockPath, PiecesOk, CleanPieces, WholeBlock, Exec, WriteOps, Sane, LogOk, Decent;
    ServingIsDecent(NewNode().disk, "5", ps, OK, OK);
    var ops := WriteSteps(NewNode(), "5", ps);
    assert ops == ServeOps(NewNode().disk, "5", ps, OK, OK);
    DecentRun(NewNode(), ops[..7]);
  }

  lemma {:induction false} PreparedHolds() returns (n: Node)
    ensures n == TakenOver().primary && SafeServer(n) && Short(n.disk) && TempsSmall(n.disk)
    ensures SameBlocks(n.disk, NewStorage()) && n.kv == map["5" := Txn([WholeBlock(LAST, 1)])]
  {
    var ps := [WholeBlock(LAST, 1)];
    n := Exec(NewNode(), PrepareOps("5", ps));
    hide *;
    LastBlocks();
    ShortIds();
    NewBlock(LAST);
    NewNodeHolds();
    NewReplicas("5", LAST, 1);
    PreparedIs(ps);
    CleanBlock(LAST, 1);
    CleanArePieces(ps);
    PrepareLeavesTemps(NewNode(), "5", ps);
    KvAfterPrepare(NewNode(), "5", ps);
    FirstAdded(ps);
    PrepareIsSmall("5", ps);
    StaysSmall(NewNode(), PrepareOps("5", ps));
    ShortWhenSame(n.disk, NewStorage());
    WritingIsDecent("5", ps, OK, OK);
    DecentRun(NewNode(), PrepareOps("5", ps));
  }

  lemma {:induction false} FirstAdded(ps: seq<Piece>)
    ensures Added(map[], "5", Txn(ps)) == map["5" := Txn(ps)]
  {
  }

  lemma {:induction false} PreparedIs(ps: seq<Piece>)
    requires PiecesOf(LAST * BLOCK_SIZE, Filled(1)) == ps
    ensures TakenOver().primary == Exec(NewNode(), PrepareOps("5", ps)) && !TakenOver().up
  {
  }

  lemma {:induction false} ShortWhenSame(d: Disk, e: Disk)
    requires SameBlocks(d, e) && Short(e)
    ensures Short(d)
  {
    forall p | IsBlockName(p) && p in d
      ensures |d[p]| <= BLOCK_SIZE
    {
      assert SameAt(d, e, p);
    }
  }

  /** The other server then: a whole block that it owes, and beside it a leftover of the same length with other
      bytes. */
  lemma {:induction false} PeerHolds() returns (peer: Node)
    ensures peer == RunEvents(TakenOver(), WhileAlone()).primary && SafeServer(peer)
    ensures RunEvents(TakenOver(), WhileAlone()).backup == TakenOver().backup
    ensures BlockPath(LAST) in peer.disk && peer.disk[BlockPath(LAST)] == Filled(3)
    ensures Tmp(BlockPath(LAST)) in peer.disk
    ensures peer.disk[Tmp(BlockPath(LAST))] == Staged(StaleOf(peer.disk, BlockPath(LAST)), Filled(3), Filled(2)[..BLOCK_SIZE - 1], 1)
    ensures peer.kv == map["5" := Txn([WholeBlock(LAST, 1)])]["7" := OneBlock(LAST)]
  {
    var s1, e7, e8 := TakenOver(), BlockWrite("7", LAST, 3, NoFault), StraddlingWrite("8", LAST, 2);
    hide *;
    var p1 := PreparedHolds();
    LastBlocks();
    ShortIds();
    NewBlock(LAST);
    NewBlock(BLOCKS);
    FewBlocks();
    SameBlocksAt(p1.disk, NewStorage(), BlockPath(LAST));
    SameBlocksAt(p1.disk, NewStorage(), BlockPath(BLOCKS));
    NotUp();
    MissedStep(s1, "7", LAST, 3);
    var s2 := Step(s1, e7);
    BlockTxn(LAST, 3);
    WholeIsClean(p1.disk, LAST, 3);
    PrimaryPlaces(p1, "7", [WholeBlock(LAST, 3)], UNAVAILABLE, OK);
    OtherId(p1.kv, Txn([WholeBlock(LAST, 1)]));
    KvAfterWrite(p1, "7", [WholeBlock(LAST, 3)], UNAVAILABLE, OK);
    WholePlaced(p1.disk, s2.primary.disk, LAST, 3);
    WriteIsSafe(p1, "7", LAST, 3, UNAVAILABLE, OK);
    StillMissing(s2.primary.disk, p1.disk);
    peer := SecondAlone(s2);
    RunOfTwoSteps(s1, e7, e8);
    WhileAloneIs();
  }

  lemma {:induction false} NotUp()
    ensures !TakenOver().up
  {
  }

  lemma {:induction false} OtherId(kv: Kv, txn: TxnData)
    requires kv == map["5" := txn]
    ensures "7" !in kv
  {
  }

  lemma {:induction false} StillMissing(e: Disk, d: Disk)
    requires BlockPath(BLOCKS) !in d && forall q :: IsBlockName(q) && q != BlockPath(LAST) ==> SameAt(e, d, q)
    ensures BlockPath(BLOCKS) !in e
  {
    LastBlocks();
    DistinctBlocks(BLOCKS, LAST);
    hide BlockPath;
    assert SameAt(e, d, BlockPath(BLOCKS));
  }

  lemma {:induction false} WhileAloneIs()
    ensures WhileAlone() == [BlockWrite("7", LAST, 3, NoFault), StraddlingWrite("8", LAST, 2)]
  {
  }

  lemma {:induction false} RunOfTwoSteps(s: Sys, a: Event, b: Event)
    ensures RunEvents(s, [a, b]) == Step(Step(s, a), b)
  {
    hide Step;
    assert [a, b][..1] == [a] && [a][..0] == [];
    assert RunEvents(s, [a]) == Step(s, a);
  }

  lemma {:induction false} SecondAlone(s: Sys) returns (peer: Node)
    requires SafeServer(s.primary) && TempsSmall(s.primary.disk)
    requires BlockPath(LAST) in s.primary.disk && s.primary.disk[BlockPath(LAST)] == Filled(3) && BlockPath(BLOCKS) !in s.primary.disk
    ensures var t := Step(s, StraddlingWrite("8", LAST, 2)); peer == t.primary && t.backup == s.backup
    ensures SafeServer(peer) && peer.kv == s.primary.kv
    ensures BlockPath(LAST) in peer.disk && peer.disk[BlockPath(LAST)] == Filled(3) && Tmp(BlockPath(LAST)) in peer.disk
    ensures peer.disk[Tmp(BlockPath(LAST))] == Staged(StaleOf(peer.disk, BlockPath(LAST)), Filled(3), Filled(2)[..BLOCK_SIZE - 1], 1)
  {
    var n, ps := s.primary, StraddlingPieces(LAST, 2);
    RefusedStep(s, "8", 2);
    peer := Exec(n, ServeOps(n.disk, "8", ps, OK, OK));
    FirstData();
    hide *;
    Leftover(n, 2);
    ShortIds();
    StraddlingWritePieces(LAST, 2);
    CleanArePieces(ps);
    ServingIsDecent(n.disk, "8", ps, OK, OK);
    DecentRun(n, ServeOps(n.disk, "8", ps, OK, OK));
    LastBlocks();
    BlockPathIsBlockName(LAST);
    SameBlocksAt(peer.disk, n.disk, BlockPath(LAST));
    TempIsStale(peer.disk, BlockPath(LAST));
    StaleIsSmall(n.disk, BlockPath(LAST));
    StagedTwice(StaleOf(n.disk, BlockPath(LAST)));
  }

  lemma {:induction false} FirstData()
    ensures StraddlingPieces(LAST, 2)[0].data == Filled(2)[..BLOCK_SIZE - 1] && StraddlingPieces(LAST, 2) != []
  {
    hide BlockPath, Filled;
  }

  lemma {:induction false} TempIsStale(d: Disk, p: string)
    requires Tmp(p) in d
    ensures StaleOf(d, p) == d[Tmp(p)]
  {
  }

  /** Over a whole block, the leftover of a leftover is the leftover. */
  lemma {:induction false} StagedTwice(stale: Bytes)
    requires |stale| <= BLOCK_SIZE
    ensures var data := Filled(2)[..BLOCK_SIZE - 1];
            var c := Staged(stale, Filled(3), data, 1);
            |c| == BLOCK_SIZE && Staged(c, Filled(3), data, 1) == c
  {
    var data := Filled(2)[..BLOCK_SIZE - 1];
    var c := Staged(stale, Filled(3), data, 1);
    var again := Staged(c, Filled(3), data, 1);
    StagedLength(stale, Filled(3), data, 1);
    StagedLength(c, Filled(3), data, 1);
    hide Staged;
    forall i | 0 <= i < |again|
      ensures ByteAt(again, i) == ByteAt(c, i)
    {
      StagedByte(stale, Filled(3), data, 1, i);
      StagedByte(c, Filled(3), data, 1, i);
    }
    SameBytes(again, c);
  }

  lemma {:induction false} LeftoverBytes(stale: Bytes, c: Bytes)
    requires c == Staged(stale, Filled(3), Filled(2)[..BLOCK_SIZE - 1], 1)
    ensures var w := Window(c, 0, BLOCK_SIZE); 0 !in w && w[1] == 2
  {
    var data, w := Filled(2)[..BLOCK_SIZE - 1], Window(c, 0, BLOCK_SIZE);
    hide Staged;
    forall i | 0 <= i < BLOCK_SIZE
      ensures w[i] == if i == 0 then 3 else 2
    {
      StagedByte(stale, Filled(3), data, 1, i);
      assert w[i] == ByteAt(c, i);
    }
  }

  lemma {:induction false} UnfinishedSummary(ps: seq<Piece>)
    requires |ps| == 1
    ensures var log := [Start("5", Movs(ps)), ReplInit("5")];
            Summary(log) == map["5" := LogData(RPC_INIT, Flatten(Movs(ps)))] && ps[0].path in Flatten(Movs(ps))
  {
    var log := [Start("5", Movs(ps)), ReplInit("5")];
    assert log == [] + AddedRecords("5", ps, 2);
    OwnEntry([], "5", ps, 2);
    assert Flatten(Movs(ps))[1] == ps[0].path;
    hide Flatten, Movs, StateOf, NamesOf;
    assert Ids(log) == {"5"} by {
      assert log[0] in log;
    }
  }

  /** Two servers about to recover, with data free of zero bytes, and not steady. */
  lemma {:induction false} UnsteadyState()
    ensures var s := RunEvents(TakenOver(), WhileAlone());
            && AboutToRecover(s.backup, s.primary, ["7"], ["5"], ["5"])
            && WholeFiles(s.backup, s.primary, ["7"]) && !Steady(s.backup, s.primary, ["7"])
  {
    hide *;
    var n := StoppedHolds();
    var peer := PeerHolds();
    LeftoverBytes(StaleOf(peer.disk, BlockPath(LAST)), peer.disk[Tmp(BlockPath(LAST))]);
    PathOf(LAST, 1);
    UnfinishedSummary([WholeBlock(LAST, 1)]);
    SafeParts(n);
    SafeParts(peer);
    ParsedLogIsSummary(n);
    TxnStarts([WholeBlock(LAST, 1)]);
    FilledPatch(3, []);
    FilledAt(3);
    NoZero(3);
    AboutFromFacts(n, peer, Txn([WholeBlock(LAST, 1)]), Flatten(Movs([WholeBlock(LAST, 1)])));
    OwesFirst(n, peer, Flatten(Movs([WholeBlock(LAST, 1)])));
    WholeAndUnsteady(n, peer, Txn([WholeBlock(LAST, 1)]), Flatten(Movs([WholeBlock(LAST, 1)])));
  }

  lemma {:induction false} FilledAt(v: byte)
    ensures Filled(v)[1] == v
  {
  }

  lemma {:induction false} AboutFromFacts(n: Node, peer: Node, txn: TxnData, names: seq<string>)
    requires LogOk(n.log) && Sane(n.disk) && Sane(peer.disk)
    requires ParsedLog(n) == map["5" := LogData(RPC_INIT, names)]
    requires peer.kv == map["5" := txn]["7" := OneBlock(LAST)] && txn.state == START
    ensures AboutToRecover(n, peer, ["7"], ["5"], ["5"])
  {
    BlockPathIsBlockName(LAST);
    hide BlockPath, LogOk, Sane, ParsedLog;
    assert PendingIds(peer.kv) == {"7"};
  }

  lemma {:induction false} OwesFirst(n: Node, peer: Node, names: seq<string>)
    requires Summary(n.log) == map["5" := LogData(RPC_INIT, names)]
    ensures Streamed(n.log, ["7"]) == ["7"]
  {
    hide Summary;
    assert ["7"][..0] == [];
    assert NotCommittedHere(Summary(n.log), "7");
  }

  lemma {:induction false} WholeAndUnsteady(n: Node, peer: Node, txn: TxnData, names: seq<string>)
    requires Summary(n.log) == map["5" := LogData(RPC_INIT, names)] && BlockPath(LAST) in names && Streamed(n.log, ["7"]) == ["7"]
    requires peer.kv == map["5" := txn]["7" := OneBlock(LAST)] && txn.state == START
    requires BlockPath(LAST) in n.disk && BlockPath(LAST) in peer.disk && Tmp(BlockPath(LAST)) in peer.disk
    requires var w, v := Window(peer.disk[BlockPath(LAST)], 0, BLOCK_SIZE), Window(peer.disk[Tmp(BlockPath(LAST))], 0, BLOCK_SIZE);
             0 !in w && 0 !in v && w[1] == 3 && v[1] == 2
    ensures WholeFiles(n, peer, ["7"]) && !Steady(n, peer, ["7"])
  {
    var p := BlockPath(LAST);
    BlockPathIsBlockName(LAST);
    CStringWhole(Window(peer.disk[p], 0, BLOCK_SIZE));
    CStringWhole(Window(peer.disk[Tmp(p)], 0, BLOCK_SIZE));
    hide BlockPath, Summary, Streamed, Window, CString, Tmp, IsBlockName;
    assert Marked(Summary(n.log), ["7"])["5"] == LogData(RPC_INIT, names);
    assert !CommittedIn(peer.kv, "5");
    assert OneBlock(LAST).originalFiles[0] == p;
    assert !SteadyFile(n, peer, ["7"], p, BLOCK_SIZE, 0);
  }

  /** Cut short once, this recovery ends with other blocks than in one go. */
  lemma {:induction false} UnsteadyRecovery(beyond: nat -> Bytes, beyond': nat -> Bytes)
    ensures var s := RunEvents(TakenOver(), WhileAlone());
            exists k :: !SameOutcome(Repeated(s.backup, s.primary, ["7"], ["5"], ["5"], beyond, beyond', k),
                                     Recovered(s.backup, s.primary, ["7"], ["5"], beyond))
  {
    var s := RunEvents(TakenOver(), WhileAlone());
    hide *;
    UnsteadyState();
    IdempotentExactly(s.backup, s.primary, ["7"], ["5"], ["5"], beyond, beyond');
  }
}
