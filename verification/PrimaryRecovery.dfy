/** A primary that crashes inside one write and recovers while the backup stays up: do the replicas agree? */
module PrimaryRecovery {
  import opened Storage
  import opened WriteAheadLog
  import opened LogParser
  import opened KeyValueStore
  import opened Nodes
  import opened Effects
  import opened CrashAtomicity
  import opened BlockServer
  import opened Recovery
  import opened RecoverySafety
  import opened WriteAheadAgreement
  import opened PeerCommits

  // ----- How far the write has come -----

  datatype BackupStage = NotAsked | HasPrepared | HasCommitted

  /** The backup's stage when the primary stops after `j` of its own steps, `m` being the number of files.
      A request may have been answered or not when the primary stops right at its call. */
  predicate Reached(m: nat, j: nat, stage: BackupStage) {
    && j <= 4 * m + 6
    && (j < 3 * m + 2 ==> stage == NotAsked)
    && (j == 3 * m + 2 ==> stage != HasCommitted)
    && (3 * m + 2 < j < 4 * m + 4 ==> stage == HasPrepared)
    && (j == 4 * m + 4 ==> stage != NotAsked)
    && (4 * m + 4 < j ==> stage == HasCommitted)
  }

  /** From the first rename to the RPC_INIT record. */
  predicate InWindow(m: nat, j: nat) {
    3 * m + 2 < j <= 4 * m + 2
  }

  function WriteSteps(p: Node, id: string, ps: seq<Piece>): seq<Op> {
    WriteOps(p.disk, id, ps, OK, OK)
  }

  function PrimaryAt(p: Node, id: string, ps: seq<Piece>, j: nat): Node {
    if j <= |WriteSteps(p, id, ps)| then Crashed(Exec(p, WriteSteps(p, id, ps)[..j])) else p
  }

  function BackupAt(b: Node, id: string, ps: seq<Piece>, stage: BackupStage): Node {
    match stage
    case NotAsked => b
    case HasPrepared => Exec(b, PrepareOps(id, ps))
    case HasCommitted => Exec(Exec(b, PrepareOps(id, ps)), CommitOps(id, Paths(ps)))
  }

  /** The tables never say COMMIT (`NeverCommittedInTable`). */
  ghost predicate NoneCommitted(kv: Kv) {
    forall z :: !CommittedIn(kv, z)
  }

  /** Replicas that agree, and a write about to be made under a fresh id. */
  ghost predicate Replicas(p: Node, b: Node, id: string, ps: seq<Piece>) {
    && ps != [] && PiecesOk(ps) && (forall i :: 0 <= i < |ps| ==> Clean(ps[i].path))
    && Present(p.disk, ps) && Present(b.disk, ps) && Reusable(p.disk, ps) && Reusable(b.disk, ps)
    && SameBlocks(p.disk, b.disk) && Sane(p.disk) && Sane(b.disk)
    && LogOk(p.log) && IsId(id) && id !in Ids(p.log)
    && id !in b.kv && PendingIds(b.kv) == {} && NoneCommitted(b.kv)
  }

  /** A name in an earlier transaction that the log still shows as REPL_INIT, in particular in every one whose
      replication was left pending after `Prepare` had succeeded. */
  ghost predicate Unfinished(log: seq<Record>, name: string) {
    exists i :: i in Ids(log) && StateOf(log, i) == RPC_INIT && name in NamesOf(log, i)
  }

  /** Earlier transactions that the log shows as REPL_INIT cannot do harm: a temp file that the backup has for one
      of their blocks holds what the block holds, and the write changes nothing in such a block. */
  ghost predicate Harmless(p: Node, b: Node, ps: seq<Piece>)
    requires Present(p.disk, ps)
  {
    forall q :: IsBlockName(q) && Unfinished(p.log, q) ==>
      && (Tmp(q) in b.disk ==> q in b.disk && b.disk[Tmp(q)] == b.disk[q])
      && forall i :: 0 <= i < |ps| && ps[i].path == q ==> Overwrite(p.disk[q], ps[i].data, ps[i].off) == p.disk[q]
  }

  // ----- The log at each crash point -----

  function Bookkept(m: nat, j: nat): (k: nat)
    ensures k <= 6
  {
    if j <= 3 * m then 0
    else if j <= 3 * m + 2 then j - 3 * m
    else if j <= 4 * m + 2 then 2
    else if j <= 4 * m + 6 then j - 4 * m
    else 6
  }

  lemma {:induction false} CoreOfPrefix(files: seq<Op>, rest: seq<Op>, j: nat)
    requires OnlyFiles(files) && j <= |files| + |rest|
    ensures Core((files + rest)[..j]) == if j <= |files| then [] else Core(rest[..j - |files|])
  {
    if j <= |files| {
      assert (files + rest)[..j] == files[..j];
      CoreOfFiles(files[..j]);
    } else {
      assert (files + rest)[..j] == files + rest[..j - |files|];
      CoreConcat(files, rest[..j - |files|]);
      CoreOfFiles(files);
    }
  }

  lemma {:induction false} CoreOfSteps(begin: seq<Op>, rest: seq<Op>, j: nat)
    requires (forall i :: 0 <= i < |begin| ==> IsBookkeeping(begin[i])) && j <= |begin| + |rest|
    ensures Core((begin + rest)[..j]) == if j <= |begin| then begin[..j] else begin + Core(rest[..j - |begin|])
  {
    if j <= |begin| {
      assert (begin + rest)[..j] == begin[..j];
      CoreOfBookkeeping(begin[..j]);
    } else {
      assert (begin + rest)[..j] == begin + rest[..j - |begin|];
      CoreConcat(begin, rest[..j - |begin|]);
      CoreOfBookkeeping(begin);
    }
  }

  lemma {:induction false} StepsAreStructured(p: Node, id: string, ps: seq<Piece>)
    requires Present(p.disk, ps)
    ensures var begin := [Append(Start(id, Movs(ps))), KvAdd(id, Txn(ps))];
            var end := [Append(ReplInit(id)), KvSet(id, RPC_INIT), Append(Commit(id)), KvDrop(id)];
            && WriteSteps(p, id, ps) == StageOps(ps) + (begin + (MoveOps(Paths(ps)) + end))
            && WriteCore(id, ps, OK, OK) == begin + end
    ensures |WriteSteps(p, id, ps)| == 4 * |ps| + 6 && |StageOps(ps)| == 3 * |ps|
  {
    StageableAll(p.disk, ps);
    StageOpsTouchTemps(ps);
    var begin := [Append(Start(id, Movs(ps))), KvAdd(id, Txn(ps))];
    var a, b := [Append(ReplInit(id)), KvSet(id, RPC_INIT)], [Append(Commit(id)), KvDrop(id)];
    var stage, moves := StageOps(ps), MoveOps(Paths(ps));
    hide StageOps, MoveOps;
    assert (stage + begin) + ((moves + a) + b) == stage + (begin + (moves + (a + b)));
    assert a + b == [Append(ReplInit(id)), KvSet(id, RPC_INIT), Append(Commit(id)), KvDrop(id)];
  }

  lemma {:induction false} CoreOfParts(stage: seq<Op>, begin: seq<Op>, moves: seq<Op>, end: seq<Op>, m: nat, j: nat)
    requires OnlyFiles(stage) && OnlyFiles(moves) && |stage| == 3 * m && |moves| == m
    requires |begin| == 2 && |end| == 4 && forall i :: 0 <= i < |begin + end| ==> IsBookkeeping((begin + end)[i])
    requires j <= 4 * m + 6
    ensures Core((stage + (begin + (moves + end)))[..j]) == (begin + end)[..Bookkept(m, j)]
  {
    hide Core, OnlyFiles;
    var all := begin + end;
    assert forall i :: 0 <= i < 2 ==> begin[i] == all[i];
    assert forall i :: 0 <= i < 4 ==> end[i] == all[i + 2];
    CoreOfPrefix(stage, begin + (moves + end), j);
    if j > 3 * m {
      CoreOfSteps(begin, moves + end, j - 3 * m);
      if j <= 3 * m + 2 {
        assert begin[..j - 3 * m] == all[..j - 3 * m];
      } else {
        CoreOfPrefix(moves, end, j - 3 * m - 2);
        if j > 4 * m + 2 {
          CoreOfBookkeeping(end[..j - 4 * m - 2]);
          assert begin + end[..j - 4 * m - 2] == all[..j - 4 * m];
        } else {
          assert begin + [] == all[..2];
        }
      }
    }
  }

  lemma {:induction false} CoreAt(p: Node, id: string, ps: seq<Piece>, j: nat)
    requires Present(p.disk, ps) && j <= 4 * |ps| + 6
    ensures |WriteSteps(p, id, ps)| == 4 * |ps| + 6
    ensures Core(WriteSteps(p, id, ps)[..j]) == WriteCore(id, ps, OK, OK)[..Bookkept(|ps|, j)]
  {
    var begin := [Append(Start(id, Movs(ps))), KvAdd(id, Txn(ps))];
    var end := [Append(ReplInit(id)), KvSet(id, RPC_INIT), Append(Commit(id)), KvDrop(id)];
    StepsAreStructured(p, id, ps);
    StageOpsAreFiles(ps);
    CoreOfParts(StageOps(ps), begin, MoveOps(Paths(ps)), end, |ps|, j);
  }

  /** The records that the write has added by then. */
  function AddedRecords(id: string, ps: seq<Piece>, n: nat): seq<Record>
    requires n <= 3
  {
    [Start(id, Movs(ps)), ReplInit(id), Commit(id)][..n]
  }

  function RecordCount(k: nat): (n: nat)
    ensures n <= 3
  {
    if k == 0 then 0 else if k <= 2 then 1 else if k <= 4 then 2 else 3
  }

  lemma {:induction false} AddedOne(id: string, ps: seq<Piece>, n: nat)
    requires n < 3
    ensures AddedRecords(id, ps, n + 1)
            == AddedRecords(id, ps, n) + [if n == 0 then Start(id, Movs(ps)) else if n == 1 then ReplInit(id) else Commit(id)]
  {
  }

  /** Which steps of the bookkeeping append: the odd ones, in the order of the records. */
  lemma {:induction false} CoreStep(p: Node, id: string, ps: seq<Piece>, k: nat)
    requires 0 < k <= 6
    ensures |WriteCore(id, ps, OK, OK)| == 6
    ensures var op := WriteCore(id, ps, OK, OK)[k - 1];
            forall n: Node {:trigger Apply(n, op)} ::
              Apply(n, op).log == n.log + if k % 2 == 1 then [AddedRecords(id, ps, 3)[k / 2]] else []
  {
  }

  lemma {:induction false} LogAfterCore(p: Node, id: string, ps: seq<Piece>, k: nat)
    requires k <= 6
    ensures Exec(p, WriteCore(id, ps, OK, OK)[..k]).log == p.log + AddedRecords(id, ps, RecordCount(k))
  {
    hide Movs, WriteCore, Apply;
    var ops := WriteCore(id, ps, OK, OK);
    if k > 0 {
      CoreStep(p, id, ps, k);
      LogAfterCore(p, id, ps, k - 1);
      assert ops[..k] == ops[..k - 1] + [ops[k - 1]];
      ExecAppend(p, ops[..k - 1], ops[k - 1]);
    }
  }

  lemma {:induction false} LogAt(p: Node, id: string, ps: seq<Piece>, j: nat)
    requires Present(p.disk, ps) && j <= 4 * |ps| + 6
    ensures PrimaryAt(p, id, ps, j).log == p.log + AddedRecords(id, ps, RecordCount(Bookkept(|ps|, j)))
  {
    CoreAt(p, id, ps, j);
    CoreOfWrite(p.disk, id, ps, OK, OK);
    CoreDecides(p, WriteSteps(p, id, ps)[..j]);
    LogAfterCore(p, id, ps, Bookkept(|ps|, j));
  }

  // ----- The parsed log -----

  lemma {:induction false} OthersUnchanged(log: seq<Record>, id: string, ps: seq<Piece>, n: nat, other: string)
    requires other != id && n <= 3
    ensures StateOf(log + AddedRecords(id, ps, n), other) == StateOf(log, other)
    ensures NamesOf(log + AddedRecords(id, ps, n), other) == NamesOf(log, other)
    ensures other in Ids(log + AddedRecords(id, ps, n)) <==> other in Ids(log)
  {
    if n == 0 {
      assert log + AddedRecords(id, ps, 0) == log;
    } else {
      OthersUnchanged(log, id, ps, n - 1, other);
      AddedOne(id, ps, n - 1);
      var before, r := log + AddedRecords(id, ps, n - 1), AddedRecords(id, ps, n)[n - 1];
      hide AddedRecords, StateOf, NamesOf, NamesIn, StateIn, Movs;
      OneMoreRecord(before, r, other);
      assert log + AddedRecords(id, ps, n) == before + [r];
      assert NamesOf(log, other) + [] == NamesOf(log, other);
    }
  }

  lemma {:induction false} OwnEntry(log: seq<Record>, id: string, ps: seq<Piece>, n: nat)
    requires id !in Ids(log) && n <= 3
    ensures id in Ids(log + AddedRecords(id, ps, n)) <==> n > 0
    ensures NamesOf(log + AddedRecords(id, ps, n), id) == if n > 0 then Flatten(Movs(ps)) else []
    ensures StateOf(log + AddedRecords(id, ps, n), id) == if n <= 1 then START else if n == 2 then RPC_INIT else COMMIT
  {
    hide Flatten, Movs, StateOf, NamesOf;
    if n == 0 {
      assert log + AddedRecords(id, ps, 0) == log;
      UnknownId(log, id);
    } else {
      OwnEntry(log, id, ps, n - 1);
      AddedOne(id, ps, n - 1);
      var before, r := log + AddedRecords(id, ps, n - 1), AddedRecords(id, ps, n)[n - 1];
      hide AddedRecords;
      OneMoreRecord(before, r, id);
      assert log + AddedRecords(id, ps, n) == before + [r];
      assert [] + NamesIn(r) == NamesIn(r) && Flatten(Movs(ps)) + [] == Flatten(Movs(ps));
      assert r in before + [r];
    }
  }

  lemma {:induction false} LogStaysOk(log: seq<Record>, id: string, ps: seq<Piece>, n: nat)
    requires LogOk(log) && IsId(id) && PiecesOk(ps) && forall i :: 0 <= i < |ps| ==> Clean(ps[i].path)
    requires n <= 3
    ensures LogOk(log + AddedRecords(id, ps, n))
  {
  }

  // ----- The backup at each stage -----

  lemma {:induction false} DiskAfterCommit(n: Node, id: string, names: seq<string>)
    ensures Exec(n, CommitOps(id, names)).disk == Exec(n, MoveOps(names)).disk
  {
    RecordKeepsDisk(n, MoveOps(names), Commit(id), KvDrop(id));
  }

  lemma {:induction false} TempStaysAbsent(n: Node, ps: seq<Piece>, name: string)
    requires PiecesOk(ps) && Tmp(name) !in n.disk
    ensures Tmp(name) !in Exec(n, MoveOps(Paths(ps))).disk
  {
    var moves := MoveOps(Paths(ps));
    assert moves[..|ps|] == moves;
    TmpIsNotABlock(name);
    if i :| 0 <= i < |ps| && ps[i].path == name {
      MovesAt(n, ps, |ps|, i);
    } else {
      forall i | 0 <= i < |Paths(ps)|
        ensures Tmp(name) != Paths(ps)[i] && Tmp(name) != Tmp(Paths(ps)[i])
      {
        if Tmp(name) == Tmp(ps[i].path) {
          TmpInjective(name, ps[i].path);
        }
      }
      MovesElsewhere(n, Paths(ps), |ps|, Tmp(name));
    }
  }

  lemma {:induction false} KvAfterPrepare(b: Node, id: string, ps: seq<Piece>)
    ensures Exec(b, PrepareOps(id, ps)).kv == KeyValueStore.Added(b.kv, id, Txn(ps))
  {
    CoreOfPrepare(id, ps);
    CoreDecides(b, PrepareOps(id, ps));
    var s, k := Append(Start(id, Movs(ps))), KvAdd(id, Txn(ps));
    assert [s, k] == [s] + [k];
    ExecOne(b, s);
    ExecAppend(b, [s], k);
  }

  lemma {:induction false} NothingPending(b: Node, id: string, ps: seq<Piece>, stage: BackupStage)
    requires id !in b.kv && PendingIds(b.kv) == {} && NoneCommitted(b.kv)
    ensures PendingIds(BackupAt(b, id, ps, stage).kv) == {}
    ensures NoneCommitted(BackupAt(b, id, ps, stage).kv)
  {
    hide Exec, PrepareOps, CommitOps, Txn;
    KvAfterPrepare(b, id, ps);
    KvAfterCommit(Exec(b, PrepareOps(id, ps)), id, Paths(ps));
    var kv := BackupAt(b, id, ps, stage).kv;
    TxnStarts(ps);
    forall i | i in kv
      ensures kv[i].state != PENDING_REPLICATION
    {
      if i != id {
        assert i in b.kv && i !in PendingIds(b.kv);
      }
    }
    forall z
      ensures !CommittedIn(kv, z)
    {
      assert !CommittedIn(b.kv, z);
    }
  }

  lemma {:induction false} TxnStarts(ps: seq<Piece>)
    ensures Txn(ps).state == START
  {
  }

  lemma {:induction false} BlocksAreCreatable(ps: seq<Piece>)
    requires PiecesOk(ps)
    ensures forall i :: 0 <= i < |Paths(ps)| ==> Creatable(Paths(ps)[i])
  {
  }

  lemma {:induction false} StagedTempsExist(n: Node, b: Node, ps: seq<Piece>)
    requires Present(b.disk, ps) && Prepared(n.disk, b.disk, ps)
    ensures forall i :: 0 <= i < |ps| ==> Tmp(ps[i].path) in n.disk
  {
  }

  lemma {:induction false} BackupIsSane(b: Node, id: string, ps: seq<Piece>, stage: BackupStage)
    requires PiecesOk(ps) && Sane(b.disk)
    ensures Sane(BackupAt(b, id, ps, stage).disk)
  {
    hide Exec, PrepareOps, CommitOps, Sane, Creatable, CreatesOnly, PiecesOk;
    PrepareCreatesWell(id, ps);
    StaysSane(b, PrepareOps(id, ps));
    BlocksAreCreatable(ps);
    CommitCreatesWell(id, Paths(ps));
    StaysSane(Exec(b, PrepareOps(id, ps)), CommitOps(id, Paths(ps)));
  }

  lemma {:induction false} OtherName(ps: seq<Piece>, q: string)
    requires PiecesOk(ps) && IsBlockName(q) && forall i :: 0 <= i < |ps| ==> ps[i].path != q
    ensures forall i :: 0 <= i < |ps| ==> q != Tmp(ps[i].path) && Tmp(q) != ps[i].path && Tmp(q) != Tmp(ps[i].path)
  {
    forall i | 0 <= i < |ps|
      ensures q != Tmp(ps[i].path) && Tmp(q) != ps[i].path && Tmp(q) != Tmp(ps[i].path)
    {
      TmpIsNotABlock(ps[i].path);
      TmpIsNotABlock(q);
      if Tmp(q) == Tmp(ps[i].path) {
        TmpInjective(q, ps[i].path);
      }
    }
  }

  lemma {:induction false} HandlersLeave(b: Node, id: string, ps: seq<Piece>, stage: BackupStage, x: string)
    requires forall i :: 0 <= i < |ps| ==> x != ps[i].path && x != Tmp(ps[i].path)
    ensures SameAt(BackupAt(b, id, ps, stage).disk, b.disk, x)
  {
    var b1, moves, ops := Exec(b, PrepareOps(id, ps)), MoveOps(Paths(ps)), StageOps(ps);
    RecordKeepsDisk(b, ops, Start(id, Movs(ps)), KvAdd(id, Txn(ps)));
    DiskAfterCommit(b1, id, Paths(ps));
    assert ops[..|ops|] == ops && moves[..|ps|] == moves;
    hide Exec, CommitOps, StageOps, MoveOps, Tmp;
    StagingLeaves(b, ps, |ops|, x);
    MovesElsewhere(b1, Paths(ps), |ps|, x);
  }

  /** A block that the write does not touch, and its temp file. */
  lemma {:induction false} BackupElsewhere(b: Node, id: string, ps: seq<Piece>, stage: BackupStage, q: string)
    requires PiecesOk(ps) && IsBlockName(q) && forall i :: 0 <= i < |ps| ==> ps[i].path != q
    ensures Untouched(b.disk, BackupAt(b, id, ps, stage).disk, q)
  {
    hide BackupAt, Tmp, PiecesOk;
    OtherName(ps, q);
    HandlersLeave(b, id, ps, stage, q);
    HandlersLeave(b, id, ps, stage, Tmp(q));
  }

  /** One of the write's own blocks, and its temp file. */
  lemma {:induction false} BackupHere(b: Node, id: string, ps: seq<Piece>, stage: BackupStage, i: nat)
    requires PiecesOk(ps) && Present(b.disk, ps) && Reusable(b.disk, ps) && i < |ps|
    ensures var d, q := BackupAt(b, id, ps, stage).disk, ps[i].path;
            var content := Overwrite(b.disk[q], ps[i].data, ps[i].off);
            match stage
            case NotAsked => d == b.disk
            case HasPrepared => SameAt(d, b.disk, q) && Tmp(q) in d && d[Tmp(q)] == content
            case HasCommitted => q in d && d[q] == content && Tmp(q) !in d
  {
    var b1, moves := Exec(b, PrepareOps(id, ps)), MoveOps(Paths(ps));
    PrepareStages(b, id, ps);
    DiskAfterCommit(b1, id, Paths(ps));
    assert moves[..|ps|] == moves;
    hide Exec, PrepareOps, CommitOps, MoveOps, Tmp, Overwrite, Reusable;
    assert StagedAt(b1.disk, b.disk, ps[i]) && SameAt(b1.disk, b.disk, ps[i].path);
    MovesAt(b1, ps, |ps|, i);
  }

  // ----- Which temp files the recovery's commits rename -----

  lemma {:induction false} OwnNames(ps: seq<Piece>, q: string)
    requires IsBlockName(q)
    ensures q in Flatten(Movs(ps)) <==> exists i :: 0 <= i < |ps| && ps[i].path == q
  {
    var names := Flatten(Movs(ps));
    if q in names {
      var k :| 0 <= k < |names| && names[k] == q;
      assert names[2 * (k / 2)] == Tmp(ps[k / 2].path) && names[2 * (k / 2) + 1] == ps[k / 2].path;
      TmpIsNotABlock(ps[k / 2].path);
      assert ps[k / 2].path == q;
    }
    if i :| 0 <= i < |ps| && ps[i].path == q {
      assert names[2 * i + 1] == q;
    }
  }

  lemma {:induction false} SummaryEntry(log: seq<Record>, z: string)
    ensures z in Summary(log) <==> z in Ids(log)
    ensures z in Ids(log) ==> Summary(log)[z] == LogData(StateOf(log, z), NamesOf(log, z))
  {
  }

  ghost predicate UnfinishedId(log: seq<Record>, z: string, q: string) {
    z in Ids(log) && StateOf(log, z) == RPC_INIT && q in NamesOf(log, z)
  }

  lemma {:induction false} RenamesUnfinished(kv: Kv, log: seq<Record>, q: string)
    requires NoneCommitted(kv)
    ensures Renames(kv, Summary(log), q) <==> exists z :: UnfinishedId(log, z, q)
  {
    hide Summary, StateOf, NamesOf, CommittedIn;
    if Renames(kv, Summary(log), q) {
      var z :| z in Summary(log) && Summary(log)[z].state == RPC_INIT && !CommittedIn(kv, z) && q in Summary(log)[z].names;
      SummaryEntry(log, z);
      assert UnfinishedId(log, z, q);
    }
    if z :| UnfinishedId(log, z, q) {
      SummaryEntry(log, z);
      assert !CommittedIn(kv, z);
    }
  }

  lemma {:induction false} UnfinishedAfter(log: seq<Record>, id: string, ps: seq<Piece>, n: nat, q: string)
    requires id !in Ids(log) && n <= 3 && IsBlockName(q)
    ensures (exists z :: UnfinishedId(log + AddedRecords(id, ps, n), z, q))
            <==> Unfinished(log, q) || (n == 2 && exists i :: 0 <= i < |ps| && ps[i].path == q)
  {
    OwnEntry(log, id, ps, n);
    OwnNames(ps, q);
    hide AddedRecords, StateOf, NamesOf, Flatten, Movs;
    if z :| UnfinishedId(log + AddedRecords(id, ps, n), z, q) {
      if z != id {
        OthersUnchanged(log, id, ps, n, z);
      }
    }
    if Unfinished(log, q) {
      var z :| z in Ids(log) && StateOf(log, z) == RPC_INIT && q in NamesOf(log, z);
      OthersUnchanged(log, id, ps, n, z);
      assert UnfinishedId(log + AddedRecords(id, ps, n), z, q);
    } else if n == 2 && exists i :: 0 <= i < |ps| && ps[i].path == q {
      assert UnfinishedId(log + AddedRecords(id, ps, n), id, q);
    }
  }

  /** The commits rename the temp file of a block of an unfinished earlier transaction, and of the write's own
      blocks when REPL_INIT is the last record of the write. */
  lemma {:induction false} RenamesAt(p: Node, b: Node, id: string, ps: seq<Piece>, j: nat, stage: BackupStage, q: string)
    requires Replicas(p, b, id, ps) && j <= 4 * |ps| + 6 && IsBlockName(q)
    ensures Renames(BackupAt(b, id, ps, stage).kv, Summary(PrimaryAt(p, id, ps, j).log), q)
            <==> Unfinished(p.log, q)
                 || (4 * |ps| + 2 < j <= 4 * |ps| + 4 && exists i :: 0 <= i < |ps| && ps[i].path == q)
  {
    hide BackupAt, PrimaryAt, Renames, Unfinished, UnfinishedId, Summary, AddedRecords, Sane, LogOk, Reusable, PiecesOk;
    NothingPending(b, id, ps, stage);
    LogAt(p, id, ps, j);
    RenamesUnfinished(BackupAt(b, id, ps, stage).kv, PrimaryAt(p, id, ps, j).log, q);
    UnfinishedAfter(p.log, id, ps, RecordCount(Bookkept(|ps|, j)), q);
  }

  // ----- The outcome -----

  function Recovered(n: Node, b: Node, ids: seq<string>, order: seq<string>, beyond: nat -> Bytes): Pair {
    ExecBoth(Pair(n, b), RecoverOps(ParsedLog(n), b, ids, order, beyond))
  }

  ghost predicate RecoveryRun(n: Node, b: Node, ids: seq<string>, order: seq<string>) {
    Lists(ids, PendingIds(b.kv)) && Lists(order, ParsedLog(n).Keys)
  }

  lemma {:induction false} ListsFirst(ids: seq<string>, s: set<string>)
    requires Lists(ids, s) && ids != []
    ensures ids[0] in s
  {
  }

  lemma {:induction false} RecoverWithoutPending(n: Node, b: Node, ids: seq<string>, order: seq<string>, beyond: nat -> Bytes)
    requires LogOk(n.log) && RecoveryRun(n, b, ids, order) && PendingIds(b.kv) == {}
    ensures var m := Summary(n.log);
            && Recovered(n, b, ids, order, beyond).self == Exec(n, HereOps(RepairAll(b.kv, m, order)) + [TruncateLog])
            && Recovered(n, b, ids, order, beyond).peer == Exec(b, ThereOps(RepairAll(b.kv, m, order)))
            && Lists(order, m.Keys)
  {
    ParsedLogIsSummary(n);
    var m := Summary(n.log);
    if ids != [] {
      ListsFirst(ids, PendingIds(b.kv));
    }
    assert Marked(m, []) == m;
    var xs := RepairAll(b.kv, m, order);
    hide Exec, RepairAll, HereOps, ThereOps, Summary, ParsedLog;
    assert PullOps(m, b, [], beyond) == [];
    SplitSteps([], xs);
    assert [] + HereOps(xs) == HereOps(xs);
    SplitLast(AllHere([]) + xs, TruncateLog);
    ExecBothSplits(Pair(n, b), RecoverOps(m, b, ids, order, beyond));
  }

  /** Repairs on the primary itself change none of its blocks. */
  lemma {:induction false} PrimaryKeepsItsBlocks(n: Node, kv: Kv, order: seq<string>)
    requires LogOk(n.log) && NoUndos(n.disk)
    ensures SameBlocks(Exec(n, HereOps(RepairAll(kv, Summary(n.log), order)) + [TruncateLog]).disk, n.disk)
  {
    SummaryOk(n.log);
    RepairAllSafe(kv, Summary(n.log), order);
    hide RepairAll, Summary;
    var ops := HereOps(RepairAll(kv, Summary(n.log), order));
    SafeRepairsKeepBlocks(n, ops);
    ExecAppend(n, ops, TruncateLog);
  }

  lemma {:induction false} InstallSame(d: Disk, e: Disk, ps: seq<Piece>)
    requires SameBlocks(d, e) && PiecesOk(ps)
    ensures SameBlocks(Install(d, ps), Install(e, ps))
  {
    if ps != [] {
      var init, last := ps[..|ps| - 1], ps[|ps| - 1];
      InstallSame(d, e, init);
      assert SameAt(Install(d, init), Install(e, init), last.path);
    }
  }

  lemma {:induction false} PrimaryAtCrash(p: Node, b: Node, id: string, ps: seq<Piece>, j: nat)
    requires Replicas(p, b, id, ps) && j <= 4 * |ps| + 6
    ensures var n := PrimaryAt(p, id, ps, j);
            && SameBlocks(n.disk, Install(p.disk, ps[..Installed(|ps|, OK, j)]))
            && NoUndos(n.disk) && LogOk(n.log)
  {
    StepsAreStructured(p, id, ps);
    WriteCrashAtomic(p, id, ps, OK, OK, j);
    LogAt(p, id, ps, j);
    LogStaysOk(p.log, id, ps, RecordCount(Bookkept(|ps|, j)));
    var ops := WriteSteps(p, id, ps);
    StageableAll(p.disk, ps);
    PrepareCreatesWell(id, ps);
    AfterPrepareCreatesWell(id, ps, OK, OK);
    CreatesWellConcat(PrepareOps(id, ps), AfterPrepare(id, ps, OK, OK));
    hide WriteSteps, PrepareOps, AfterPrepare, Creatable, CreatesOnly;
    assert CreatesWell(ops[..j]);
    StaysSane(p, ops[..j]);
  }

  function BackupEnd(p: Node, b: Node, id: string, ps: seq<Piece>, j: nat, stage: BackupStage, order: seq<string>): Disk {
    var b1 := BackupAt(b, id, ps, stage);
    Exec(b1, ThereOps(RepairAll(b1.kv, Summary(PrimaryAt(p, id, ps, j).log), order))).disk
  }

  lemma {:induction false} BackupEndsAs(p: Node, b: Node, id: string, ps: seq<Piece>, j: nat, stage: BackupStage,
                                        order: seq<string>, q: string)
    requires Replicas(p, b, id, ps) && j <= 4 * |ps| + 6 && IsBlockName(q)
    requires Lists(order, Summary(PrimaryAt(p, id, ps, j).log).Keys)
    ensures var d, b1 := BackupEnd(p, b, id, ps, j, stage, order), BackupAt(b, id, ps, stage);
            if Tmp(q) in b1.disk && Renames(b1.kv, Summary(PrimaryAt(p, id, ps, j).log), q)
            then q in d && d[q] == b1.disk[Tmp(q)]
            else SameAt(d, b1.disk, q)
  {
    hide Exec, RepairAll, ThereOps, Summary, PrimaryAt, BackupAt, Lists, Sane, LogOk, MapOk, CommitLike, Renames, Named, Reusable;
    hide MovesFile, Tmp, IsBlockName, CommittedIn, Unfinished, PiecesOk;
    var b1, log := BackupAt(b, id, ps, stage), PrimaryAt(p, id, ps, j).log;
    var ops := ThereOps(RepairAll(b1.kv, Summary(log), order));
    NothingPending(b, id, ps, stage);
    NonePending(b1.kv, Summary(log));
    PrimaryAtCrash(p, b, id, ps, j);
    SummaryOk(log);
    ThereIsCommitLike(b1.kv, Summary(log), order);
    BackupIsSane(b, id, ps, stage);
    CommitCell(b1.kv, b1, ops, q);
    RepairsMoveFile(b1.kv, Summary(log), order, q);
    NamedIsRenames(b1.kv, Summary(log), order, q);
  }

  lemma {:induction false} NonePending(kv: Kv, m: LogMap)
    requires PendingIds(kv) == {}
    ensures NotPendingThere(kv, m)
  {
    forall z | z in kv
      ensures kv[z].state != PENDING_REPLICATION
    {
      assert z !in PendingIds(kv);
    }
  }

  lemma {:induction false} BackupEndsRight(p: Node, b: Node, id: string, ps: seq<Piece>, j: nat, stage: BackupStage,
                                           order: seq<string>, q: string)
    requires Replicas(p, b, id, ps) && Reached(|ps|, j, stage) && Harmless(p, b, ps) && IsBlockName(q)
    requires Lists(order, Summary(PrimaryAt(p, id, ps, j).log).Keys)
    ensures SameAt(BackupEnd(p, b, id, ps, j, stage, order), if j > 4 * |ps| + 2 then Install(b.disk, ps) else b.disk, q)
  {
    hide BackupEnd, BackupAt, PrimaryAt, Summary, Renames, Unfinished, Overwrite, Install, Reusable, Sane, LogOk, Lists, Tmp;
    BackupEndsAs(p, b, id, ps, j, stage, order, q);
    RenamesAt(p, b, id, ps, j, stage, q);
    assert SameAt(p.disk, b.disk, q);
    if i :| 0 <= i < |ps| && ps[i].path == q {
      BackupHere(b, id, ps, stage, i);
      InstallHere(b.disk, ps, i);
    } else {
      BackupElsewhere(b, id, ps, stage, q);
      InstallElsewhere(b.disk, ps, q);
    }
  }

  /** Wherever in the write the primary stops: it recovers with the blocks its own renames gave it, and the
      backup ends with all of the write when the REPL_INIT record was written and with none of it otherwise. */
  lemma {:induction false} PrimaryRecoveryOutcome(p: Node, b: Node, id: string, ps: seq<Piece>, j: nat, stage: BackupStage,
                               ids: seq<string>, order: seq<string>, beyond: nat -> Bytes)
    requires Replicas(p, b, id, ps) && Reached(|ps|, j, stage) && Harmless(p, b, ps)
    requires RecoveryRun(PrimaryAt(p, id, ps, j), BackupAt(b, id, ps, stage), ids, order)
    ensures var r := Recovered(PrimaryAt(p, id, ps, j), BackupAt(b, id, ps, stage), ids, order, beyond);
            && SameBlocks(r.self.disk, Install(p.disk, ps[..Installed(|ps|, OK, j)]))
            && SameBlocks(r.peer.disk, if j > 4 * |ps| + 2 then Install(p.disk, ps) else p.disk)
  {
    hide Exec, RepairAll, HereOps, ThereOps, Recovered, Install, BackupAt, PrimaryAt, Reusable, Sane, LogOk, Summary, ParsedLog;
    hide Lists, Unfinished, SameBlocks, PiecesOk;
    var r := Recovered(PrimaryAt(p, id, ps, j), BackupAt(b, id, ps, stage), ids, order, beyond);
    RecoveredParts(p, b, id, ps, j, stage, ids, order, beyond);
    BackupEndsEverywhere(p, b, id, ps, j, stage, order);
    InstallSame(p.disk, b.disk, ps);
    SymmetricBlocks(p.disk, b.disk);
    SymmetricBlocks(Install(p.disk, ps), Install(b.disk, ps));
    SameBlocksTrans(r.peer.disk, if j > 4 * |ps| + 2 then Install(b.disk, ps) else b.disk,
                    if j > 4 * |ps| + 2 then Install(p.disk, ps) else p.disk);
  }

  lemma {:induction false} BackupEndsEverywhere(p: Node, b: Node, id: string, ps: seq<Piece>, j: nat, stage: BackupStage,
                                                order: seq<string>)
    requires Replicas(p, b, id, ps) && Reached(|ps|, j, stage) && Harmless(p, b, ps)
    requires Lists(order, Summary(PrimaryAt(p, id, ps, j).log).Keys)
    ensures SameBlocks(BackupEnd(p, b, id, ps, j, stage, order), if j > 4 * |ps| + 2 then Install(b.disk, ps) else b.disk)
  {
    hide BackupEnd, Install, Replicas, Reached, Harmless, Lists, Summary, PrimaryAt;
    forall q | IsBlockName(q)
      ensures SameAt(BackupEnd(p, b, id, ps, j, stage, order), if j > 4 * |ps| + 2 then Install(b.disk, ps) else b.disk, q)
    {
      BackupEndsRight(p, b, id, ps, j, stage, order, q);
    }
  }

  /** Whatever the backup has: the primary's own blocks, and how the backup ends. */
  lemma {:induction false} RecoveredParts(p: Node, b: Node, id: string, ps: seq<Piece>, j: nat, stage: BackupStage,
                                          ids: seq<string>, order: seq<string>, beyond: nat -> Bytes)
    requires Replicas(p, b, id, ps) && j <= 4 * |ps| + 6
    requires RecoveryRun(PrimaryAt(p, id, ps, j), BackupAt(b, id, ps, stage), ids, order)
    ensures var r := Recovered(PrimaryAt(p, id, ps, j), BackupAt(b, id, ps, stage), ids, order, beyond);
            && SameBlocks(r.self.disk, Install(p.disk, ps[..Installed(|ps|, OK, j)]))
            && r.peer.disk == BackupEnd(p, b, id, ps, j, stage, order)
            && Lists(order, Summary(PrimaryAt(p, id, ps, j).log).Keys)
  {
    hide Exec, RepairAll, HereOps, ThereOps, Recovered, Install, BackupAt, PrimaryAt, Reusable, Sane, LogOk, Summary, ParsedLog;
    hide Lists, Unfinished, SameBlocks, PiecesOk;
    var n, b1 := PrimaryAt(p, id, ps, j), BackupAt(b, id, ps, stage);
    PrimaryAtCrash(p, b, id, ps, j);
    NothingPending(b, id, ps, stage);
    RecoverWithoutPending(n, b1, ids, order, beyond);
    PrimaryKeepsItsBlocks(n, b1.kv, order);
    SameBlocksTrans(Recovered(n, b1, ids, order, beyond).self.disk, n.disk, Install(p.disk, ps[..Installed(|ps|, OK, j)]));
  }

  lemma {:induction false} SymmetricBlocks(d: Disk, e: Disk)
    requires SameBlocks(d, e)
    ensures SameBlocks(e, d)
  {
  }

  /** So the replicas agree again exactly when the crash missed the window between the first rename and the
      REPL_INIT record, or the renames up to it changed nothing. */
  lemma {:induction false} PrimaryRecoveryAgreement(p: Node, b: Node, id: string, ps: seq<Piece>, j: nat, stage: BackupStage,
                                 ids: seq<string>, order: seq<string>, beyond: nat -> Bytes)
    requires Replicas(p, b, id, ps) && Reached(|ps|, j, stage) && Harmless(p, b, ps)
    requires RecoveryRun(PrimaryAt(p, id, ps, j), BackupAt(b, id, ps, stage), ids, order)
    ensures var r := Recovered(PrimaryAt(p, id, ps, j), BackupAt(b, id, ps, stage), ids, order, beyond);
            SameBlocks(r.self.disk, r.peer.disk)
            <==> !InWindow(|ps|, j) || SameBlocks(Install(p.disk, ps[..j - (3 * |ps| + 2)]), p.disk)
  {
    PrimaryRecoveryOutcome(p, b, id, ps, j, stage, ids, order, beyond);
    var r := Recovered(PrimaryAt(p, id, ps, j), BackupAt(b, id, ps, stage), ids, order, beyond);
    var x := Install(p.disk, ps[..Installed(|ps|, OK, j)]);
    var y := if j > 4 * |ps| + 2 then Install(p.disk, ps) else p.disk;
    InstallNothing(p.disk, ps);
    assert ps[..|ps|] == ps;
    hide Recovered, Install, BackupAt, PrimaryAt, Replicas, SameBlocks;
    if SameBlocks(r.self.disk, r.peer.disk) {
      SymmetricBlocks(r.self.disk, x);
      SameBlocksTrans(x, r.self.disk, r.peer.disk);
      SameBlocksTrans(x, r.peer.disk, y);
    }
    if !InWindow(|ps|, j) || SameBlocks(x, y) {
      SameBlocksRefl(y);
      SymmetricBlocks(r.peer.disk, y);
      SameBlocksTrans(r.self.disk, x, y);
      SameBlocksTrans(r.self.disk, y, r.peer.disk);
    }
  }

  lemma {:induction false} SameBlocksRefl(d: Disk)
    ensures SameBlocks(d, d)
  {
  }

  // ----- Why earlier transactions must be harmless -----

  /** A block that the primary has not renamed yet, while the backup's copy changes. */
  lemma {:induction false} DifferentEnd(p: Node, b: Node, id: string, ps: seq<Piece>, j: nat, stage: BackupStage,
                                        ids: seq<string>, order: seq<string>, beyond: nat -> Bytes, q: string)
    requires Replicas(p, b, id, ps) && j <= 3 * |ps| + 2 && IsBlockName(q) && Unfinished(p.log, q)
    requires RecoveryRun(PrimaryAt(p, id, ps, j), BackupAt(b, id, ps, stage), ids, order)
    requires var d := BackupAt(b, id, ps, stage).disk; Tmp(q) in d && !(q in p.disk && p.disk[q] == d[Tmp(q)])
    ensures var r := Recovered(PrimaryAt(p, id, ps, j), BackupAt(b, id, ps, stage), ids, order, beyond);
            !SameBlocks(r.self.disk, r.peer.disk)
  {
    hide Recovered, BackupEnd, BackupAt, PrimaryAt, Summary, Renames, Unfinished, Install, Reusable, Sane, LogOk, Lists, Tmp, PiecesOk;
    RecoveredParts(p, b, id, ps, j, stage, ids, order, beyond);
    BackupEndsAs(p, b, id, ps, j, stage, order, q);
    RenamesAt(p, b, id, ps, j, stage, q);
    InstallNothing(p.disk, ps);
    var r := Recovered(PrimaryAt(p, id, ps, j), BackupAt(b, id, ps, stage), ids, order, beyond);
    assert SameAt(r.self.disk, p.disk, q);
    assert !SameAt(r.self.disk, r.peer.disk, q);
  }

  /** Otherwise there is a crash point outside the window after which every recovery leaves the replicas different:
      a primary that has renamed nothing keeps its old block, while a commit sent for an earlier transaction
      installs an old temp file, or the write's own, on the backup. */
  lemma {:induction false} HarmIsDone(p: Node, b: Node, id: string, ps: seq<Piece>) returns (j: nat, stage: BackupStage)
    requires Replicas(p, b, id, ps) && !Harmless(p, b, ps)
    ensures Reached(|ps|, j, stage) && !InWindow(|ps|, j)
    ensures forall ids, order, beyond :: RecoveryRun(PrimaryAt(p, id, ps, j), BackupAt(b, id, ps, stage), ids, order) ==>
              var r := Recovered(PrimaryAt(p, id, ps, j), BackupAt(b, id, ps, stage), ids, order, beyond);
              !SameBlocks(r.self.disk, r.peer.disk)
  {
    hide Recovered, PrimaryAt, Unfinished, Reusable, Sane, LogOk, Tmp, PiecesOk, Overwrite, RecoveryRun;
    var q :| IsBlockName(q) && Unfinished(p.log, q)
             && !((Tmp(q) in b.disk ==> q in b.disk && b.disk[Tmp(q)] == b.disk[q])
                  && forall i :: 0 <= i < |ps| && ps[i].path == q ==> Overwrite(p.disk[q], ps[i].data, ps[i].off) == p.disk[q]);
    assert SameAt(p.disk, b.disk, q);
    if Tmp(q) in b.disk && !(q in b.disk && b.disk[Tmp(q)] == b.disk[q]) {
      j, stage := 0, NotAsked;
    } else {
      var i :| 0 <= i < |ps| && ps[i].path == q && Overwrite(p.disk[q], ps[i].data, ps[i].off) != p.disk[q];
      j, stage := 3 * |ps| + 2, HasPrepared;
      BackupHere(b, id, ps, stage, i);
    }
    hide SameBlocks, Present;
    forall ids, order, beyond | RecoveryRun(PrimaryAt(p, id, ps, j), BackupAt(b, id, ps, stage), ids, order)
      ensures var r := Recovered(PrimaryAt(p, id, ps, j), BackupAt(b, id, ps, stage), ids, order, beyond);
              !SameBlocks(r.self.disk, r.peer.disk)
    {
      DifferentEnd(p, b, id, ps, j, stage, ids, order, beyond, q);
    }
  }

  ghost predicate AgreesAfter(p: Node, b: Node, id: string, ps: seq<Piece>, j: nat, stage: BackupStage) {
    forall ids, order, beyond :: RecoveryRun(PrimaryAt(p, id, ps, j), BackupAt(b, id, ps, stage), ids, order) ==>
      var r := Recovered(PrimaryAt(p, id, ps, j), BackupAt(b, id, ps, stage), ids, order, beyond);
      SameBlocks(r.self.disk, r.peer.disk)
  }

  /** Recovery restores agreement from every crash point outside the window exactly when earlier transactions
      are harmless. */
  lemma {:induction false} AgreementExactly(p: Node, b: Node, id: string, ps: seq<Piece>)
    requires Replicas(p, b, id, ps)
    ensures Present(p.disk, ps)
    ensures (forall j, stage :: Reached(|ps|, j, stage) && !InWindow(|ps|, j) ==> AgreesAfter(p, b, id, ps, j, stage))
            <==> Harmless(p, b, ps)
  {
    assert Present(p.disk, ps);
    hide Replicas, Harmless, AgreesAfter, Reached, InWindow;
    if Harmless(p, b, ps) {
      forall j: nat, stage | Reached(|ps|, j, stage) && !InWindow(|ps|, j)
        ensures AgreesAfter(p, b, id, ps, j, stage)
      {
        HarmlessAgrees(p, b, id, ps, j, stage);
      }
    } else {
      var j, stage := HarmDisagrees(p, b, id, ps);
    }
  }

  lemma {:induction false} HarmlessAgrees(p: Node, b: Node, id: string, ps: seq<Piece>, j: nat, stage: BackupStage)
    requires Replicas(p, b, id, ps) && Reached(|ps|, j, stage) && !InWindow(|ps|, j) && Harmless(p, b, ps)
    ensures AgreesAfter(p, b, id, ps, j, stage)
  {
    hide Recovered, PrimaryAt, BackupAt, Harmless, SameBlocks, RecoveryRun, Reached, InWindow;
    forall ids, order, beyond | RecoveryRun(PrimaryAt(p, id, ps, j), BackupAt(b, id, ps, stage), ids, order)
      ensures var r := Recovered(PrimaryAt(p, id, ps, j), BackupAt(b, id, ps, stage), ids, order, beyond);
              SameBlocks(r.self.disk, r.peer.disk)
    {
      OutsideWindow(p, b, id, ps, j, stage, ids, order, beyond);
    }
  }

  lemma {:induction false} HarmDisagrees(p: Node, b: Node, id: string, ps: seq<Piece>) returns (j: nat, stage: BackupStage)
    requires Replicas(p, b, id, ps) && !Harmless(p, b, ps)
    ensures Reached(|ps|, j, stage) && !InWindow(|ps|, j) && !AgreesAfter(p, b, id, ps, j, stage)
  {
    hide Recovered, PrimaryAt, BackupAt, Harmless, SameBlocks, RecoveryRun, Reached, InWindow;
    j, stage := HarmIsDone(p, b, id, ps);
    var ids, order := RecoveryCanRun(PrimaryAt(p, id, ps, j), BackupAt(b, id, ps, stage));
    var r := Recovered(PrimaryAt(p, id, ps, j), BackupAt(b, id, ps, stage), ids, order, i => []);
    assert !SameBlocks(r.self.disk, r.peer.disk);
  }

  lemma {:induction false} OutsideWindow(p: Node, b: Node, id: string, ps: seq<Piece>, j: nat, stage: BackupStage,
                                         ids: seq<string>, order: seq<string>, beyond: nat -> Bytes)
    requires Replicas(p, b, id, ps) && Reached(|ps|, j, stage) && !InWindow(|ps|, j) && Harmless(p, b, ps)
    requires RecoveryRun(PrimaryAt(p, id, ps, j), BackupAt(b, id, ps, stage), ids, order)
    ensures var r := Recovered(PrimaryAt(p, id, ps, j), BackupAt(b, id, ps, stage), ids, order, beyond);
            SameBlocks(r.self.disk, r.peer.disk)
  {
    hide Replicas, Recovered, PrimaryAt, BackupAt, Harmless, SameBlocks, RecoveryRun, Install, Reached;
    PrimaryRecoveryAgreement(p, b, id, ps, j, stage, ids, order, beyond);
  }

  // ----- Such replicas, and such runs, exist -----

  lemma {:induction false} Listing(s: set<string>) returns (xs: seq<string>)
    ensures Lists(xs, s)
  {
    if s == {} {
      xs := [];
    } else {
      var x :| x in s;
      var rest := Listing(s - {x});
      xs := rest + [x];
    }
  }

  /** Wherever the write stops, a recovery can follow. */
  lemma {:induction false} RecoveryCanRun(n: Node, b: Node) returns (ids: seq<string>, order: seq<string>)
    ensures RecoveryRun(n, b, ids, order)
  {
    hide ParsedLog, Lists;
    ids := Listing(PendingIds(b.kv));
    order := Listing(ParsedLog(n).Keys);
  }
}
