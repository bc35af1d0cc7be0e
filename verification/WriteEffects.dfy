/** What a whole write, and each handler of the other server, leaves behind: records, table entry and temp files. */
module WriteEffects {
  import opened Storage
  import opened WriteAheadLog
  import opened KeyValueStore
  import opened Nodes
  import opened Effects
  import opened CrashAtomicity
  import opened WriteAheadAgreement

  // ----- Records and table -----

  /** The pairs of the start record. */
  function MovesOf(ps: seq<Piece>): seq<(string, string)> {
    seq(|ps|, i requires 0 <= i < |ps| => (ps[i].path + ".tmp", ps[i].path))
  }

  /** A new entry of the table. */
  function EntryFor(ps: seq<Piece>): TxnData {
    TxnData(seq(|ps|, i requires 0 <= i < |ps| => ps[i].path), seq(|ps|, i requires 0 <= i < |ps| => |ps[i].data|),
            seq(|ps|, i requires 0 <= i < |ps| => ps[i].off), START)
  }

  lemma {:induction false} PieceLists(ps: seq<Piece>)
    ensures Movs(ps) == MovesOf(ps) && Txn(ps) == EntryFor(ps)
  {
  }

  /** The records that a write with these outcomes adds. */
  function RecordsOfWrite(id: string, ps: seq<Piece>, prepare: Status, commit: Status): seq<Record> {
    match prepare
    case UNAVAILABLE => [Start(id, MovesOf(ps)), Pending(id)]
    case OTHER => [Start(id, MovesOf(ps)), Abort(id)]
    case OK =>
      match commit
      case OK => [Start(id, MovesOf(ps)), ReplInit(id), Commit(id)]
      case UNAVAILABLE => [Start(id, MovesOf(ps)), ReplInit(id), Pending(id)]
      case OTHER => [Start(id, MovesOf(ps)), ReplInit(id)]
  }

  lemma {:induction false} TwoMoreSteps(n: Node, ops: seq<Op>, a: Op, b: Op)
    ensures Exec(n, ops + [a, b]) == Apply(Apply(Exec(n, ops), a), b)
  {
    assert ops + [a, b] == ops + [a] + [b];
    ExecAppend(n, ops, a);
    ExecAppend(n, ops + [a], b);
  }

  lemma {:induction false} BeginAt(n: Node, id: string, ps: seq<Piece>)
    ensures var begin := [Append(Start(id, Movs(ps))), KvAdd(id, Txn(ps))];
            && Exec(n, begin).log == n.log + [Start(id, MovesOf(ps))]
            && Exec(n, begin).kv == if id in n.kv then n.kv else n.kv[id := EntryFor(ps)]
  {
    PieceLists(ps);
    var a, b := Append(Start(id, Movs(ps))), KvAdd(id, Txn(ps));
    assert [] + [a, b] == [a, b];
    TwoMoreSteps(n, [], a, b);
    ExecNothing(n, []);
    hide Exec, Movs, Txn, MovesOf, EntryFor;
  }

  lemma {:induction false} BooksOfCore(n: Node, id: string, ps: seq<Piece>, prepare: Status, commit: Status)
    ensures var e, entry := Exec(n, WriteCore(id, ps, prepare, commit)), if id in n.kv then n.kv[id] else EntryFor(ps);
            && e.log == n.log + RecordsOfWrite(id, ps, prepare, commit)
            && e.kv == if prepare == UNAVAILABLE || (prepare == OK && commit == UNAVAILABLE)
                       then n.kv[id := entry.(state := PENDING_REPLICATION)] else n.kv - {id}
  {
    var begin := [Append(Start(id, Movs(ps))), KvAdd(id, Txn(ps))];
    BeginAt(n, id, ps);
    hide Exec, Movs, Txn, MovesOf, EntryFor;
    match prepare
    case UNAVAILABLE => TwoMoreSteps(n, begin, Append(Pending(id)), KvSet(id, PENDING_REPLICATION));
    case OTHER => TwoMoreSteps(n, begin, Append(Abort(id)), KvDrop(id));
    case OK =>
      var installed := begin + [Append(ReplInit(id)), KvSet(id, RPC_INIT)];
      TwoMoreSteps(n, begin, Append(ReplInit(id)), KvSet(id, RPC_INIT));
      match commit
      case OK => TwoMoreSteps(n, installed, Append(Commit(id)), KvDrop(id));
      case UNAVAILABLE => TwoMoreSteps(n, installed, Append(Pending(id)), KvSet(id, PENDING_REPLICATION));
      case OTHER => ExecAppend(n, installed, KvDrop(id));
  }

  /** The records that a write adds and the table that it leaves, for every outcome: an entry stays, pending, exactly
      when the backup was unavailable; nothing at all is noted when a file is missing. */
  lemma {:induction false} BooksAfterWrite(n: Node, id: string, ps: seq<Piece>, prepare: Status, commit: Status)
    ensures var e, entry := Exec(n, WriteOps(n.disk, id, ps, prepare, commit)), if id in n.kv then n.kv[id] else EntryFor(ps);
            if exists i :: 0 <= i < |ps| && ps[i].path !in n.disk then e.log == n.log && e.kv == n.kv
            else
              && e.log == n.log + RecordsOfWrite(id, ps, prepare, commit)
              && e.kv == if prepare == UNAVAILABLE || (prepare == OK && commit == UNAVAILABLE)
                         then n.kv[id := entry.(state := PENDING_REPLICATION)] else n.kv - {id}
  {
    CoreOfWrite(n.disk, id, ps, prepare, commit);
    hide Exec, Core, WriteCore, RecordsOfWrite, EntryFor, WriteOps;
    CoreDecides(n, WriteOps(n.disk, id, ps, prepare, commit));
    if Stageable(n.disk, ps) < |ps| {
      ExecNothing(n, []);
      assert ps[Stageable(n.disk, ps)].path !in n.disk;
    } else {
      BooksOfCore(n, id, ps, prepare, commit);
    }
  }

  // ----- Temp files -----

  lemma {:induction false} GoneStaysGone(n: Node, ps: seq<Piece>, ops: seq<Op>, i: nat)
    requires PiecesOk(ps) && i < |ps| && Tmp(ps[i].path) !in n.disk
    requires forall k :: 0 <= k < |ops| ==> (ops[k].Move? && exists j :: 0 <= j < |ps| && ops[k] == Move(Tmp(ps[j].path), ps[j].path))
                                            || ops[k].Append? || ops[k].KvSet? || ops[k].KvDrop?
    ensures Tmp(ps[i].path) !in Exec(n, ops).disk
  {
    if ops != [] {
      var init, last := ops[..|ops| - 1], ops[|ops| - 1];
      assert forall k :: 0 <= k < |init| ==> init[k] == ops[k];
      GoneStaysGone(n, ps, init, i);
      if j :| 0 <= j < |ps| && last == Move(Tmp(ps[j].path), ps[j].path) {
        TmpIsNotABlock(ps[i].path);
      }
    }
  }

  lemma {:induction false} AfterCommitMoves(id: string, ps: seq<Piece>, commit: Status, k: nat)
    requires k < |AfterCommit(id, ps, commit)|
    ensures var op := AfterCommit(id, ps, commit)[k];
            (op.Move? && exists j :: 0 <= j < |ps| && op == Move(Tmp(ps[j].path), ps[j].path))
            || op.Append? || op.KvSet? || op.KvDrop?
  {
    if commit == UNAVAILABLE && k < |ps| {
      assert AfterCommit(id, ps, commit)[k] == Move(Tmp(ps[k].path), ps[k].path);
    }
  }

  lemma {:induction false} TempsAfterPrepareCall(n: Node, id: string, ps: seq<Piece>, prepare: Status, commit: Status, i: nat)
    requires PiecesOk(ps) && HasTemps(n.disk, ps) && i < |ps|
    ensures var e := Exec(n, AfterPrepare(id, ps, prepare, commit)).disk;
            if prepare == OTHER then SameAt(e, n.disk, Tmp(ps[i].path)) else Tmp(ps[i].path) !in e
  {
    hide Exec, MoveOps, Paths, Tmp, AfterCommit;
    match prepare
    case OTHER =>
      assert NoneTouches(AfterPrepare(id, ps, prepare, commit), Tmp(ps[i].path));
      ExecFrame(n, AfterPrepare(id, ps, prepare, commit), Tmp(ps[i].path));
    case UNAVAILABLE =>
      TempsAreGone(n, ps);
      RecordKeepsDisk(n, MoveOps(Paths(ps)), Pending(id), KvSet(id, PENDING_REPLICATION));
    case OK =>
      TempsAreGone(n, ps);
      RecordKeepsDisk(n, MoveOps(Paths(ps)), ReplInit(id), KvSet(id, RPC_INIT));
      ExecConcat(n, InstallOps(id, ps), AfterCommit(id, ps, commit));
      forall k | 0 <= k < |AfterCommit(id, ps, commit)|
        ensures var op := AfterCommit(id, ps, commit)[k];
                (op.Move? && exists j :: 0 <= j < |ps| && op == Move(Tmp(ps[j].path), ps[j].path))
                || op.Append? || op.KvSet? || op.KvDrop?
      {
        AfterCommitMoves(id, ps, commit, k);
      }
      GoneStaysGone(Exec(n, InstallOps(id, ps)), ps, AfterCommit(id, ps, commit), i);
  }

  lemma {:induction false} StagedUpTo(n: Node, ps: seq<Piece>, k: nat, i: nat)
    requires PiecesOk(ps) && i < |ps| && k <= |ps| && Present(n.disk, ps[..k])
    ensures var d := Exec(n, StageOps(ps[..k])).disk;
            if i < k then ps[i].path in n.disk && Tmp(ps[i].path) in d && d[Tmp(ps[i].path)] == StagedContent(n.disk, ps[i])
            else SameAt(d, n.disk, Tmp(ps[i].path))
  {
    hide Exec, StageOps, StagedContent;
    var some := ps[..k];
    if i < k {
      assert some[i] == ps[i];
      StagedFromLeftovers(n, some, i);
    } else {
      forall j | 0 <= j < k
        ensures Tmp(some[j].path) != Tmp(ps[i].path)
      {
        TempsDiffer(ps, j, i);
      }
      assert StageOps(some)[..|StageOps(some)|] == StageOps(some);
      StagingLeaves(n, some, |StageOps(some)|, Tmp(ps[i].path));
    }
  }

  /** The files before the `k`th are there. */
  predicate FoundBefore(d: Disk, ps: seq<Piece>, k: nat) {
    forall j :: 0 <= j < k && j < |ps| ==> ps[j].path in d
  }

  lemma {:induction false} StageableBefore(d: Disk, ps: seq<Piece>, i: nat)
    requires i < |ps|
    ensures FoundBefore(d, ps, i + 1) <==> i < Stageable(d, ps)
    ensures FoundBefore(d, ps, |ps|) <==> Stageable(d, ps) == |ps|
    ensures Present(d, ps[..Stageable(d, ps)])
  {
    var k := Stageable(d, ps);
    if k < |ps| {
      assert ps[k].path !in d;
    }
  }

  /** The temp file of each block that is written: renamed away when the call to `Prepare` was answered OK or found
      nobody, else as staged if the files up to it are there, and as it was if not. */
  lemma {:induction false} TempsAfterWrite(n: Node, id: string, ps: seq<Piece>, prepare: Status, commit: Status, i: nat)
    requires PiecesOk(ps) && i < |ps|
    ensures var e, t := Exec(n, WriteOps(n.disk, id, ps, prepare, commit)).disk, Tmp(ps[i].path);
            if FoundBefore(n.disk, ps, |ps|) && prepare != OTHER then t !in e
            else if FoundBefore(n.disk, ps, i + 1)
            then ps[i].path in n.disk && t in e && e[t] == StagedContent(n.disk, ps[i])
            else SameAt(e, n.disk, t)
  {
    var k := Stageable(n.disk, ps);
    StageableBefore(n.disk, ps, i);
    hide Exec, StageOps, StagedContent, PrepareOps, AfterPrepare, FoundBefore;
    if k < |ps| {
      StagedUpTo(n, ps, k, i);
    } else {
      assert ps[..k] == ps;
      PrepareLeavesTemps(n, id, ps);
      TempsAfterPrepareCall(Exec(n, PrepareOps(id, ps)), id, ps, prepare, commit, i);
      ExecConcat(n, PrepareOps(id, ps), AfterPrepare(id, ps, prepare, commit));
    }
  }

  lemma {:induction false} OtherTemp(ps: seq<Piece>, q: string)
    requires PiecesOk(ps) && IsBlockName(q) && forall i :: 0 <= i < |ps| ==> ps[i].path != q
    ensures forall i :: 0 <= i < |ps| ==> Tmp(ps[i].path) != Tmp(q) && ps[i].path != Tmp(q)
  {
    TmpIsNotABlock(q);
    forall i | 0 <= i < |ps|
      ensures Tmp(ps[i].path) != Tmp(q)
    {
      if Tmp(ps[i].path) == Tmp(q) {
        TmpInjective(ps[i].path, q);
      }
    }
  }

  lemma {:induction false} RenamesLeave(n: Node, ps: seq<Piece>, tail: seq<Op>, p: string)
    requires forall i :: 0 <= i < |ps| ==> Tmp(ps[i].path) != p && ps[i].path != p
    requires NoneTouches(tail, p)
    ensures SameAt(Exec(n, MoveOps(Paths(ps)) + tail).disk, n.disk, p)
  {
    hide Exec;
    ExecConcat(n, MoveOps(Paths(ps)), tail);
    assert MoveOps(Paths(ps))[..|ps|] == MoveOps(Paths(ps));
    MovesElsewhere(n, Paths(ps), |ps|, p);
    ExecFrame(Exec(n, MoveOps(Paths(ps))), tail, p);
  }

  lemma {:induction false} AfterPrepareLeaves(n: Node, id: string, ps: seq<Piece>, prepare: Status, commit: Status, p: string)
    requires forall i :: 0 <= i < |ps| ==> Tmp(ps[i].path) != p && ps[i].path != p
    ensures SameAt(Exec(n, AfterPrepare(id, ps, prepare, commit)).disk, n.disk, p)
  {
    hide Exec, MoveOps, Paths, Tmp;
    match prepare
    case OTHER => ExecFrame(n, AfterPrepare(id, ps, prepare, commit), p);
    case UNAVAILABLE => RenamesLeave(n, ps, [Append(Pending(id)), KvSet(id, PENDING_REPLICATION)], p);
    case OK =>
      RenamesLeave(n, ps, [Append(ReplInit(id)), KvSet(id, RPC_INIT)], p);
      ExecConcat(n, InstallOps(id, ps), AfterCommit(id, ps, commit));
      var m := Exec(n, InstallOps(id, ps));
      match commit
      case OK => ExecFrame(m, AfterCommit(id, ps, commit), p);
      case OTHER => ExecFrame(m, AfterCommit(id, ps, commit), p);
      case UNAVAILABLE => RenamesLeave(m, ps, [Append(Pending(id)), KvSet(id, PENDING_REPLICATION)], p);
  }

  /** Every other block's temp file is as it was. */
  lemma {:induction false} OtherTempsAfterWrite(n: Node, id: string, ps: seq<Piece>, prepare: Status, commit: Status, q: string)
    requires PiecesOk(ps) && IsBlockName(q) && forall i :: 0 <= i < |ps| ==> ps[i].path != q
    ensures SameAt(Exec(n, WriteOps(n.disk, id, ps, prepare, commit)).disk, n.disk, Tmp(q))
  {
    var k := Stageable(n.disk, ps);
    OtherTemp(ps, q);
    hide Exec, StageOps, AfterPrepare, Tmp;
    var staged := StageOps(ps[..k]);
    assert staged[..|staged|] == staged;
    StagingLeaves(n, ps[..k], |staged|, Tmp(q));
    if k == |ps| {
      assert ps[..k] == ps;
      var begin := [Append(Start(id, Movs(ps))), KvAdd(id, Txn(ps))];
      ExecConcat(n, staged, begin);
      assert NoneTouches(begin, Tmp(q));
      ExecFrame(Exec(n, staged), begin, Tmp(q));
      AfterPrepareLeaves(Exec(n, PrepareOps(id, ps)), id, ps, prepare, commit, Tmp(q));
      ExecConcat(n, PrepareOps(id, ps), AfterPrepare(id, ps, prepare, commit));
    }
  }

  // ----- The handlers of the other server -----

  /** `Prepare`: a start record and a table entry when all files are there, else only what was staged before the first
      that is missing. */
  lemma {:induction false} AfterPrepareHandler(n: Node, id: string, ps: seq<Piece>, i: nat)
    requires PiecesOk(ps) && i < |ps|
    ensures var e, t := Exec(n, PrepareHandler(n.disk, id, ps)), Tmp(ps[i].path);
            && SameBlocks(e.disk, n.disk)
            && (if FoundBefore(n.disk, ps, |ps|)
                then e.log == n.log + [Start(id, MovesOf(ps))]
                     && e.kv == if id in n.kv then n.kv else n.kv[id := EntryFor(ps)]
                else e.log == n.log && e.kv == n.kv)
            && (if FoundBefore(n.disk, ps, i + 1)
                then ps[i].path in n.disk && t in e.disk && e.disk[t] == StagedContent(n.disk, ps[i])
                else SameAt(e.disk, n.disk, t))
  {
    var k := Stageable(n.disk, ps);
    StagingOfBlocks(n.disk, ps);
    StageableBefore(n.disk, ps, i);
    hide Exec, StageOps, StagedContent, PrepareOps, FoundBefore, SameBlocks, Core, MovesOf, EntryFor;
    StagedUpTo(n, ps, k, i);
    var staged := StageOps(ps[..k]);
    StageOpsAreFiles(ps[..k]);
    assert staged[..|staged|] == staged;
    StagingKeepsBlocks(n, ps[..k], |staged|);
    if k < |ps| {
      CoreOfFiles(staged);
      CoreDecides(n, staged);
      ExecNothing(n, []);
    } else {
      assert ps[..k] == ps;
      CoreOfPrepare(id, ps);
      CoreDecides(n, PrepareOps(id, ps));
      BeginAt(n, id, ps);
      PrepareLeavesTemps(n, id, ps);
    }
  }

  /** `Commit`: its record, and no entry any more, whatever names it was sent. */
  lemma {:induction false} BooksAfterCommit(n: Node, id: string, names: seq<string>)
    ensures Exec(n, CommitOps(id, names)).log == n.log + [Commit(id)]
    ensures Exec(n, CommitOps(id, names)).kv == n.kv - {id}
  {
    CoreOfFilesThen(MoveOps(names), [Append(Commit(id)), KvDrop(id)]);
    hide Exec, Core, MoveOps;
    CoreDecides(n, CommitOps(id, names));
    assert [] + [Append(Commit(id)), KvDrop(id)] == [Append(Commit(id)), KvDrop(id)];
    TwoMoreSteps(n, [], Append(Commit(id)), KvDrop(id));
    ExecNothing(n, []);
  }
}
