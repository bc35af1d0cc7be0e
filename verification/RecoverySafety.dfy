/** Recovery's local repairs never delete or change a block, whatever whole records the log holds. */
module RecoverySafety {
  import opened Decimal
  import opened Storage
  import opened WriteAheadLog
  import opened LogParser
  import opened KeyValueStore
  import opened Nodes
  import opened Effects
  import opened BlockServer
  import opened Recovery

  /** Transaction ids are decimal text of a clock. */
  predicate IsId(id: string) {
    id != [] && AllDigits(id)
  }

  ghost predicate RecordOk(r: Record) {
    && IsId(r.id)
    && (r.Start? ==> forall i :: 0 <= i < |r.movs| ==>
          IsBlockName(r.movs[i].1) && Clean(r.movs[i].1) && r.movs[i].0 == Tmp(r.movs[i].1))
  }

  /** What the servers ever log: decimal ids, and pairs of a block and its temp file. */
  ghost predicate LogOk(rs: seq<Record>) {
    forall i :: 0 <= i < |rs| ==> RecordOk(rs[i])
  }

  lemma {:induction false} IdIsClean(id: string)
    requires IsId(id)
    ensures Clean(id) && !IsBlockName(id)
  {
    assert forall c :: c in id ==> IsDigit(c);
    assert IsDigit(id[0]);
  }

  lemma {:induction false} LogOkIsClean(rs: seq<Record>)
    requires LogOk(rs)
    ensures CleanLog(rs)
  {
    forall i | 0 <= i < |rs|
      ensures CleanRecord(rs[i])
    {
      assert RecordOk(rs[i]);
      IdIsClean(rs[i].id);
      if rs[i].Start? {
        forall j | 0 <= j < |rs[i].movs|
          ensures Clean(rs[i].movs[j].0) && Clean(rs[i].movs[j].1)
        {
          assert forall c :: c in rs[i].movs[j].0 ==> c in rs[i].movs[j].1 || c in ".tmp";
        }
      }
    }
  }

  /** The map that recovery parses out of the log of a node. */
  function ParsedLog(n: Node): LogMap {
    LoadMore(map[], TextLines(Text(LogLines(n.log))))
  }

  lemma {:induction false} ParsedLogIsSummary(n: Node)
    requires LogOk(n.log)
    ensures ParsedLog(n) == Summary(n.log)
  {
    LogOkIsClean(n.log);
    LogRoundTrip(n.log);
  }

  /** Even positions: temp files, or the id of a pending record read as a name. */
  predicate NameOk(names: seq<string>, i: nat)
    requires i < |names|
  {
    if i % 2 == 0 then
      i + 1 < |names| && ((IsBlockName(names[i + 1]) && names[i] == Tmp(names[i + 1]))
                          || (IsId(names[i]) && names[i + 1] == STATE_PENDING_REPLICATION))
    else IsBlockName(names[i]) || names[i] == STATE_PENDING_REPLICATION
  }

  ghost predicate NamesOk(names: seq<string>) {
    |names| % 2 == 0 && forall i :: 0 <= i < |names| ==> NameOk(names, i)
  }

  lemma {:induction false} NamesOkConcat(a: seq<string>, b: seq<string>)
    requires NamesOk(a) && NamesOk(b)
    ensures NamesOk(a + b)
  {
    var c := a + b;
    forall i | 0 <= i < |c|
      ensures NameOk(c, i)
    {
      if i < |a| {
        assert NameOk(a, i);
      } else {
        assert NameOk(b, i - |a|);
      }
    }
  }

  lemma {:induction false} NamesInOk(r: Record)
    requires RecordOk(r)
    ensures NamesOk(NamesIn(r))
  {
    if r.Start? {
      var names := Flatten(r.movs);
      forall i | 0 <= i < |names|
        ensures NameOk(names, i)
      {
        assert names[2 * (i / 2)] == r.movs[i / 2].0 && names[2 * (i / 2) + 1] == r.movs[i / 2].1;
      }
    }
  }

  lemma {:induction false} NamesOfOk(rs: seq<Record>, id: string)
    requires LogOk(rs)
    ensures NamesOk(NamesOf(rs, id))
  {
    if rs != [] {
      var init, last := rs[..|rs| - 1], rs[|rs| - 1];
      NamesOfOk(init, id);
      NamesInOk(last);
      NamesOkConcat(NamesOf(init, id), if last.id == id then NamesIn(last) else []);
    }
  }

  // ----- Repair steps -----

  /** The only things recovery's repairs do to local files. */
  predicate SafeRepair(op: Op) {
    match op
    case Delete(path) => !IsBlockName(path)
    case Move(src, dst) => src == Undo(dst)
    case _ => false
  }

  ghost predicate AllSafe(ops: seq<Op>) {
    forall i :: 0 <= i < |ops| ==> SafeRepair(ops[i])
  }

  lemma {:induction false} LeftoverIsSafe(names: seq<string>, i: nat)
    requires i < |names| && NameOk(names, i)
    ensures !IsBlockName(LeftoverOf(names, i))
  {
    if i % 2 == 0 {
      if IsId(names[i]) {
        IdIsClean(names[i]);
      } else {
        TmpIsNotABlock(names[i + 1]);
      }
    } else {
      TmpIsNotABlock(names[i]);
    }
  }

  lemma {:induction false} DeleteUndosSafe(names: seq<string>)
    ensures AllSafe(DeleteUndos(names))
  {
    if names != [] {
      DeleteUndosSafe(names[..|names| - 1]);
      TmpIsNotABlock(names[|names| - 1]);
    }
  }

  lemma {:induction false} RepairHereSafe(d: LogData, committed: bool)
    requires NamesOk(d.names)
    ensures AllSafe(RepairHere(d, committed))
  {
    DeleteUndosSafe(d.names);
    forall i | 0 <= i < |d.names|
      ensures !IsBlockName(LeftoverOf(d.names, i))
    {
      LeftoverIsSafe(d.names, i);
    }
  }

  ghost predicate MapOk(m: LogMap) {
    forall id :: id in m ==> NamesOk(m[id].names)
  }

  lemma {:induction false} SummaryOk(rs: seq<Record>)
    requires LogOk(rs)
    ensures MapOk(Summary(rs))
  {
    forall id | id in Summary(rs)
      ensures NamesOk(Summary(rs)[id].names)
    {
      NamesOfOk(rs, id);
    }
  }

  lemma {:induction false} RepairAllSafe(kv: Kv, m: LogMap, order: seq<string>)
    requires MapOk(m)
    ensures AllSafe(HereOps(RepairAll(kv, m, order)))
  {
    hide RepairHere, RepairThere, NamesOk, CommittedIn;
    if order != [] {
      var init, id := order[..|order| - 1], order[|order| - 1];
      RepairAllSafe(kv, m, init);
      if id in m {
        RepairHereSafe(m[id], CommittedIn(kv, id));
        OneMoreRepair(kv, m, init, id);
        assert init + [id] == order;
      } else {
        assert RepairAll(kv, m, order) == RepairAll(kv, m, init);
      }
    }
  }

  ghost predicate NoUndos(d: Disk) {
    forall q :: Undo(q) !in d
  }

  lemma {:induction false} SafeRepairsKeepBlocks(n: Node, ops: seq<Op>)
    requires AllSafe(ops) && NoUndos(n.disk)
    ensures SameBlocks(Exec(n, ops).disk, n.disk) && NoUndos(Exec(n, ops).disk)
  {
    if ops != [] {
      SafeRepairsKeepBlocks(n, ops[..|ops| - 1]);
      assert SafeRepair(ops[|ops| - 1]);
    }
  }

  /** Cut anywhere, the repairs of any log of whole records leave every local block alone. */
  lemma {:induction false} RecoveryNeverDamagesABlock(n: Node, kv: Kv, ids: seq<string>, order: seq<string>, log: seq<Record>, k: nat)
    requires LogOk(log) && NoUndos(n.disk)
    requires k <= |HereOps(RepairAll(kv, Marked(Summary(log), ids), order))|
    ensures var ops := HereOps(RepairAll(kv, Marked(Summary(log), ids), order))[..k];
            && SameBlocks(Exec(n, ops).disk, n.disk)
            && forall i, p :: 0 <= i < |ops| && ops[i] == Delete(p) ==> !IsBlockName(p)
  {
    SummaryOk(log);
    RepairAllSafe(kv, Marked(Summary(log), ids), order);
    SafeRepairsKeepBlocks(n, HereOps(RepairAll(kv, Marked(Summary(log), ids), order))[..k]);
  }

  // ----- No step creates an undo file, or the temp file of a temp file -----

  /** Paths that handlers and recovery can create. */
  predicate CreatesOnly(op: Op, p: string) {
    match op
    case OpenTemp(path) => path == p
    case Move(_, dst) => dst == p
    case _ => false
  }

  predicate Creatable(p: string) {
    IsBlockName(p) || IsId(p) || p == STATE_PENDING_REPLICATION
    || (|p| >= 4 && IsBlockName(p[..|p| - 4]) && p == Tmp(p[..|p| - 4]))
  }

  ghost predicate CreatesWell(ops: seq<Op>) {
    forall i, p :: 0 <= i < |ops| && CreatesOnly(ops[i], p) ==> Creatable(p)
  }

  /** No undo file, and no temp file of anything but a block, an id or a pending mark. */
  ghost predicate Sane(d: Disk) {
    NoUndos(d) && forall q :: IsBlockName(q) ==> Tmp(Tmp(q)) !in d
  }

  lemma {:induction false} CreatableIsSane(p: string, q: string)
    requires Creatable(p)
    ensures p != Undo(q) && (IsBlockName(q) ==> p != Tmp(Tmp(q)))
  {
    var u, t := Undo(q), Tmp(Tmp(q));
    assert u[|u| - 1] == 'o' && t[|t| - 1] == 'p' && t[..|t| - 4] == Tmp(q);
    assert STATE_PENDING_REPLICATION[|STATE_PENDING_REPLICATION| - 1] == 'N';
    TmpIsNotABlock(q);
  }

  lemma {:induction false} StaysSane(n: Node, ops: seq<Op>)
    requires Sane(n.disk) && CreatesWell(ops)
    ensures Sane(Exec(n, ops).disk)
  {
    if ops != [] {
      var n1, op := Exec(n, ops[..|ops| - 1]), ops[|ops| - 1];
      StaysSane(n, ops[..|ops| - 1]);
      if op.OpenTemp? {
        assert CreatesOnly(op, op.path);
      } else if op.Move? {
        assert CreatesOnly(op, op.dst);
      }
      forall q
        ensures Undo(q) !in Exec(n, ops).disk && (IsBlockName(q) ==> Tmp(Tmp(q)) !in Exec(n, ops).disk)
      {
        if op.OpenTemp? {
          CreatableIsSane(op.path, q);
        } else if op.Move? {
          CreatableIsSane(op.dst, q);
        }
      }
    }
  }

  lemma {:induction false} StageCreatesWell(ps: seq<Piece>)
    requires PiecesOk(ps)
    ensures CreatesWell(StageOps(ps))
  {
    StageOpsTouchTemps(ps);
    forall i, p | 0 <= i < |StageOps(ps)| && CreatesOnly(StageOps(ps)[i], p)
      ensures Creatable(p)
    {
      assert OnlyTouchesTemps(StageOps(ps)[i], ps);
      var j :| 0 <= j < |ps| && p == Tmp(ps[j].path);
      assert p[..|p| - 4] == ps[j].path;
    }
  }

  lemma {:induction false} CreatesWellConcat(a: seq<Op>, b: seq<Op>)
    requires CreatesWell(a) && CreatesWell(b)
    ensures CreatesWell(a + b)
  {
  }

  lemma {:induction false} PrepareCreatesWell(id: string, ps: seq<Piece>)
    requires PiecesOk(ps)
    ensures CreatesWell(PrepareOps(id, ps))
  {
    StageCreatesWell(ps);
    CreatesWellConcat(StageOps(ps), [Append(Start(id, Movs(ps))), KvAdd(id, Txn(ps))]);
  }

  lemma {:induction false} AfterPrepareCreatesWell(id: string, ps: seq<Piece>, prepare: Status, commit: Status)
    requires PiecesOk(ps)
    ensures CreatesWell(AfterPrepare(id, ps, prepare, commit))
  {
  }

  /** Every client write, with any outcome of its calls, keeps a server sane. */
  lemma {:induction false} WriteStaysSane(n: Node, id: string, ps: seq<Piece>, prepare: Status, commit: Status)
    requires Sane(n.disk) && PiecesOk(ps)
    ensures Sane(Exec(n, WriteOps(n.disk, id, ps, prepare, commit)).disk)
  {
    var k := Stageable(n.disk, ps);
    if k < |ps| {
      assert PiecesOk(ps[..k]);
      StageCreatesWell(ps[..k]);
    } else {
      PrepareCreatesWell(id, ps);
      AfterPrepareCreatesWell(id, ps, prepare, commit);
      CreatesWellConcat(PrepareOps(id, ps), AfterPrepare(id, ps, prepare, commit));
    }
    StaysSane(n, WriteOps(n.disk, id, ps, prepare, commit));
  }

  lemma {:induction false} CommitCreatesWell(id: string, names: seq<string>)
    requires forall i :: 0 <= i < |names| ==> Creatable(names[i])
    ensures CreatesWell(CommitOps(id, names))
  {
  }

  lemma {:induction false} NamesAreCreatable(names: seq<string>)
    requires NamesOk(names)
    ensures forall i :: 0 <= i < |names| ==> Creatable(names[i])
  {
    forall i | 0 <= i < |names|
      ensures Creatable(names[i])
    {
      assert NameOk(names, i);
      if i % 2 == 0 && !IsId(names[i]) {
        assert names[i][..|names[i]| - 4] == names[i + 1];
      }
    }
  }

  /** So do the handlers that the other server calls, for a write and for its recovery. */
  lemma {:induction false} HandlersStaySane(n: Node, id: string, ps: seq<Piece>, names: seq<string>)
    requires Sane(n.disk) && PiecesOk(ps) && NamesOk(names)
    ensures Sane(Exec(n, PrepareOps(id, ps)).disk)
    ensures Sane(Exec(n, CommitOps(id, names)).disk)
  {
    PrepareCreatesWell(id, ps);
    StaysSane(n, PrepareOps(id, ps));
    NamesAreCreatable(names);
    CommitCreatesWell(id, names);
    StaysSane(n, CommitOps(id, names));
  }
}
