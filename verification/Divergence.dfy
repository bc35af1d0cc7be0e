/** The backup crashes and recovers at will, the primary stays up: what the replicas may differ in. */
module Divergence {
  import opened Storage
  import opened AddressTranslation
  import opened WriteAheadLog
  import opened LogParser
  import opened KeyValueStore
  import opened Nodes
  import opened Effects
  import opened CrashAtomicity
  import opened BlockServer
  import opened Recovery
  import opened RecoverySafety
  import opened WriteAheadAgreement
  import opened PeerCommits
  import opened PrimaryRecovery

  // ----- Two servers and their runs -----

  datatype Sys = Sys(primary: Node, backup: Node, up: bool)

  /** Where, during one client write, the backup stops: after so many steps of a handler, or not at all. */
  datatype Fault = NoFault | DuringPrepare(steps: nat) | DuringCommit(steps: nat)

  datatype Event =
    | ClientWrite(id: string, address: int, buffer: Bytes, fault: Fault)
    | BackupCrash
    | BackupRecover(ids: seq<string>, order: seq<string>, beyond: nat -> Bytes, steps: nat)  // cut short when too few

  function PiecesOf(address: int, buffer: Bytes): seq<Piece> {
    if IsValidAddress(address) && |buffer| == BLOCK_SIZE then
      CutOfExtents(address, buffer);
      Cut(Extents(address), buffer)
    else []
  }

  function PrepareAnswer(b: Node, up: bool, ps: seq<Piece>, fault: Fault): Status {
    if !up || fault.DuringPrepare? then UNAVAILABLE
    else if Stageable(b.disk, ps) < |ps| then OTHER
    else OK
  }

  function CommitAnswer(fault: Fault): Status {
    if fault.DuringCommit? then UNAVAILABLE else OK
  }

  function FirstOps(ops: seq<Op>, steps: nat): seq<Op> {
    ops[..Min(steps, |ops|)]
  }

  function BackupAfter(b: Node, id: string, ps: seq<Piece>, fault: Fault): Node {
    var prepare, commit := PrepareHandler(b.disk, id, ps), CommitOps(id, Paths(ps));
    if fault.DuringPrepare? then Crashed(Exec(b, FirstOps(prepare, fault.steps)))
    else if Stageable(b.disk, ps) < |ps| then Exec(b, prepare)
    else if fault.DuringCommit? then Crashed(Exec(Exec(b, prepare), FirstOps(commit, fault.steps)))
    else Exec(Exec(b, prepare), commit)
  }

  /** One client write; the backup is asked only once the primary has staged and logged it. */
  function AfterWrite(s: Sys, id: string, ps: seq<Piece>, fault: Fault): Sys {
    var p, b := s.primary, s.backup;
    if ps == [] || Stageable(p.disk, ps) < |ps| then s.(primary := Exec(p, ServeOps(p.disk, id, ps, OK, OK)))
    else
      var prepare, commit := PrepareAnswer(b, s.up, ps, fault), CommitAnswer(fault);
      Sys(Exec(p, ServeOps(p.disk, id, ps, prepare, commit)),
          if s.up then BackupAfter(b, id, ps, fault) else b,
          prepare == OTHER || (prepare == OK && commit == OK))
  }

  function AfterRecovery(s: Sys, ids: seq<string>, order: seq<string>, beyond: nat -> Bytes, steps: nat): Sys {
    var xs := RecoverOps(ParsedLog(s.backup), s.primary, ids, order, beyond);
    var r := ExecBoth(Pair(s.backup, s.primary), xs[..Min(steps, |xs|)]);
    if steps < |xs| then Sys(r.peer, Crashed(r.self), false) else Sys(r.peer, r.self, true)
  }

  function Step(s: Sys, e: Event): Sys {
    match e
    case ClientWrite(id, address, buffer, fault) => AfterWrite(s, id, PiecesOf(address, buffer), fault)
    case BackupCrash => Sys(s.primary, Crashed(s.backup), false)
    case BackupRecover(ids, order, beyond, steps) => AfterRecovery(s, ids, order, beyond, steps)
  }

  /** Ids are fresh; the backup recovers when it is down, asking a primary that has no write in flight. */
  ghost predicate Possible(s: Sys, e: Event) {
    match e
    case ClientWrite(id, _, buffer, _) =>
      IsId(id) && id !in s.primary.kv && id !in Ids(s.backup.log) && |buffer| == BLOCK_SIZE
    case BackupCrash => true
    case BackupRecover(ids, order, _, _) => !s.up && RecoveryRun(s.backup, s.primary, ids, order)
  }

  function RunEvents(s: Sys, es: seq<Event>): Sys {
    if es == [] then s else Step(RunEvents(s, es[..|es| - 1]), es[|es| - 1])
  }

  ghost predicate PossibleRun(s: Sys, es: seq<Event>) {
    forall i :: 0 <= i < |es| ==> Possible(RunEvents(s, es[..i]), es[i])
  }

  // ----- What holds between events -----

  ghost predicate Differs(d: Disk, e: Disk, p: string, i: nat) {
    IsBlockName(p) && p in d && p in e && ByteAt(d[p], i) != ByteAt(e[p], i)
  }

  ghost predicate InTxn(txn: TxnData, p: string, i: nat) {
    TxnShape(txn)
    && exists j :: 0 <= j < |txn.originalFiles| && txn.originalFiles[j] == p
                   && txn.offsets[j] <= i < txn.offsets[j] + txn.sizes[j]
  }

  /** The transaction is pending on the primary, and the backup's log does not show it committed. */
  ghost predicate Owed(kv: Kv, log: seq<Record>, id: string) {
    id in kv && kv[id].state == PENDING_REPLICATION && StateOf(log, id) != COMMIT
  }

  ghost predicate Covered(s: Sys, p: string, i: nat) {
    exists id :: Owed(s.primary.kv, s.backup.log, id) && InTxn(s.primary.kv[id], p, i)
  }

  /** No block is longer than it should be; created and half-written blocks are shorter. */
  ghost predicate Short(d: Disk) {
    forall p :: IsBlockName(p) && p in d ==> |d[p]| <= BLOCK_SIZE
  }

  ghost predicate TempsSmall(d: Disk) {
    forall p :: IsBlockName(p) && Tmp(p) in d ==> |d[Tmp(p)]| <= BLOCK_SIZE
  }

  ghost predicate SameNames(d: Disk, e: Disk) {
    forall p :: IsBlockName(p) ==> (p in d <==> p in e)
  }

  /** A write to different blocks, inside them. */
  ghost predicate TxnOk(txn: TxnData) {
    && TxnShape(txn)
    && (forall j :: 0 <= j < |txn.originalFiles| ==>
          IsBlockName(txn.originalFiles[j]) && txn.offsets[j] + txn.sizes[j] <= BLOCK_SIZE)
    && (forall i, j :: 0 <= i < j < |txn.originalFiles| ==> txn.originalFiles[i] != txn.originalFiles[j])
  }

  ghost predicate KvOk(kv: Kv) {
    forall id :: id in kv ==> TxnOk(kv[id])
  }

  /** A backup has only ever prepared and committed. */
  ghost predicate BackupLog(log: seq<Record>) {
    LogOk(log) && forall i :: 0 <= i < |log| ==> log[i].Start? || log[i].Commit?
  }

  ghost predicate Shape(s: Sys) {
    && Short(s.primary.disk) && Short(s.backup.disk) && SameNames(s.primary.disk, s.backup.disk)
    && TempsSmall(s.primary.disk) && TempsSmall(s.backup.disk)
    && Sane(s.backup.disk) && BackupLog(s.backup.log) && KvOk(s.primary.kv)
  }

  ghost predicate AllCovered(s: Sys) {
    forall p, i: nat :: Differs(s.primary.disk, s.backup.disk, p, i) ==> Covered(s, p, i)
  }

  // ----- Lengths -----

  /** Steps after which temp files are still at most a block long. */
  predicate Small(op: Op) {
    match op
    case PWrite(_, data, off) => off + |data| <= BLOCK_SIZE
    case Move(_, dst) => IsBlockName(dst)
    case _ => true
  }

  ghost predicate AllSmall(ops: seq<Op>) {
    forall i :: 0 <= i < |ops| ==> Small(ops[i])
  }

  lemma {:induction false} SmallStep(n: Node, op: Op)
    requires TempsSmall(n.disk) && Small(op)
    ensures TempsSmall(Apply(n, op).disk)
  {
  }

  lemma {:induction false} StaysSmall(n: Node, ops: seq<Op>)
    requires TempsSmall(n.disk) && AllSmall(ops)
    ensures TempsSmall(Exec(n, ops).disk)
  {
    hide TempsSmall, Small, Apply;
    if ops != [] {
      StaysSmall(n, ops[..|ops| - 1]);
      SmallStep(Exec(n, ops[..|ops| - 1]), ops[|ops| - 1]);
    }
  }

  lemma {:induction false} SmallConcat(a: seq<Op>, b: seq<Op>)
    requires AllSmall(a) && AllSmall(b)
    ensures AllSmall(a + b)
  {
  }

  lemma {:induction false} StagingIsSmall(ps: seq<Piece>)
    requires PiecesOk(ps)
    ensures AllSmall(StageOps(ps))
  {
    if ps != [] {
      var init, last := ps[..|ps| - 1], ps[|ps| - 1];
      StagingIsSmall(init);
      assert AllSmall(StageOne(last));
      SmallConcat(StageOps(init), StageOne(last));
    }
  }

  lemma {:induction false} RenamesAreSmall(ps: seq<Piece>)
    requires PiecesOk(ps)
    ensures AllSmall(MoveOps(Paths(ps)))
  {
  }

  lemma {:induction false} PrepareIsSmall(id: string, ps: seq<Piece>)
    requires PiecesOk(ps)
    ensures AllSmall(PrepareOps(id, ps)) && AllSmall(CommitOps(id, Paths(ps)))
  {
    StagingIsSmall(ps);
    RenamesAreSmall(ps);
    SmallConcat(StageOps(ps), [Append(Start(id, Movs(ps))), KvAdd(id, Txn(ps))]);
    SmallConcat(MoveOps(Paths(ps)), [Append(Commit(id)), KvDrop(id)]);
  }

  lemma {:induction false} AfterPrepareIsSmall(id: string, ps: seq<Piece>, prepare: Status, commit: Status)
    requires PiecesOk(ps)
    ensures AllSmall(AfterPrepare(id, ps, prepare, commit))
  {
  }

  /** Leftovers are harmless wherever there are none, the block is whole, or the write replaces it as a whole. */
  lemma {:induction false} UsuallyReusable(d: Disk, ps: seq<Piece>)
    requires Short(d) && TempsSmall(d) && PiecesOk(ps)
    requires forall i :: 0 <= i < |ps| && ps[i].path in d ==>
               Tmp(ps[i].path) !in d || |d[ps[i].path]| == BLOCK_SIZE || |ps[i].data| == BLOCK_SIZE
    ensures Reusable(d, ps)
  {
  }

  /** The same blocks, none of them shorter. */
  ghost predicate Grows(d: Disk, e: Disk) {
    forall p :: IsBlockName(p) ==> (p in d <==> p in e) && (p in d ==> |d[p]| <= |e[p]|)
  }

  ghost predicate BothGrow(s: Sys, t: Sys) {
    Grows(s.primary.disk, t.primary.disk) && Grows(s.backup.disk, t.backup.disk)
  }

  /** Each of the first `r` files holds what was staged for it, leftovers included; no other block has changed. */
  ghost predicate Placed(d: Disk, e: Disk, ps: seq<Piece>, r: nat) {
    forall q :: IsBlockName(q) ==> OldOrStaged(d, e, ps, r, q)
  }

  lemma {:induction false} StaleIsSmall(d: Disk, p: string)
    requires TempsSmall(d) && IsBlockName(p)
    ensures |StaleOf(d, p)| <= BLOCK_SIZE
  {
  }

  lemma {:induction false} GrowsWhenPlaced(d: Disk, e: Disk, ps: seq<Piece>, r: nat)
    requires PiecesOk(ps) && Short(d) && TempsSmall(d) && Placed(d, e, ps, r)
    ensures Short(e) && SameNames(e, d) && Grows(d, e)
  {
    hide Staged, TempsSmall, StaleOf, IsBlockName;
    forall q | IsBlockName(q)
      ensures (q in e <==> q in d) && (q in e ==> |d[q]| <= |e[q]| <= BLOCK_SIZE)
    {
      assert OldOrStaged(d, e, ps, r, q);
      if i :| 0 <= i < Min(r, |ps|) && ps[i].path == q {
        StagedLength(StaleOf(d, q), d[q], ps[i].data, ps[i].off);
        StaleIsSmall(d, q);
      }
    }
  }

  // ----- The bytes of one write -----

  ghost predicate InPieces(ps: seq<Piece>, p: string, i: nat) {
    exists j :: 0 <= j < |ps| && ps[j].path == p && ps[j].off <= i < ps[j].off + |ps[j].data|
  }

  /** What staging leaves at a byte that it does not write: the block's own, or past its end the leftover's. */
  function ShownByte(d: Disk, p: string, i: nat): byte
    requires p in d
  {
    if i < |d[p]| then d[p][i] else ByteAt(StaleOf(d, p), i)
  }

  predicate InExtent(piece: Piece, i: nat) {
    piece.off <= i < piece.off + |piece.data|
  }

  lemma {:induction false} PlacedHere(d: Disk, e: Disk, ps: seq<Piece>, r: nat, j: nat, i: nat)
    requires PiecesOk(ps) && Short(d) && Placed(d, e, ps, r) && j < |ps| && ps[j].path in d
    ensures var p := ps[j].path;
            p in e
            && ByteAt(e[p], i) == if j >= r then ByteAt(d[p], i)
                                  else if InExtent(ps[j], i) then ps[j].data[i - ps[j].off] else ShownByte(d, p, i)
  {
    var p := ps[j].path;
    hide Staged, StaleOf, IsBlockName, ByteAt;
    assert OldOrStaged(d, e, ps, r, p);
    if j < r {
      StagedByte(StaleOf(d, p), d[p], ps[j].data, ps[j].off, i);
    } else {
      assert forall k :: 0 <= k < Min(r, |ps|) ==> ps[k].path != p;
    }
  }

  lemma {:induction false} PlacedElsewhere(d: Disk, e: Disk, ps: seq<Piece>, r: nat, p: string)
    requires Placed(d, e, ps, r) && IsBlockName(p) && forall j :: 0 <= j < |ps| ==> ps[j].path != p
    ensures SameAt(e, d, p)
  {
    assert OldOrStaged(d, e, ps, r, p);
  }

  /** The primary has staged and renamed piece `j`, the backup has renamed the first `r`: outside the bytes of the
      write, the two files end with different bytes. */
  ghost predicate ShowsApart(d: Disk, e: Disk, ps: seq<Piece>, r: nat, j: nat, i: nat) {
    && j < |ps| && ps[j].path in d && ps[j].path in e && !InExtent(ps[j], i)
    && ShownByte(d, ps[j].path, i) != if j < r then ShownByte(e, ps[j].path, i) else ByteAt(e[ps[j].path], i)
  }

  /** All pieces here, the first `r` there: a byte of a written file differs then if it shows apart, or belongs to a
      piece that is missing there and is not what was there before. */
  lemma {:induction false} DifferenceAfterWrite(d: Disk, e: Disk, d': Disk, e': Disk, ps: seq<Piece>, r: nat, j: nat, i: nat)
    requires PiecesOk(ps) && Short(d) && Short(e) && SameNames(d, e) && j < |ps| && ps[j].path in d
    requires Placed(d, d', ps, |ps|) && Placed(e, e', ps, r)
    ensures Differs(d', e', ps[j].path, i)
            <==> if InExtent(ps[j], i) then j >= r && ps[j].data[i - ps[j].off] != ByteAt(e[ps[j].path], i)
                 else ShowsApart(d, e, ps, r, j, i)
  {
    hide Placed, Short, ByteAt, ShownByte, InExtent;
    assert IsBlockName(ps[j].path);
    PlacedHere(d, d', ps, |ps|, j, i);
    PlacedHere(e, e', ps, r, j, i);
  }

  /** In the other files nothing has changed. */
  lemma {:induction false} SameDifference(d: Disk, e: Disk, d': Disk, e': Disk, ps: seq<Piece>, r: nat, p: string, i: nat)
    requires Placed(d, d', ps, |ps|) && Placed(e, e', ps, r) && forall j :: 0 <= j < |ps| ==> ps[j].path != p
    ensures Differs(d', e', p, i) <==> Differs(d, e, p, i)
  {
    hide Placed, ByteAt;
    if IsBlockName(p) {
      PlacedElsewhere(d, d', ps, |ps|, p);
      PlacedElsewhere(e, e', ps, r, p);
    }
  }

  lemma {:induction false} NamesOfInstall(d: Disk, ps: seq<Piece>, p: string)
    ensures p in Install(d, ps) <==> p in d
  {
    if ps != [] {
      NamesOfInstall(d, ps[..|ps| - 1], p);
    }
  }

  // ----- The table and the logs after a write -----

  lemma {:induction false} FilesKeepBooks(n: Node, ops: seq<Op>)
    requires OnlyFiles(ops)
    ensures Exec(n, ops).log == n.log && Exec(n, ops).kv == n.kv
  {
    CoreOfFiles(ops);
    CoreDecides(n, ops);
  }

  lemma {:induction false} TwoSteps(n: Node, a: Op, b: Op)
    ensures Exec(n, [a, b]) == Apply(Apply(n, a), b)
  {
    assert [a, b] == [a] + [b];
    ExecOne(n, a);
    ExecAppend(n, [a], b);
  }

  /** The log after `k` steps that end in one record and one change to the table. */
  lemma {:induction false} OneRecord(n: Node, files: seq<Op>, r: Record, last: Op, k: nat)
    requires OnlyFiles(files) && (last.KvAdd? || last.KvDrop?) && k <= |files| + 2
    ensures Exec(n, (files + [Append(r), last])[..k]).log == n.log + if k > |files| then [r] else []
  {
    var n1 := Exec(n, files);
    ExecPrefix(n, files, [Append(r), last], k);
    FilesKeepBooks(n, files);
    if k <= |files| {
      FilesKeepBooks(n, files[..k]);
    } else if k == |files| + 1 {
      assert [Append(r), last][..1] == [Append(r)];
      ExecOne(n1, Append(r));
    } else {
      assert [Append(r), last][..2] == [Append(r), last];
      TwoSteps(n1, Append(r), last);
    }
  }

  function Logged(id: string, ps: seq<Piece>, k: nat): seq<Record> {
    (if k > 3 * |ps| then [Start(id, Movs(ps))] else []) + if k > 4 * |ps| + 2 then [Commit(id)] else []
  }

  lemma {:induction false} StagedThenMoved(id: string, ps: seq<Piece>)
    ensures OnlyFiles(StageOps(ps)) && OnlyFiles(MoveOps(Paths(ps))) && |StageOps(ps)| == 3 * |ps| && |MoveOps(Paths(ps))| == |ps|
    ensures PrepareOps(id, ps) == StageOps(ps) + [Append(Start(id, Movs(ps))), KvAdd(id, Txn(ps))]
    ensures CommitOps(id, Paths(ps)) == MoveOps(Paths(ps)) + [Append(Commit(id)), KvDrop(id)]
  {
    StageOpsTouchTemps(ps);
    StageOpsAreFiles(ps);
  }

  lemma {:induction false} LogAfterPrepare(b: Node, id: string, ps: seq<Piece>, k: nat)
    requires k <= |PrepareOps(id, ps)|
    ensures |PrepareOps(id, ps)| == 3 * |ps| + 2
    ensures Exec(b, PrepareOps(id, ps)[..k]).log == b.log + if k > 3 * |ps| then [Start(id, Movs(ps))] else []
  {
    hide *;
    StagedThenMoved(id, ps);
    NowAdds(id, Txn(ps));
    OneRecord(b, StageOps(ps), Start(id, Movs(ps)), KvAdd(id, Txn(ps)), k);
  }

  lemma {:induction false} LogAfterCommit(b: Node, id: string, ps: seq<Piece>, k: nat)
    requires k <= |CommitOps(id, Paths(ps))|
    ensures |CommitOps(id, Paths(ps))| == |ps| + 2
    ensures Exec(b, CommitOps(id, Paths(ps))[..k]).log == b.log + if k > |ps| then [Commit(id)] else []
  {
    hide *;
    StagedThenMoved(id, ps);
    OneRecord(b, MoveOps(Paths(ps)), Commit(id), KvDrop(id), k);
  }

  lemma {:induction false} NowAdds(id: string, txn: TxnData)
    ensures KvAdd(id, txn).KvAdd?
  {
  }

  lemma {:induction false} BackupLogAt(b: Node, id: string, ps: seq<Piece>, k: nat)
    requires k <= |PrepareOps(id, ps) + CommitOps(id, Paths(ps))|
    ensures Exec(b, (PrepareOps(id, ps) + CommitOps(id, Paths(ps)))[..k]).log == b.log + Logged(id, ps, k)
  {
    var prepare, commit := PrepareOps(id, ps), CommitOps(id, Paths(ps));
    hide Exec, PrepareOps, CommitOps, Movs;
    LogAfterPrepare(b, id, ps, Min(k, |prepare|));
    ExecPrefix(b, prepare, commit, k);
    if k > |prepare| {
      WholeOps(prepare);
      LogAfterCommit(Exec(b, prepare), id, ps, k - |prepare|);
    }
  }

  predicate EndsPending(prepare: Status, commit: Status) {
    prepare == UNAVAILABLE || (prepare == OK && commit == UNAVAILABLE)
  }

  lemma {:induction false} KvAfterWrite(p: Node, id: string, ps: seq<Piece>, prepare: Status, commit: Status)
    requires Present(p.disk, ps) && id !in p.kv
    ensures Exec(p, WriteOps(p.disk, id, ps, prepare, commit)).kv
            == if EndsPending(prepare, commit) then p.kv[id := Txn(ps).(state := PENDING_REPLICATION)] else p.kv
  {
    StageableAll(p.disk, ps);
    CoreOfWrite(p.disk, id, ps, prepare, commit);
    CoreDecides(p, WriteOps(p.disk, id, ps, prepare, commit));
    KvAfterCore(p, id, ps, prepare, commit);
  }

  lemma {:induction false} KvAfterCore(p: Node, id: string, ps: seq<Piece>, prepare: Status, commit: Status)
    requires id !in p.kv
    ensures Exec(p, WriteCore(id, ps, prepare, commit)).kv
            == if EndsPending(prepare, commit) then p.kv[id := Txn(ps).(state := PENDING_REPLICATION)] else p.kv
  {
    var txn := Txn(ps);
    var s, a := Append(Start(id, Movs(ps))), KvAdd(id, txn);
    hide Exec, Txn, Movs;
    var n1 := Exec(p, [s, a]);
    TwoSteps(p, s, a);
    assert n1.kv == p.kv[id := txn];
    match prepare
    case UNAVAILABLE =>
      ThenTwo(p, [s, a], Append(Pending(id)), KvSet(id, PENDING_REPLICATION));
    case OTHER =>
      ThenTwo(p, [s, a], Append(Abort(id)), KvDrop(id));
    case OK =>
      var i, k := Append(ReplInit(id)), KvSet(id, RPC_INIT);
      ThenTwo(p, [s, a], i, k);
      var n2 := Exec(p, [s, a] + [i, k]);
      assert n2.kv == p.kv[id := txn.(state := RPC_INIT)];
      match commit
      case OK => ThenTwo(p, [s, a] + [i, k], Append(Commit(id)), KvDrop(id));
      case UNAVAILABLE => ThenTwo(p, [s, a] + [i, k], Append(Pending(id)), KvSet(id, PENDING_REPLICATION));
      case OTHER => ExecAppend(p, [s, a] + [i, k], KvDrop(id));
  }

  lemma {:induction false} ThenTwo(n: Node, ops: seq<Op>, a: Op, b: Op)
    ensures Exec(n, ops + [a, b]) == Apply(Apply(Exec(n, ops), a), b)
  {
    ExecConcat(n, ops, [a, b]);
    TwoSteps(Exec(n, ops), a, b);
  }

  // ----- A write keeps every difference accounted for -----

  ghost predicate CleanPieces(ps: seq<Piece>) {
    PiecesOk(ps) && ps != [] && forall i :: 0 <= i < |ps| ==> Clean(ps[i].path)
  }

  ghost predicate BackupOk(b: Node) {
    Short(b.disk) && TempsSmall(b.disk) && Sane(b.disk) && BackupLog(b.log)
  }

  function BackupSteps(id: string, ps: seq<Piece>): seq<Op> {
    PrepareOps(id, ps) + CommitOps(id, Paths(ps))
  }

  lemma {:induction false} LoggedIsOk(log: seq<Record>, id: string, ps: seq<Piece>, k: nat)
    requires BackupLog(log) && CleanPieces(ps) && IsId(id) && id !in Ids(log)
    ensures BackupLog(log + Logged(id, ps, k))
    ensures LogsSame(log, log + Logged(id, ps, k), id)
    ensures StateOf(log + Logged(id, ps, k), id) == COMMIT ==> k > 4 * |ps| + 2
  {
    var s, c := Start(id, Movs(ps)), Commit(id);
    assert RecordOk(s) && RecordOk(c);
    LoggedCases(log, id, ps, k);
    forall other
      ensures StateOf(log + Logged(id, ps, k), other)
              == if other != id then StateOf(log, other) else if k > 4 * |ps| + 2 then COMMIT else START
    {
      StateAfterLogged(log, id, ps, k, other);
    }
    hide StateOf, RecordOk, Movs, Logged;
  }

  lemma {:induction false} LoggedCases(log: seq<Record>, id: string, ps: seq<Piece>, k: nat)
    ensures log + Logged(id, ps, k)
            == if k <= 3 * |ps| then log
               else if k <= 4 * |ps| + 2 then log + [Start(id, Movs(ps))]
               else log + [Start(id, Movs(ps))] + [Commit(id)]
  {
  }

  lemma {:induction false} StateAfterLogged(log: seq<Record>, id: string, ps: seq<Piece>, k: nat, other: string)
    requires id !in Ids(log)
    ensures StateOf(log + Logged(id, ps, k), other)
            == if other != id then StateOf(log, other) else if k > 4 * |ps| + 2 then COMMIT else START
  {
    hide StateOf, Movs, Logged;
    LoggedCases(log, id, ps, k);
    UnknownId(log, id);
    OneMoreRecord(log, Start(id, Movs(ps)), other);
    OneMoreRecord(log + [Start(id, Movs(ps))], Commit(id), other);
  }

  lemma {:induction false} BackupStaysSane(b: Node, id: string, ps: seq<Piece>, k: nat)
    requires PiecesOk(ps) && Sane(b.disk) && TempsSmall(b.disk) && k <= |BackupSteps(id, ps)|
    ensures Sane(Exec(b, BackupSteps(id, ps)[..k]).disk) && TempsSmall(Exec(b, BackupSteps(id, ps)[..k]).disk)
  {
    var a, c := PrepareOps(id, ps), CommitOps(id, Paths(ps));
    PrepareCreatesWell(id, ps);
    BlocksAreCreatable(ps);
    CommitCreatesWell(id, Paths(ps));
    PrepareIsSmall(id, ps);
    hide PrepareOps, CommitOps, Creatable, CreatesOnly, Small, Sane, TempsSmall, PiecesOk, Exec;
    CreatesWellConcat(a, c);
    SmallConcat(a, c);
    assert CreatesWell((a + c)[..k]) && AllSmall((a + c)[..k]);
    StaysSane(b, (a + c)[..k]);
    StaysSmall(b, (a + c)[..k]);
  }

  /** The backup, cut after any number of the steps of `Prepare` and `Commit`. */
  lemma {:induction false} BackupAtStep(b: Node, id: string, ps: seq<Piece>, k: nat)
    requires BackupOk(b) && CleanPieces(ps) && Present(b.disk, ps) && IsId(id) && id !in Ids(b.log)
    requires k <= |BackupSteps(id, ps)|
    ensures var b1 := Exec(b, BackupSteps(id, ps)[..k]);
            && BackupOk(b1) && Grows(b.disk, b1.disk) && Placed(b.disk, b1.disk, ps, Installed(|ps|, OK, k))
            && LogsSame(b.log, b1.log, id)
            && (StateOf(b1.log, id) == COMMIT ==> Installed(|ps|, OK, k) == |ps|)
  {
    hide *;
    BackupOkParts(b);
    CleanArePieces(ps);
    StepsAre(id, ps);
    BackupPlaces(b, id, ps, k);
    BackupStaysSane(b, id, ps, k);
    BackupLogAt(b, id, ps, k);
    LoggedIsOk(b.log, id, ps, k);
    var b1 := Exec(b, BackupSteps(id, ps)[..k]);
    GrowsWhenPlaced(b.disk, b1.disk, ps, Installed(|ps|, OK, k));
    BackupOkFrom(b1);
    AllInstalled(|ps|, k);
  }

  lemma {:induction false} BackupPlaces(b: Node, id: string, ps: seq<Piece>, k: nat)
    requires PiecesOk(ps) && Present(b.disk, ps) && k <= |BackupSteps(id, ps)|
    ensures Placed(b.disk, Exec(b, BackupSteps(id, ps)[..k]).disk, ps, Installed(|ps|, OK, k))
  {
    StageableAll(b.disk, ps);
    assert ReplicaOps(b.disk, id, ps) == BackupSteps(id, ps);
    hide Exec, PrepareOps, CommitOps, OldOrStaged, PiecesOk, ReplicaOps, BackupSteps, Stageable;
    forall q | IsBlockName(q)
      ensures OldOrStaged(b.disk, Exec(b, BackupSteps(id, ps)[..k]).disk, ps, Installed(|ps|, OK, k), q)
    {
      BackupCrashExactly(b, id, ps, k, q);
      SameCount(b.disk, Exec(b, BackupSteps(id, ps)[..k]).disk, ps, FilesInPlace(b.disk, ps, OK, k), Installed(|ps|, OK, k), q);
    }
  }

  lemma {:induction false} BackupOkParts(b: Node)
    requires BackupOk(b)
    ensures Short(b.disk) && TempsSmall(b.disk) && Sane(b.disk) && BackupLog(b.log)
  {
  }

  lemma {:induction false} BackupOkFrom(b: Node)
    requires Short(b.disk) && TempsSmall(b.disk) && Sane(b.disk) && BackupLog(b.log)
    ensures BackupOk(b)
  {
  }

  lemma {:induction false} CleanArePieces(ps: seq<Piece>)
    requires CleanPieces(ps)
    ensures PiecesOk(ps)
  {
  }

  lemma {:induction false} StepsAre(id: string, ps: seq<Piece>)
    ensures BackupSteps(id, ps) == PrepareOps(id, ps) + CommitOps(id, Paths(ps))
  {
  }

  lemma {:induction false} AllInstalled(m: nat, k: nat)
    ensures k > 4 * m + 2 ==> Installed(m, OK, k) == m
  {
  }

  /** How far the backup gets, whatever fault befalls it. */
  function StepsTaken(m: nat, fault: Fault): nat {
    match fault
    case NoFault => 4 * m + 4
    case DuringPrepare(k) => Min(k, 3 * m + 2)
    case DuringCommit(k) => 3 * m + 2 + Min(k, m + 2)
  }

  lemma {:induction false} BackupAfterIs(b: Node, id: string, ps: seq<Piece>, fault: Fault)
    requires Present(b.disk, ps) && CleanPieces(ps)
    ensures var a, c, b1 := PrepareOps(id, ps), CommitOps(id, Paths(ps)), BackupAfter(b, id, ps, fault);
            match fault
            case NoFault => b1 == Exec(Exec(b, a), c)
            case DuringPrepare(k) => b1 == Crashed(Exec(b, FirstOps(a, k)))
            case DuringCommit(k) => b1 == Crashed(Exec(Exec(b, a), FirstOps(c, k)))
  {
    StageableAll(b.disk, ps);
    StagingOfBlocks(b.disk, ps);
    hide Exec, PrepareOps, CommitOps, Stageable, Staging, Paths, FirstOps;
  }

  lemma {:induction false} StepsSplit(id: string, ps: seq<Piece>, fault: Fault)
    ensures StepsTaken(|ps|, fault) <= |BackupSteps(id, ps)| == 4 * |ps| + 4
    ensures var a, c, k := PrepareOps(id, ps), CommitOps(id, Paths(ps)), StepsTaken(|ps|, fault);
            match fault
            case NoFault => k == |a| + |c|
            case DuringPrepare(_) => k <= |a| && a[..k] == FirstOps(a, fault.steps)
            case DuringCommit(_) => |a| <= k && c[..k - |a|] == FirstOps(c, fault.steps)
  {
    HandlerLengths(id, ps);
    hide PrepareOps, CommitOps;
  }

  lemma {:induction false} ExecParts(b: Node, a: seq<Op>, c: seq<Op>, k: nat)
    requires k <= |a| + |c|
    ensures k <= |a| ==> Exec(b, (a + c)[..k]) == Exec(b, a[..k])
    ensures k >= |a| ==> Exec(b, (a + c)[..k]) == Exec(Exec(b, a), c[..k - |a|])
  {
    hide Exec;
    ExecPrefix(b, a, c, k);
    if k == |a| {
      WholeOps(a);
      ExecNothing(Exec(b, a), c[..0]);
    }
  }

  lemma {:induction false} SameAfterCrash(n: Node)
    ensures Crashed(n).disk == n.disk && Crashed(n).log == n.log
  {
  }

  lemma {:induction false} BackupStops(b: Node, id: string, ps: seq<Piece>, fault: Fault)
    requires Present(b.disk, ps) && CleanPieces(ps)
    ensures StepsTaken(|ps|, fault) <= |BackupSteps(id, ps)| == 4 * |ps| + 4
    ensures var b1 := Exec(b, BackupSteps(id, ps)[..StepsTaken(|ps|, fault)]);
            BackupAfter(b, id, ps, fault).disk == b1.disk && BackupAfter(b, id, ps, fault).log == b1.log
  {
    var a, c, k := PrepareOps(id, ps), CommitOps(id, Paths(ps)), StepsTaken(|ps|, fault);
    hide *;
    BackupAfterIs(b, id, ps, fault);
    StepsSplit(id, ps, fault);
    StepsAre(id, ps);
    ExecParts(b, a, c, k);
    match fault
    case NoFault => WholeOps(c);
    case DuringPrepare(_) => SameAfterCrash(Exec(b, a[..k]));
    case DuringCommit(_) => SameAfterCrash(Exec(Exec(b, a), c[..k - |a|]));
  }

  lemma {:induction false} HandlerLengths(id: string, ps: seq<Piece>)
    ensures |PrepareOps(id, ps)| == 3 * |ps| + 2 && |CommitOps(id, Paths(ps))| == |ps| + 2
  {
    StageOpsTouchTemps(ps);
  }

  lemma {:induction false} WholeOps(ops: seq<Op>)
    ensures ops[..|ops|] == ops
  {
  }

  lemma {:induction false} OwnExtent(ps: seq<Piece>, state: State, j: nat, i: nat)
    requires PiecesOk(ps) && j < |ps|
    ensures InTxn(Txn(ps).(state := state), ps[j].path, i) <==> InExtent(ps[j], i)
  {
    assert forall k :: 0 <= k < |ps| && ps[k].path == ps[j].path ==> k == j;
  }

  lemma {:induction false} TxnIsOk(ps: seq<Piece>, state: State)
    requires PiecesOk(ps)
    ensures TxnOk(Txn(ps).(state := state))
  {
  }

  ghost predicate LogsSame(log: seq<Record>, log': seq<Record>, id: string) {
    forall other :: other != id ==> StateOf(log', other) == StateOf(log, other)
  }

  /** One more transaction: what was covered stays so, and only its own extents are new. */
  lemma {:induction false} CoveredStays(s: Sys, s': Sys, id: string, txn: TxnData, p: string, i: nat)
    requires id !in s.primary.kv && LogsSame(s.backup.log, s'.backup.log, id)
    requires s'.primary.kv == s.primary.kv[id := txn] || s'.primary.kv == s.primary.kv
    ensures Covered(s, p, i) ==> Covered(s', p, i)
    ensures !InTxn(txn, p, i) ==> (Covered(s', p, i) <==> Covered(s, p, i))
  {
    hide StateOf, InTxn;
    forall z
      ensures Owed(s.primary.kv, s.backup.log, z) ==> Owed(s'.primary.kv, s'.backup.log, z) && s'.primary.kv[z] == s.primary.kv[z]
      ensures z != id && Owed(s'.primary.kv, s'.backup.log, z) ==>
                Owed(s.primary.kv, s.backup.log, z) && s'.primary.kv[z] == s.primary.kv[z]
      ensures Owed(s'.primary.kv, s'.backup.log, id) ==> s'.primary.kv[id] == txn
    {
    }
  }

  /** The leftovers that show apart do so where an owed transaction accounts for it. */
  ghost predicate LeftoversCovered(s: Sys, ps: seq<Piece>, r: nat) {
    forall j: nat, i: nat :: ShowsApart(s.primary.disk, s.backup.disk, ps, r, j, i) ==> Covered(s, ps[j].path, i)
  }

  /** What both servers' sides of a completed write come to. */
  ghost predicate WrittenBoth(s: Sys, s': Sys, id: string, ps: seq<Piece>, r: nat) {
    && Placed(s.primary.disk, s'.primary.disk, ps, |ps|) && Placed(s.backup.disk, s'.backup.disk, ps, r) && r <= |ps|
    && id !in s.primary.kv && LogsSame(s.backup.log, s'.backup.log, id)
    && (s'.primary.kv == s.primary.kv[id := Txn(ps).(state := PENDING_REPLICATION)]
        || (s'.primary.kv == s.primary.kv && r == |ps|))
    && (r < |ps| ==> StateOf(s'.backup.log, id) != COMMIT)
  }

  lemma {:induction false} ByteAfterWrite(s: Sys, s': Sys, id: string, ps: seq<Piece>, r: nat, j: nat, i: nat)
    requires Shape(s) && PiecesOk(ps) && WrittenBoth(s, s', id, ps, r) && j < |ps| && ps[j].path in s.primary.disk
    ensures (Differs(s'.primary.disk, s'.backup.disk, ps[j].path, i) ==> Covered(s', ps[j].path, i))
            <==> (ShowsApart(s.primary.disk, s.backup.disk, ps, r, j, i) ==> Covered(s, ps[j].path, i))
  {
    var txn, p := Txn(ps).(state := PENDING_REPLICATION), ps[j].path;
    hide Placed, StateOf, InTxn, LogsSame, Covered, Txn, PiecesOk, Sane, BackupLog, KvOk, TempsSmall, Short, SameNames;
    hide ShownByte, ByteAt, Differs;
    DifferenceAfterWrite(s.primary.disk, s.backup.disk, s'.primary.disk, s'.backup.disk, ps, r, j, i);
    OwnExtent(ps, PENDING_REPLICATION, j, i);
    CoveredStays(s, s', id, txn, p, i);
    if InExtent(ps[j], i) && j >= r {
      NowOwed(s', id, p, i);
    }
  }

  lemma {:induction false} OtherByteAfterWrite(s: Sys, s': Sys, id: string, ps: seq<Piece>, r: nat, p: string, i: nat)
    requires AllCovered(s) && WrittenBoth(s, s', id, ps, r) && forall j :: 0 <= j < |ps| ==> ps[j].path != p
    ensures Differs(s'.primary.disk, s'.backup.disk, p, i) ==> Covered(s', p, i)
  {
    hide Placed, StateOf, InTxn, LogsSame, Covered, Txn, Differs, AllCovered;
    SameDifference(s.primary.disk, s.backup.disk, s'.primary.disk, s'.backup.disk, ps, r, p, i);
    CoveredStays(s, s', id, Txn(ps).(state := PENDING_REPLICATION), p, i);
    if Differs(s.primary.disk, s.backup.disk, p, i) {
      WasCovered(s, p, i);
    }
  }

  /** After a completed write every difference is accounted for exactly when the leftovers that show are. */
  lemma {:induction false} CoveredAfterWrite(s: Sys, s': Sys, id: string, ps: seq<Piece>, r: nat)
    requires Inv(s) && PiecesOk(ps) && Present(s.primary.disk, ps) && WrittenBoth(s, s', id, ps, r)
    ensures AllCovered(s') <==> LeftoversCovered(s, ps, r)
  {
    hide WrittenBoth, Shape, AllCovered, Covered, Differs, ShowsApart, PiecesOk;
    forall j: nat, i: nat | j < |ps|
      ensures (Differs(s'.primary.disk, s'.backup.disk, ps[j].path, i) ==> Covered(s', ps[j].path, i))
              <==> (ShowsApart(s.primary.disk, s.backup.disk, ps, r, j, i) ==> Covered(s, ps[j].path, i))
    {
      ByteAfterWrite(s, s', id, ps, r, j, i);
    }
    forall p, i: nat | forall j :: 0 <= j < |ps| ==> ps[j].path != p
      ensures Differs(s'.primary.disk, s'.backup.disk, p, i) ==> Covered(s', p, i)
    {
      OtherByteAfterWrite(s, s', id, ps, r, p, i);
    }
    CoveredByPath(s, s', ps, r);
  }

  lemma {:induction false} CoveredByPath(s: Sys, s': Sys, ps: seq<Piece>, r: nat)
    requires forall j: nat, i: nat :: j < |ps| ==>
               ((Differs(s'.primary.disk, s'.backup.disk, ps[j].path, i) ==> Covered(s', ps[j].path, i))
                <==> (ShowsApart(s.primary.disk, s.backup.disk, ps, r, j, i) ==> Covered(s, ps[j].path, i)))
    requires forall p, i: nat :: (forall j :: 0 <= j < |ps| ==> ps[j].path != p) ==>
               (Differs(s'.primary.disk, s'.backup.disk, p, i) ==> Covered(s', p, i))
    ensures AllCovered(s') <==> LeftoversCovered(s, ps, r)
  {
    hide Differs, Covered;
    assert forall j: nat, i: nat :: ShowsApart(s.primary.disk, s.backup.disk, ps, r, j, i) ==> j < |ps|;
    hide ShowsApart;
    if LeftoversCovered(s, ps, r) {
      forall p, i: nat | Differs(s'.primary.disk, s'.backup.disk, p, i)
        ensures Covered(s', p, i)
      {
        if j :| 0 <= j < |ps| && ps[j].path == p {
          assert ShowsApart(s.primary.disk, s.backup.disk, ps, r, j, i) ==> Covered(s, ps[j].path, i);
        }
      }
    }
    if AllCovered(s') {
      forall j: nat, i: nat | ShowsApart(s.primary.disk, s.backup.disk, ps, r, j, i)
        ensures Covered(s, ps[j].path, i)
      {
        assert Differs(s'.primary.disk, s'.backup.disk, ps[j].path, i) ==> Covered(s', ps[j].path, i);
      }
    }
  }

  lemma {:induction false} NowOwed(s: Sys, id: string, p: string, i: nat)
    requires id in s.primary.kv && s.primary.kv[id].state == PENDING_REPLICATION
    requires StateOf(s.backup.log, id) != COMMIT && InTxn(s.primary.kv[id], p, i)
    ensures Covered(s, p, i)
  {
  }

  lemma {:induction false} WasCovered(s: Sys, p: string, i: nat)
    requires AllCovered(s) && Differs(s.primary.disk, s.backup.disk, p, i)
    ensures Covered(s, p, i)
  {
  }

  ghost predicate Inv(s: Sys) {
    Shape(s) && AllCovered(s)
  }

  /** The primary's side of a write that it stages in full. */
  lemma {:induction false} PrimaryPlaces(p: Node, id: string, ps: seq<Piece>, prepare: Status, commit: Status)
    requires Short(p.disk) && TempsSmall(p.disk) && PiecesOk(ps) && Present(p.disk, ps) && prepare != OTHER
    ensures var p1 := Exec(p, WriteOps(p.disk, id, ps, prepare, commit));
            && Placed(p.disk, p1.disk, ps, |ps|) && Short(p1.disk) && TempsSmall(p1.disk)
            && SameNames(p1.disk, p.disk) && Grows(p.disk, p1.disk)
  {
    var ops := WriteOps(p.disk, id, ps, prepare, commit);
    hide *;
    WholeWrite(p, id, ps, prepare, commit);
    WritePlaces(p, id, ps, prepare, commit);
    PrepareIsSmall(id, ps);
    AfterPrepareIsSmall(id, ps, prepare, commit);
    SmallConcat(PrepareOps(id, ps), AfterPrepare(id, ps, prepare, commit));
    StaysSmall(p, ops);
    GrowsWhenPlaced(p.disk, Exec(p, ops).disk, ps, |ps|);
  }

  lemma {:induction false} WritePlaces(p: Node, id: string, ps: seq<Piece>, prepare: Status, commit: Status)
    requires PiecesOk(ps) && Present(p.disk, ps) && prepare != OTHER
    ensures Placed(p.disk, Exec(p, WriteOps(p.disk, id, ps, prepare, commit)).disk, ps, |ps|)
  {
    var ops := WriteOps(p.disk, id, ps, prepare, commit);
    WholeWrite(p, id, ps, prepare, commit);
    StageableAll(p.disk, ps);
    WholeOps(ops);
    hide Exec, WriteOps, PrepareOps, AfterPrepare, OldOrStaged, PiecesOk, Stageable;
    forall q | IsBlockName(q)
      ensures OldOrStaged(p.disk, Exec(p, ops).disk, ps, |ps|, q)
    {
      WriteCrashExactly(p, id, ps, prepare, commit, |ops|, q);
      SameCount(p.disk, Exec(p, ops).disk, ps, FilesInPlace(p.disk, ps, prepare, |ops|), |ps|, q);
    }
  }

  lemma {:induction false} WholeWrite(p: Node, id: string, ps: seq<Piece>, prepare: Status, commit: Status)
    requires Present(p.disk, ps) && prepare != OTHER
    ensures var ops := WriteOps(p.disk, id, ps, prepare, commit);
            ops == PrepareOps(id, ps) + AfterPrepare(id, ps, prepare, commit) && Installed(|ps|, prepare, |ops|) == |ps|
  {
    StageableAll(p.disk, ps);
    HandlerLengths(id, ps);
    assert |AfterPrepare(id, ps, prepare, commit)| >= |ps|;
    hide PrepareOps, AfterPrepare;
  }

  lemma {:induction false} NamesTrans(d: Disk, d': Disk, e: Disk, e': Disk)
    requires SameNames(d', d) && SameNames(e', e) && SameNames(d, e)
    ensures SameNames(d', e')
  {
  }

  lemma {:induction false} SamePrimaryBlocks(s: Sys, s': Sys)
    requires Shape(s) && s' == s.(primary := s'.primary) && s'.primary.kv == s.primary.kv
    requires SameBlocks(s'.primary.disk, s.primary.disk) && TempsSmall(s'.primary.disk)
    ensures Shape(s') && BothGrow(s, s') && (AllCovered(s) ==> AllCovered(s'))
  {
    hide Covered, Sane, BackupLog, KvOk, IsBlockName;
    forall p, i: nat
      ensures Differs(s'.primary.disk, s'.backup.disk, p, i) ==> Differs(s.primary.disk, s.backup.disk, p, i)
    {
      SameBytesDiffer(s, s', p, i);
    }
    if AllCovered(s) {
      forall p, i: nat | Differs(s'.primary.disk, s'.backup.disk, p, i)
        ensures Covered(s', p, i)
      {
        WasCovered(s, p, i);
        SameTableCovers(s, s', p, i);
      }
    }
  }

  lemma {:induction false} SameBytesDiffer(s: Sys, s': Sys, p: string, i: nat)
    requires SameBlocks(s'.primary.disk, s.primary.disk) && s'.backup == s.backup
    ensures Differs(s'.primary.disk, s'.backup.disk, p, i) <==> Differs(s.primary.disk, s.backup.disk, p, i)
  {
    if IsBlockName(p) {
      assert SameAt(s'.primary.disk, s.primary.disk, p);
    }
  }

  lemma {:induction false} SameTableCovers(s: Sys, s': Sys, p: string, i: nat)
    requires Covered(s, p, i) && s'.primary.kv == s.primary.kv && s'.backup == s.backup
    ensures Covered(s', p, i)
  {
  }

  /** Staging that stops at a missing file leaves only temp files behind. */
  lemma {:induction false} OnlyTemps(n: Node, ps: seq<Piece>)
    requires PiecesOk(ps) && TempsSmall(n.disk)
    ensures var n1 := Exec(n, StageOps(ps)); TempsSmall(n1.disk) && SameBlocks(n1.disk, n.disk) && n1.log == n.log && n1.kv == n.kv
  {
    var ops := StageOps(ps);
    StagingIsSmall(ps);
    StageOpsAreFiles(ps);
    hide Small, PiecesOk, TempsSmall, StageOps, Exec;
    StaysSmall(n, ops);
    FilesKeepBooks(n, ops);
    WholeOps(ops);
    StagingKeepsBlocks(n, ps, |ops|);
  }

  lemma {:induction false} FailedWrite(s: Sys, id: string, ps: seq<Piece>, fault: Fault)
    requires Shape(s) && PiecesOk(ps) && (ps == [] || Stageable(s.primary.disk, ps) < |ps|)
    ensures var s' := AfterWrite(s, id, ps, fault);
            && s' == s.(primary := s'.primary) && s'.primary.kv == s.primary.kv
            && TempsSmall(s'.primary.disk) && SameBlocks(s'.primary.disk, s.primary.disk)
  {
    var n := s.primary;
    var k := Stageable(n.disk, ps);
    FirstPiecesOk(ps, k);
    ServesOnlyTemps(n, id, ps);
    hide Exec, StageOps, ServeOps, PiecesOk, Stageable, SameBlocks;
    OnlyTemps(n, ps[..k]);
  }

  lemma {:induction false} FailedWriteKeepsInv(s: Sys, id: string, ps: seq<Piece>, fault: Fault)
    requires Shape(s) && PiecesOk(ps) && (ps == [] || Stageable(s.primary.disk, ps) < |ps|)
    ensures var s' := AfterWrite(s, id, ps, fault);
            Shape(s') && BothGrow(s, s') && (AllCovered(s) ==> AllCovered(s'))
  {
    FailedWrite(s, id, ps, fault);
    hide AfterWrite, PiecesOk, Stageable;
    SamePrimaryBlocks(s, AfterWrite(s, id, ps, fault));
  }

  lemma {:induction false} FirstPiecesOk(ps: seq<Piece>, r: nat)
    requires PiecesOk(ps) && r <= |ps|
    ensures PiecesOk(ps[..r])
  {
  }

  lemma {:induction false} ServesOnlyTemps(n: Node, id: string, ps: seq<Piece>)
    requires ps == [] || Stageable(n.disk, ps) < |ps|
    ensures ServeOps(n.disk, id, ps, OK, OK) == StageOps(ps[..Stageable(n.disk, ps)])
  {
  }

  lemma {:induction false} PresentOnBoth(d: Disk, e: Disk, ps: seq<Piece>)
    requires SameNames(d, e) && PiecesOk(ps) && Present(d, ps)
    ensures Present(e, ps)
  {
  }

  /** The files that the backup has renamed when the write is over. */
  function RenamedThere(s: Sys, ps: seq<Piece>, fault: Fault): nat {
    if s.up then Installed(|ps|, OK, StepsTaken(|ps|, fault)) else 0
  }

  lemma {:induction false} CompletedWrite(s: Sys, id: string, ps: seq<Piece>, fault: Fault)
    requires Shape(s) && CleanPieces(ps) && Present(s.primary.disk, ps)
    requires IsId(id) && id !in s.primary.kv && id !in Ids(s.backup.log)
    ensures var s' := AfterWrite(s, id, ps, fault);
            Shape(s') && BothGrow(s, s') && WrittenBoth(s, s', id, ps, RenamedThere(s, ps, fault))
  {
    var p, b := s.primary, s.backup;
    var prepare, commit := PrepareAnswer(b, s.up, ps, fault), CommitAnswer(fault);
    var s', r := AfterWrite(s, id, ps, fault), RenamedThere(s, ps, fault);
    hide *;
    ShapeParts(s);
    CleanArePieces(ps);
    PresentOnBoth(p.disk, b.disk, ps);
    WriteIsDone(s, id, ps, fault);
    PrimaryPlaces(p, id, ps, prepare, commit);
    KvAfterWrite(p, id, ps, prepare, commit);
    BackupSide(s, id, ps, fault);
    SameNamesWhenGrown(b.disk, s'.backup.disk);
    NamesTrans(p.disk, s'.primary.disk, b.disk, s'.backup.disk);
    TxnIsOk(ps, PENDING_REPLICATION);
    WrittenFrom(s, s', id, ps, r);
    KvStaysOk(p.kv, id, Txn(ps).(state := PENDING_REPLICATION));
    ShapeFromParts(s');
    BothGrowFrom(s, s');
  }

  /** A write that the primary completes, with any fault of the backup on the way. */
  lemma {:induction false} CompletedWriteExactly(s: Sys, id: string, ps: seq<Piece>, fault: Fault)
    requires Inv(s) && CleanPieces(ps) && Present(s.primary.disk, ps)
    requires IsId(id) && id !in s.primary.kv && id !in Ids(s.backup.log)
    ensures var s' := AfterWrite(s, id, ps, fault);
            AllCovered(s') <==> LeftoversCovered(s, ps, RenamedThere(s, ps, fault))
  {
    hide AfterWrite, Shape, AllCovered, LeftoversCovered, WrittenBoth, IsId;
    CompletedWrite(s, id, ps, fault);
    CoveredAfterWrite(s, AfterWrite(s, id, ps, fault), id, ps, RenamedThere(s, ps, fault));
  }

  lemma {:induction false} WrittenFrom(s: Sys, s': Sys, id: string, ps: seq<Piece>, r: nat)
    requires Placed(s.primary.disk, s'.primary.disk, ps, |ps|) && Placed(s.backup.disk, s'.backup.disk, ps, r) && r <= |ps|
    requires id !in s.primary.kv && LogsSame(s.backup.log, s'.backup.log, id)
    requires s'.primary.kv == s.primary.kv[id := Txn(ps).(state := PENDING_REPLICATION)]
             || (s'.primary.kv == s.primary.kv && r == |ps|)
    requires r < |ps| ==> StateOf(s'.backup.log, id) != COMMIT
    ensures WrittenBoth(s, s', id, ps, r)
  {
  }

  lemma {:induction false} SameNamesWhenGrown(d: Disk, e: Disk)
    requires Grows(d, e)
    ensures SameNames(e, d)
  {
  }

  lemma {:induction false} BothGrowFrom(s: Sys, t: Sys)
    requires Grows(s.primary.disk, t.primary.disk) && Grows(s.backup.disk, t.backup.disk)
    ensures BothGrow(s, t)
  {
  }

  lemma {:induction false} ShapeParts(s: Sys)
    requires Shape(s)
    ensures BackupOk(s.backup) && SameNames(s.primary.disk, s.backup.disk)
    ensures Short(s.primary.disk) && TempsSmall(s.primary.disk) && KvOk(s.primary.kv)
  {
  }

  lemma {:induction false} ShapeFromParts(s: Sys)
    requires BackupOk(s.backup) && SameNames(s.primary.disk, s.backup.disk)
    requires Short(s.primary.disk) && TempsSmall(s.primary.disk) && KvOk(s.primary.kv)
    ensures Shape(s)
  {
  }

  lemma {:induction false} KvStaysOk(kv: Kv, id: string, txn: TxnData)
    requires KvOk(kv) && TxnOk(txn)
    ensures KvOk(kv[id := txn])
  {
  }

  /** The statuses that the primary sees, and what its table says in the end. */
  lemma {:induction false} WriteIsDone(s: Sys, id: string, ps: seq<Piece>, fault: Fault)
    requires CleanPieces(ps) && Present(s.primary.disk, ps) && Present(s.backup.disk, ps)
    ensures PiecesOk(ps)
    ensures var prepare, commit := PrepareAnswer(s.backup, s.up, ps, fault), CommitAnswer(fault);
            && prepare != OTHER
            && AfterWrite(s, id, ps, fault).primary
               == Exec(s.primary, WriteOps(s.primary.disk, id, ps, prepare, commit))
            && RenamedThere(s, ps, fault) <= |ps| && (EndsPending(prepare, commit) || RenamedThere(s, ps, fault) == |ps|)
  {
  }

  lemma {:induction false} BackupSide(s: Sys, id: string, ps: seq<Piece>, fault: Fault)
    requires BackupOk(s.backup) && CleanPieces(ps) && Present(s.primary.disk, ps) && Present(s.backup.disk, ps)
    requires IsId(id) && id !in Ids(s.backup.log)
    ensures var s', r := AfterWrite(s, id, ps, fault), RenamedThere(s, ps, fault);
            && BackupOk(s'.backup) && Placed(s.backup.disk, s'.backup.disk, ps, r) && Grows(s.backup.disk, s'.backup.disk)
            && LogsSame(s.backup.log, s'.backup.log, id)
            && (r < |ps| ==> StateOf(s'.backup.log, id) != COMMIT)
  {
    var b := s.backup;
    StageableAll(s.primary.disk, ps);
    if s.up {
      BackupStops(b, id, ps, fault);
      BackupAtStep(b, id, ps, StepsTaken(|ps|, fault));
    } else {
      NothingPlaced(b.disk, ps);
      UnknownId(b.log, id);
    }
    hide Exec, Placed, StateOf, BackupAfter, WriteOps, BackupSteps, Short, TempsSmall, Sane, SameBlocks;
  }

  lemma {:induction false} NothingPlaced(d: Disk, ps: seq<Piece>)
    ensures Placed(d, d, ps, 0)
  {
  }

  // ----- Recovery of the backup -----

  lemma {:induction false} BackupStates(log: seq<Record>, id: string)
    requires BackupLog(log)
    ensures StateOf(log, id) == START || StateOf(log, id) == COMMIT
  {
    if log != [] {
      BackupStates(log[..|log| - 1], id);
    }
  }

  lemma {:induction false} NothingSent(kv: Kv, m: LogMap, order: seq<string>)
    requires forall id :: id in m ==> m[id].state != RPC_INIT
    ensures ThereOps(RepairAll(kv, m, order)) == []
  {
    if order != [] {
      NothingSent(kv, m, order[..|order| - 1]);
      RepairAllOneMore(kv, m, order);
    }
  }

  lemma {:induction false} SplitPrefix(xs: seq<SysOp>, k: nat)
    requires k <= |xs|
    ensures |HereOps(xs[..k])| <= |HereOps(xs)| && HereOps(xs[..k]) == HereOps(xs)[..|HereOps(xs[..k])|]
    ensures |ThereOps(xs[..k])| <= |ThereOps(xs)| && ThereOps(xs[..k]) == ThereOps(xs)[..|ThereOps(xs[..k])|]
  {
    assert xs[..k] + xs[k..] == xs;
    SplitConcat(xs[..k], xs[k..]);
  }

  ghost predicate Forces(kv: Kv, log: seq<Record>, op: Op) {
    op.PWrite?
    && exists id, j :: Owed(kv, log, id) && TxnOk(kv[id]) && 0 <= j < |kv[id].originalFiles|
                       && op == PWrite(kv[id].originalFiles[j], op.data, kv[id].offsets[j]) && |op.data| == kv[id].sizes[j]
  }

  /** All that a recovering backup does to itself: forced writes inside what it is owed, safe repairs, truncation. */
  ghost predicate RecoveryOp(kv: Kv, log: seq<Record>, op: Op) {
    Forces(kv, log, op) || SafeRepair(op) || op.TruncateLog?
  }

  ghost predicate RecoveryOps(kv: Kv, log: seq<Record>, ops: seq<Op>) {
    forall i :: 0 <= i < |ops| ==> RecoveryOp(kv, log, ops[i])
  }

  ghost predicate OwedByte(kv: Kv, log: seq<Record>, p: string, i: nat) {
    exists id :: Owed(kv, log, id) && InTxn(kv[id], p, i)
  }

  lemma {:induction false} RecoveryOpByte(n: Node, kv: Kv, log: seq<Record>, op: Op, p: string, i: nat)
    requires RecoveryOp(kv, log, op) && NoUndos(n.disk) && IsBlockName(p) && p in n.disk
    ensures var d := Apply(n, op).disk;
            && p in d && (ByteAt(d[p], i) != ByteAt(n.disk[p], i) ==> OwedByte(kv, log, p, i))
            && |n.disk[p]| <= |d[p]| && (|n.disk[p]| <= BLOCK_SIZE ==> |d[p]| <= BLOCK_SIZE)
  {
  }

  lemma {:induction false} RecoveryOpNames(n: Node, kv: Kv, log: seq<Record>, op: Op, p: string)
    requires RecoveryOp(kv, log, op) && NoUndos(n.disk) && p !in n.disk
    ensures p !in Apply(n, op).disk
  {
  }

  lemma {:induction false} RecoveryOpTemps(n: Node, kv: Kv, log: seq<Record>, op: Op)
    requires RecoveryOp(kv, log, op) && NoUndos(n.disk) && TempsSmall(n.disk)
    ensures TempsSmall(Apply(n, op).disk)
    ensures Apply(n, op).log == n.log || Apply(n, op).log == []
  {
  }

  ghost predicate WithinOwed(d0: Disk, d: Disk, kv: Kv, log: seq<Record>) {
    forall p, i: nat :: Differs(d, d0, p, i) ==> OwedByte(kv, log, p, i)
  }

  lemma {:induction false} RecoveryStep(n0: Node, n: Node, kv: Kv, log: seq<Record>, op: Op)
    requires RecoveryOp(kv, log, op) && Short(n.disk) && Sane(n.disk)
    requires SameNames(n.disk, n0.disk) && WithinOwed(n0.disk, n.disk, kv, log)
    ensures var d := Apply(n, op).disk;
            && Short(d) && Sane(d) && SameNames(d, n0.disk) && WithinOwed(n0.disk, d, kv, log)
            && (Grows(n0.disk, n.disk) ==> Grows(n0.disk, d))
  {
    hide OwedByte, RecoveryOp, Apply;
    var d := Apply(n, op).disk;
    forall p
      ensures p !in n.disk ==> p !in d
      ensures IsBlockName(p) && p in n.disk ==> p in d
      ensures IsBlockName(p) && p in d ==> p in n.disk && |n.disk[p]| <= |d[p]| <= BLOCK_SIZE
    {
      if p !in n.disk {
        RecoveryOpNames(n, kv, log, op, p);
      } else if IsBlockName(p) {
        RecoveryOpByte(n, kv, log, op, p, 0);
      }
    }
    forall p, i: nat | Differs(d, n0.disk, p, i)
      ensures OwedByte(kv, log, p, i)
    {
      RecoveryOpByte(n, kv, log, op, p, i);
      assert Differs(n.disk, n0.disk, p, i) || ByteAt(d[p], i) != ByteAt(n.disk[p], i);
    }
  }

  lemma {:induction false} RecoveryOpsKeep(n: Node, kv: Kv, log: seq<Record>, ops: seq<Op>)
    requires RecoveryOps(kv, log, ops) && BackupOk(n)
    ensures var n1 := Exec(n, ops);
            && BackupOk(n1) && SameNames(n1.disk, n.disk) && WithinOwed(n.disk, n1.disk, kv, log) && Grows(n.disk, n1.disk)
            && (n1.log == n.log || n1.log == [])
  {
    hide Apply, OwedByte, RecoveryOp, Short, Sane, TempsSmall, SameNames, WithinOwed, Grows;
    if ops == [] {
      WithinSelf(n.disk, kv, log);
    } else {
      var init, op := ops[..|ops| - 1], ops[|ops| - 1];
      RecoveryOpsKeep(n, kv, log, init);
      RecoveryStep(n, Exec(n, init), kv, log, op);
      SaneHasNoUndos(Exec(n, init).disk);
      RecoveryOpTemps(Exec(n, init), kv, log, op);
    }
  }

  lemma {:induction false} WithinSelf(d: Disk, kv: Kv, log: seq<Record>)
    ensures SameNames(d, d) && WithinOwed(d, d, kv, log) && Grows(d, d)
  {
  }

  lemma {:induction false} SaneHasNoUndos(d: Disk)
    requires Sane(d)
    ensures NoUndos(d)
  {
  }

  lemma {:induction false} PullIsOwed(log: seq<Record>, p: Node, ids: seq<string>, beyond: nat -> Bytes)
    requires KvOk(p.kv) && Lists(ids, PendingIds(p.kv))
    ensures RecoveryOps(p.kv, log, PullOps(Summary(log), p, ids, beyond))
  {
    var requested := Requested(Summary(log), ids);
    var ops := PullOps(Summary(log), p, ids, beyond);
    if requested != [] && requested[0] in p.kv {
      var id := requested[0];
      RequestedIsOwed(log, p.kv, ids);
      var stream := StreamOf(p.disk, p.kv, requested);
      hide StateOf, Owed, SafeRepair, Summary, Requested;
      forall j | 0 <= j < |ops|
        ensures RecoveryOp(p.kv, log, ops[j])
      {
        assert ops[j] == PWrite(p.kv[id].originalFiles[j], ops[j].data, p.kv[id].offsets[j]);
        assert |ops[j].data| == p.kv[id].sizes[j];
        assert Forces(p.kv, log, ops[j]);
      }
    }
  }

  lemma {:induction false} RequestedIsOwed(log: seq<Record>, kv: Kv, ids: seq<string>)
    requires Lists(ids, PendingIds(kv)) && Requested(Summary(log), ids) != []
    ensures Owed(kv, log, Requested(Summary(log), ids)[0])
  {
    var id := Requested(Summary(log), ids)[0];
    hide StateOf, Requested;
    assert id in ids && id in PendingIds(kv);
    if id !in Ids(log) {
      UnknownId(log, id);
    } else {
      assert NotCommittedHere(Summary(log), id);
    }
  }

  lemma {:induction false} RecoveryOpsConcat(kv: Kv, log: seq<Record>, a: seq<Op>, b: seq<Op>)
    requires RecoveryOps(kv, log, a) && RecoveryOps(kv, log, b)
    ensures RecoveryOps(kv, log, a + b)
  {
  }

  lemma {:induction false} MarkedNamesOk(log: seq<Record>, ids: seq<string>)
    requires LogOk(log)
    ensures MapOk(Marked(Summary(log), ids))
  {
    SummaryOk(log);
    hide NamesOk, NamesOf, StateOf;
  }

  lemma {:induction false} MarkedIsOk(log: seq<Record>, ids: seq<string>)
    requires BackupLog(log)
    ensures MapOk(Marked(Summary(log), ids))
    ensures forall id :: id in Marked(Summary(log), ids) ==> Marked(Summary(log), ids)[id].state != RPC_INIT
  {
    MarkedNamesOk(log, ids);
    hide NamesOk, NamesOf, StateOf;
    forall id | id in Ids(log)
      ensures StateOf(log, id) != RPC_INIT
    {
      BackupStates(log, id);
    }
  }

  /** A backup's recovery asks nothing of the primary but its pending writes, and changes no byte of its own
      blocks outside them. */
  lemma {:induction false} BackupRecoverySteps(b: Node, p: Node, ids: seq<string>, order: seq<string>, beyond: nat -> Bytes)
    requires BackupLog(b.log) && KvOk(p.kv) && RecoveryRun(b, p, ids, order)
    ensures var xs := RecoverOps(ParsedLog(b), p, ids, order, beyond);
            RecoveryOps(p.kv, b.log, HereOps(xs)) && ThereOps(xs) == []
  {
    ParsedLogIsSummary(b);
    var m := Summary(b.log);
    MarkedIsOk(b.log, ids);
    PullIsOwed(b.log, p, ids, beyond);
    hide Summary, ParsedLog, RepairAll, HereOps, ThereOps, PullOps, Forces, SafeRepair, MapOk, Marked;
    var repairs := RepairAll(p.kv, Marked(m, ids), order);
    RepairAllSafe(p.kv, Marked(m, ids), order);
    NothingSent(p.kv, Marked(m, ids), order);
    var pull := PullOps(m, p, ids, beyond);
    SplitSteps(pull, repairs);
    SplitLast(AllHere(pull) + repairs, TruncateLog);
    RecoveryOpsConcat(p.kv, b.log, pull, HereOps(repairs));
    RecoveryOpsConcat(p.kv, b.log, pull + HereOps(repairs), [TruncateLog]);
  }

  /** A recovery of the backup, cut anywhere: the primary does not change, nor does the backup outside what it is
      owed. */
  lemma {:induction false} RecoveryKeepsShape(s: Sys, ids: seq<string>, order: seq<string>, beyond: nat -> Bytes, steps: nat)
    requires Shape(s) && RecoveryRun(s.backup, s.primary, ids, order)
    ensures var s' := AfterRecovery(s, ids, order, beyond, steps);
            && Shape(s') && BothGrow(s, s') && s'.primary == s.primary
            && (s'.backup.log == s.backup.log || s'.backup.log == [])
            && WithinOwed(s.backup.disk, s'.backup.disk, s.primary.kv, s.backup.log)
  {
    var xs := RecoverOps(ParsedLog(s.backup), s.primary, ids, order, beyond);
    var k := Min(steps, |xs|);
    BackupRecoverySteps(s.backup, s.primary, ids, order, beyond);
    SplitPrefix(xs, k);
    ExecBothSplits(Pair(s.backup, s.primary), xs[..k]);
    hide Exec, RecoverOps, ParsedLog, HereOps, ThereOps, RecoveryOp, Short, TempsSmall, Sane, WithinOwed;
    RecoveryOpsKeep(s.backup, s.primary.kv, s.backup.log, HereOps(xs[..k]));
    ExecNothing(s.primary, ThereOps(xs[..k]));
    GrowsSelf(s.primary.disk);
  }

  lemma {:induction false} GrowsSelf(d: Disk)
    ensures Grows(d, d)
  {
  }

  lemma {:induction false} RecoveryKeepsCovered(s: Sys, ids: seq<string>, order: seq<string>, beyond: nat -> Bytes, steps: nat)
    requires Inv(s) && RecoveryRun(s.backup, s.primary, ids, order)
    ensures AllCovered(AfterRecovery(s, ids, order, beyond, steps))
  {
    RecoveryKeepsShape(s, ids, order, beyond, steps);
    hide AfterRecovery, Short, TempsSmall, Sane, RecoverOps, ParsedLog;
    StillCovered(s, AfterRecovery(s, ids, order, beyond, steps));
  }

  lemma {:induction false} StillCovered(s: Sys, s': Sys)
    requires Inv(s) && s'.primary == s.primary
    requires s'.backup.log == s.backup.log || s'.backup.log == []
    requires SameNames(s'.primary.disk, s'.backup.disk)
    requires WithinOwed(s.backup.disk, s'.backup.disk, s.primary.kv, s.backup.log)
    ensures AllCovered(s')
  {
    hide InTxn, TxnOk, Sane;
    var d, e, e' := s.primary.disk, s.backup.disk, s'.backup.disk;
    forall p, i: nat | Differs(d, e', p, i)
      ensures Covered(s', p, i)
    {
      assert Differs(d, e, p, i) || Differs(e', e, p, i);
      var z :| Owed(s.primary.kv, s.backup.log, z) && InTxn(s.primary.kv[z], p, i);
      assert Owed(s'.primary.kv, s'.backup.log, z);
    }
  }

  // ----- The whole run -----

  lemma {:induction false} PiecesAreClean(address: int, buffer: Bytes)
    ensures var ps := PiecesOf(address, buffer); PiecesOk(ps) && (ps != [] ==> CleanPieces(ps))
  {
    if IsValidAddress(address) && |buffer| == BLOCK_SIZE {
      CutOfExtents(address, buffer);
      ExtentsTile(address);
      var es := Extents(address);
      hide Extents, BlockPath;
      forall i | 0 <= i < |es|
        ensures Clean(Cut(es, buffer)[i].path)
      {
        CutAt(es, buffer, i);
        var n: nat :| es[i].path == BlockPath(n);
        BlockPathIsBlockName(n);
      }
    }
  }

  /** Every byte of a written file that would differ from the backup's through a leftover is accounted for already. */
  ghost predicate Accounted(s: Sys, e: Event) {
    match e
    case ClientWrite(_, address, buffer, fault) =>
      var ps := PiecesOf(address, buffer);
      Stageable(s.primary.disk, ps) == |ps| ==> LeftoversCovered(s, ps, RenamedThere(s, ps, fault))
    case _ => true
  }

  lemma {:induction false} NothingShows(s: Sys, ps: seq<Piece>, r: nat)
    requires ps == []
    ensures LeftoversCovered(s, ps, r)
  {
  }

  /** Every event keeps names, lengths, logs and tables in shape, whatever leftovers show through. */
  lemma {:induction false} StepKeepsShape(s: Sys, e: Event)
    requires Shape(s) && Possible(s, e)
    ensures Shape(Step(s, e)) && BothGrow(s, Step(s, e))
  {
    match e
    case ClientWrite(id, address, buffer, fault) =>
      var ps := PiecesOf(address, buffer);
      PiecesAreClean(address, buffer);
      hide AfterWrite, Grows, PiecesOf, IsId, Shape, AllCovered;
      if ps == [] || Stageable(s.primary.disk, ps) < |ps| {
        FailedWriteKeepsInv(s, id, ps, fault);
      } else {
        CompletedWrite(s, id, ps, fault);
      }
    case BackupCrash => CrashKeepsShape(s);
    case BackupRecover(ids, order, beyond, steps) =>
      hide Shape, AllCovered, Grows, AfterRecovery;
      RecoveryKeepsShape(s, ids, order, beyond, steps);
  }

  /** Writes with any backup fault, crashes and recoveries keep every difference accounted for, exactly when no
      leftover shows through unaccounted for. */
  lemma {:induction false} StepExactly(s: Sys, e: Event)
    requires Inv(s) && Possible(s, e)
    ensures Shape(Step(s, e)) && (AllCovered(Step(s, e)) <==> Accounted(s, e))
  {
    StepKeepsShape(s, e);
    match e
    case ClientWrite(id, address, buffer, fault) =>
      var ps := PiecesOf(address, buffer);
      PiecesAreClean(address, buffer);
      hide AfterWrite, Grows, PiecesOf, LeftoversCovered, IsId, Shape, AllCovered;
      if ps == [] {
        FailedWriteKeepsInv(s, id, ps, fault);
        NothingShows(s, ps, RenamedThere(s, ps, fault));
      } else if Stageable(s.primary.disk, ps) < |ps| {
        FailedWriteKeepsInv(s, id, ps, fault);
      } else {
        CompletedWriteExactly(s, id, ps, fault);
      }
    case BackupCrash => CrashKeepsCovered(s);
    case BackupRecover(ids, order, beyond, steps) =>
      hide Shape, AllCovered, Grows, AfterRecovery;
      RecoveryKeepsCovered(s, ids, order, beyond, steps);
  }

  lemma {:induction false} CrashKeepsShape(s: Sys)
    requires Shape(s)
    ensures var s' := Sys(s.primary, Crashed(s.backup), false); Shape(s') && BothGrow(s, s')
  {
  }

  lemma {:induction false} CrashKeepsCovered(s: Sys)
    requires AllCovered(s)
    ensures AllCovered(Sys(s.primary, Crashed(s.backup), false))
  {
  }

  /** As long as no leftover has shown through unaccounted for. */
  lemma {:induction false} RunKeepsInvariant(s: Sys, es: seq<Event>)
    requires Inv(s) && PossibleRun(s, es)
    requires forall k :: 0 <= k < |es| ==> Accounted(RunEvents(s, es[..k]), es[k])
    ensures Inv(RunEvents(s, es))
  {
    hide Shape, AllCovered, Step, Possible, Accounted;
    if es != [] {
      var init := es[..|es| - 1];
      assert forall i :: 0 <= i < |init| ==> init[..i] == es[..i];
      RunKeepsInvariant(s, init);
      StepExactly(RunEvents(s, init), es[|es| - 1]);
    }
  }

  lemma {:induction false} SameIsCovered(s: Sys)
    requires SameBlocks(s.primary.disk, s.backup.disk)
    ensures AllCovered(s)
  {
    forall q, k: nat
      ensures !Differs(s.primary.disk, s.backup.disk, q, k)
    {
      if IsBlockName(q) {
        assert SameAt(s.primary.disk, s.backup.disk, q);
      }
    }
  }

  /** Over every run of writes, backup crashes at any step and backup recoveries cut at any step, starting from
      replicas that agree: at all times each byte that differs lies in an extent of a transaction that is pending in
      the primary's table and not committed in the backup's log, exactly when no write lets a leftover show through
      on one server, and not in the same way on the other, where none does. */
  lemma {:induction false} DivergenceIsAccountedFor(s: Sys, es: seq<Event>)
    requires Shape(s) && SameBlocks(s.primary.disk, s.backup.disk) && PossibleRun(s, es)
    ensures (forall k :: 0 <= k <= |es| ==> AllCovered(RunEvents(s, es[..k])))
            <==> forall k :: 0 <= k < |es| ==> Accounted(RunEvents(s, es[..k]), es[k])
  {
    SameIsCovered(s);
    hide Shape, RunEvents, AllCovered, Accounted, Possible, Step;
    if forall k :: 0 <= k < |es| ==> Accounted(RunEvents(s, es[..k]), es[k]) {
      forall k | 0 <= k <= |es|
        ensures AllCovered(RunEvents(s, es[..k]))
      {
        AccountedSoFar(s, es, k);
      }
    }
    if forall k :: 0 <= k <= |es| ==> AllCovered(RunEvents(s, es[..k])) {
      forall k | 0 <= k < |es|
        ensures Accounted(RunEvents(s, es[..k]), es[k])
      {
        FirstUnaccounted(s, es, k);
      }
    }
  }

  lemma {:induction false} AccountedSoFar(s: Sys, es: seq<Event>, k: nat)
    requires Inv(s) && PossibleRun(s, es) && k <= |es|
    requires forall i :: 0 <= i < k ==> Accounted(RunEvents(s, es[..i]), es[i])
    ensures Inv(RunEvents(s, es[..k]))
  {
    hide Shape, AllCovered, RunEvents, Accounted, Possible;
    assert forall i :: 0 <= i < k ==> es[..k][..i] == es[..i];
    RunKeepsInvariant(s, es[..k]);
  }

  /** While everything is covered, each event has been accounted for. */
  lemma {:induction false} FirstUnaccounted(s: Sys, es: seq<Event>, k: nat)
    requires Inv(s) && PossibleRun(s, es) && k < |es|
    requires forall i :: 0 <= i <= k + 1 ==> AllCovered(RunEvents(s, es[..i]))
    ensures Accounted(RunEvents(s, es[..k]), es[k])
  {
    hide Shape, AllCovered, Accounted, Possible, Step;
    forall i | 0 <= i < k
      ensures Accounted(RunEvents(s, es[..i]), es[i])
    {
      FirstUnaccounted(s, es, i);
    }
    AccountedSoFar(s, es, k);
    StepExactly(RunEvents(s, es[..k]), es[k]);
    assert es[..k + 1][..k] == es[..k];
  }

  // ----- When leftovers never show through -----

  /** No leftover temp file shows through what the write stages; a backup that is down stages nothing. */
  ghost predicate StagesCleanly(s: Sys, ps: seq<Piece>) {
    Reusable(s.primary.disk, ps) && (s.up ==> Reusable(s.backup.disk, ps))
  }

  lemma {:induction false} CleanByte(d: Disk, piece: Piece, i: nat)
    requires piece.path in d && |d[piece.path]| <= BLOCK_SIZE && !InExtent(piece, i)
    requires !StaleShowsThrough(StaleOf(d, piece.path), d[piece.path], piece.data, piece.off)
    ensures ShownByte(d, piece.path, i) == ByteAt(d[piece.path], i)
  {
  }

  /** Then each write is accounted for, whatever befalls the backup. */
  lemma {:induction false} CleanIsAccounted(s: Sys, e: Event)
    requires Inv(s) && Possible(s, e) && (e.ClientWrite? ==> StagesCleanly(s, PiecesOf(e.address, e.buffer)))
    ensures Accounted(s, e)
  {
    if e.ClientWrite? {
      var ps, r := PiecesOf(e.address, e.buffer), RenamedThere(s, PiecesOf(e.address, e.buffer), e.fault);
      PiecesAreClean(e.address, e.buffer);
      hide PiecesOf, StaleShowsThrough, Sane, BackupLog, KvOk, SameNames, TempsSmall, IsId, IsBlockName, AllCovered, Covered, ByteAt, ShownByte;
      forall j: nat, i: nat | ShowsApart(s.primary.disk, s.backup.disk, ps, r, j, i)
        ensures Covered(s, ps[j].path, i)
      {
        CleanByte(s.primary.disk, ps[j], i);
        if j < r {
          CleanByte(s.backup.disk, ps[j], i);
        }
        WasCovered(s, ps[j].path, i);
      }
    }
  }

  ghost predicate Whole(d: Disk) {
    forall p :: IsBlockName(p) && p in d ==> |d[p]| == BLOCK_SIZE
  }

  lemma {:induction false} WholeStaysWhole(d: Disk, e: Disk)
    requires Whole(d) && Grows(d, e) && Short(e)
    ensures Whole(e)
  {
  }

  lemma {:induction false} WholeStagesCleanly(s: Sys, e: Event)
    requires Inv(s) && Whole(s.primary.disk) && Whole(s.backup.disk) && Possible(s, e)
    ensures Accounted(s, e)
  {
    if e.ClientWrite? {
      PiecesAreClean(e.address, e.buffer);
      hide PiecesOf, PiecesOk, Reusable, IsId, Sane, BackupLog, KvOk, SameNames, AllCovered;
      UsuallyReusable(s.primary.disk, PiecesOf(e.address, e.buffer));
      UsuallyReusable(s.backup.disk, PiecesOf(e.address, e.buffer));
    }
    hide Inv, Whole, Possible, Reusable, Accounted, PiecesOf;
    CleanIsAccounted(s, e);
  }

  lemma {:induction false} WholeAfterStep(s: Sys, e: Event)
    requires Inv(s) && Whole(s.primary.disk) && Whole(s.backup.disk) && Possible(s, e)
    ensures Accounted(s, e) && Inv(Step(s, e))
    ensures Whole(Step(s, e).primary.disk) && Whole(Step(s, e).backup.disk)
  {
    var t := Step(s, e);
    WholeStagesCleanly(s, e);
    StepExactly(s, e);
    StepKeepsShape(s, e);
    hide Step, Possible, Accounted, AllCovered, Sane, BackupLog, KvOk, TempsSmall;
    WholeStaysWhole(s.primary.disk, t.primary.disk);
    WholeStaysWhole(s.backup.disk, t.backup.disk);
  }

  /** Once all blocks are whole they stay so, and no run lets a leftover show through. */
  lemma {:induction false} WholeRunsAreAccounted(s: Sys, es: seq<Event>)
    requires Inv(s) && Whole(s.primary.disk) && Whole(s.backup.disk) && PossibleRun(s, es)
    ensures forall k :: 0 <= k < |es| ==> Accounted(RunEvents(s, es[..k]), es[k])
    ensures var t := RunEvents(s, es); Inv(t) && Whole(t.primary.disk) && Whole(t.backup.disk)
  {
    hide Inv, Whole, Step, Possible, Accounted;
    if es != [] {
      var init := es[..|es| - 1];
      assert forall i :: 0 <= i < |init| ==> init[..i] == es[..i];
      WholeRunsAreAccounted(s, init);
      WholeAfterStep(RunEvents(s, init), es[|es| - 1]);
    }
  }

  // ----- Where it begins -----

  ghost function NewServers(): Sys {
    Sys(Node(NewStorage(), [], map[]), Node(NewStorage(), [], map[]), true)
  }

  /** Two servers with newly created storage satisfy what every run starts from. */
  lemma {:induction false} NewServersAreShaped()
    ensures var s := NewServers(); Shape(s) && SameBlocks(s.primary.disk, s.backup.disk)
  {
    hide NewStorage, IsStoredBlock;
    var d := NewStorage();
    forall p
      ensures p in d ==> IsBlockName(p) && d[p] == []
      ensures Tmp(p) !in d && Undo(p) !in d
    {
      NewStorageFiles(p);
      NewStorageFiles(Tmp(p));
      NewStorageFiles(Undo(p));
      TmpIsNotABlock(p);
    }
  }
}
