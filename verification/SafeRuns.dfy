/** Two servers over any run of writes, calls, crashes and recoveries: what their logs and files always look like. */
module SafeRuns {
  import opened Storage
  import opened WriteAheadLog
  import opened LogParser
  import opened KeyValueStore
  import opened Nodes
  import opened Effects
  import opened BlockServer
  import opened Recovery
  import opened RecoverySafety
  import opened Divergence

  /** Whole records of decimal ids and block names; no undo file, and no temp file of a temp file. */
  ghost predicate SafeServer(n: Node) {
    LogOk(n.log) && Sane(n.disk)
  }

  /** Steps that keep it so. */
  ghost predicate Decent(op: Op) {
    match op
    case OpenTemp(path) => Creatable(path)
    case Move(src, dst) => Creatable(dst) || src == Undo(dst)
    case Append(record) => RecordOk(record)
    case _ => true
  }

  ghost predicate AllDecent(ops: seq<Op>) {
    forall i :: 0 <= i < |ops| ==> Decent(ops[i])
  }

  lemma {:induction false} DecentStep(n: Node, op: Op)
    requires SafeServer(n) && Decent(op)
    ensures SafeServer(Apply(n, op))
  {
    hide Creatable, RecordOk;
    var d := Apply(n, op).disk;
    forall q
      ensures Undo(q) !in d && (IsBlockName(q) ==> Tmp(Tmp(q)) !in d)
    {
      if op.OpenTemp? {
        CreatableIsSane(op.path, q);
      } else if op.Move? && Creatable(op.dst) {
        CreatableIsSane(op.dst, q);
      }
    }
  }

  lemma {:induction false} DecentRun(n: Node, ops: seq<Op>)
    requires SafeServer(n) && AllDecent(ops)
    ensures SafeServer(Exec(n, ops))
  {
    hide SafeServer, Decent, Apply;
    if ops != [] {
      DecentRun(n, ops[..|ops| - 1]);
      DecentStep(Exec(n, ops[..|ops| - 1]), ops[|ops| - 1]);
    }
  }

  lemma {:induction false} DecentConcat(a: seq<Op>, b: seq<Op>)
    requires AllDecent(a) && AllDecent(b)
    ensures AllDecent(a + b)
  {
  }

  // ----- The handlers take such steps -----

  lemma {:induction false} StagingIsDecent(ps: seq<Piece>)
    requires PiecesOk(ps)
    ensures AllDecent(StageOps(ps))
  {
    StageOpsTouchTemps(ps);
    StageCreatesWell(ps);
    forall i | 0 <= i < |StageOps(ps)|
      ensures Decent(StageOps(ps)[i])
    {
      assert OnlyTouchesTemps(StageOps(ps)[i], ps);
      if StageOps(ps)[i].OpenTemp? {
        assert CreatesOnly(StageOps(ps)[i], StageOps(ps)[i].path);
      }
    }
  }

  lemma {:induction false} RenamingIsDecent(names: seq<string>)
    requires forall i :: 0 <= i < |names| ==> Creatable(names[i])
    ensures AllDecent(MoveOps(names))
  {
    hide Creatable;
  }

  lemma {:induction false} StartIsDecent(id: string, ps: seq<Piece>)
    requires PiecesOk(ps) && (ps != [] ==> CleanPieces(ps)) && IsId(id)
    ensures AllDecent([Append(Start(id, Movs(ps))), KvAdd(id, Txn(ps))])
    ensures forall i :: 0 <= i < |ps| ==> Creatable(Paths(ps)[i])
  {
    assert RecordOk(Start(id, Movs(ps)));
  }

  lemma {:induction false} RecordsAreDecent(id: string)
    requires IsId(id)
    ensures AllDecent([Append(Commit(id)), KvDrop(id)]) && AllDecent([Append(Pending(id)), KvSet(id, PENDING_REPLICATION)])
    ensures AllDecent([Append(ReplInit(id)), KvSet(id, RPC_INIT)]) && AllDecent([Append(Abort(id)), KvDrop(id)])
    ensures AllDecent([KvDrop(id)])
  {
  }

  lemma {:induction false} WritingIsDecent(id: string, ps: seq<Piece>, prepare: Status, commit: Status)
    requires PiecesOk(ps) && (ps != [] ==> CleanPieces(ps)) && IsId(id)
    ensures AllDecent(PrepareOps(id, ps)) && AllDecent(CommitOps(id, Paths(ps))) && AllDecent(AfterPrepare(id, ps, prepare, commit))
  {
    StagingIsDecent(ps);
    StartIsDecent(id, ps);
    RecordsAreDecent(id);
    hide AllDecent, Creatable, StageOps, MoveOps, IsId, PiecesOk, CleanPieces, Movs, Txn;
    RenamingIsDecent(Paths(ps));
    DecentConcat(StageOps(ps), [Append(Start(id, Movs(ps))), KvAdd(id, Txn(ps))]);
    DecentConcat(MoveOps(Paths(ps)), [Append(Commit(id)), KvDrop(id)]);
    DecentConcat(MoveOps(Paths(ps)), [Append(Pending(id)), KvSet(id, PENDING_REPLICATION)]);
    DecentConcat(MoveOps(Paths(ps)), [Append(ReplInit(id)), KvSet(id, RPC_INIT)]);
    DecentConcat(InstallOps(id, ps), AfterCommit(id, ps, commit));
  }

  lemma {:induction false} ServingIsDecent(d: Disk, id: string, ps: seq<Piece>, prepare: Status, commit: Status)
    requires PiecesOk(ps) && (ps != [] ==> CleanPieces(ps)) && IsId(id)
    ensures AllDecent(ServeOps(d, id, ps, prepare, commit)) && AllDecent(PrepareHandler(d, id, ps))
  {
    WritingIsDecent(id, ps, prepare, commit);
    FirstPiecesOk(ps, Stageable(d, ps));
    FirstPiecesOk(ps, Staging(d, ps));
    StagingIsDecent(ps[..Stageable(d, ps)]);
    StagingIsDecent(ps[..Staging(d, ps)]);
    hide StageOps, PrepareOps, AfterPrepare, Decent, PiecesOk, Stageable, Staging;
    DecentConcat(PrepareOps(id, ps), AfterPrepare(id, ps, prepare, commit));
  }

  // ----- So does recovery, on both servers -----

  ghost predicate IdsOk(m: LogMap) {
    forall id :: id in m ==> IsId(id)
  }

  lemma {:induction false} SentIsDecent(kv: Kv, m: LogMap, order: seq<string>)
    requires MapOk(m) && IdsOk(m)
    ensures AllDecent(ThereOps(RepairAll(kv, m, order)))
  {
    hide RepairAll, ThereOps, CommitOps, NamesOk, Decent, IsId;
    if order == [] {
      NoneSent(kv, m);
    } else {
      var init, id := order[..|order| - 1], order[|order| - 1];
      SentIsDecent(kv, m, init);
      if id in m {
        OneMoreSent(kv, m, order);
        CommitIsDecent(id, m[id].names);
        DecentConcat(ThereOps(RepairAll(kv, m, init)), RepairThere(id, m[id], CommittedIn(kv, id)));
      } else {
        NotInMap(kv, m, order);
      }
    }
  }

  lemma {:induction false} NoneSent(kv: Kv, m: LogMap)
    ensures ThereOps(RepairAll(kv, m, [])) == []
  {
  }

  lemma {:induction false} OneMoreSent(kv: Kv, m: LogMap, order: seq<string>)
    requires order != [] && order[|order| - 1] in m
    ensures var id := order[|order| - 1];
            ThereOps(RepairAll(kv, m, order))
            == ThereOps(RepairAll(kv, m, order[..|order| - 1])) + RepairThere(id, m[id], CommittedIn(kv, id))
  {
    assert order[..|order| - 1] + [order[|order| - 1]] == order;
    OneMoreRepair(kv, m, order[..|order| - 1], order[|order| - 1]);
  }

  lemma {:induction false} NotInMap(kv: Kv, m: LogMap, order: seq<string>)
    requires order != [] && order[|order| - 1] !in m
    ensures RepairAll(kv, m, order) == RepairAll(kv, m, order[..|order| - 1])
  {
  }

  lemma {:induction false} CommitIsDecent(id: string, names: seq<string>)
    requires IsId(id) && NamesOk(names)
    ensures AllDecent(CommitOps(id, names)) && AllDecent([])
  {
    NamesAreCreatable(names);
    hide Creatable, NamesOk, IsId;
    RenamingIsDecent(names);
    assert AllDecent([Append(Commit(id)), KvDrop(id)]);
    DecentConcat(MoveOps(names), [Append(Commit(id)), KvDrop(id)]);
  }

  lemma {:induction false} RepairsAreDecent(ops: seq<Op>)
    requires AllSafe(ops)
    ensures AllDecent(ops)
  {
    forall i | 0 <= i < |ops|
      ensures Decent(ops[i])
    {
      assert SafeRepair(ops[i]);
    }
  }

  lemma {:induction false} SummaryIds(log: seq<Record>, ids: seq<string>)
    requires LogOk(log)
    ensures IdsOk(Marked(Summary(log), ids)) && MapOk(Marked(Summary(log), ids))
  {
    MarkedNamesOk(log, ids);
    hide StateOf, NamesOf, IsId, NamesOk;
    forall id | id in Marked(Summary(log), ids)
      ensures IsId(id)
    {
      var r :| r in log && r.id == id;
      assert RecordOk(r);
    }
  }

  lemma {:induction false} RecoveryIsDecent(n: Node, peer: Node, ids: seq<string>, order: seq<string>, beyond: nat -> Bytes)
    requires LogOk(n.log)
    ensures var xs := RecoverOps(ParsedLog(n), peer, ids, order, beyond); AllDecent(HereOps(xs)) && AllDecent(ThereOps(xs))
  {
    ParsedLogIsSummary(n);
    var m := Marked(Summary(n.log), ids);
    SummaryIds(n.log, ids);
    var pull, repairs := PullOps(Summary(n.log), peer, ids, beyond), RepairAll(peer.kv, m, order);
    assert AllDecent(pull);
    hide RepairAll, HereOps, ThereOps, PullOps, Summary, ParsedLog, SafeRepair, Marked, Decent, MapOk, IdsOk;
    RepairAllSafe(peer.kv, m, order);
    RepairsAreDecent(HereOps(repairs));
    SentIsDecent(peer.kv, m, order);
    SplitSteps(pull, repairs);
    SplitLast(AllHere(pull) + repairs, TruncateLog);
    DecentConcat(pull, HereOps(repairs));
    TruncationIsDecent();
    DecentConcat(pull + HereOps(repairs), [TruncateLog]);
  }

  lemma {:induction false} TruncationIsDecent()
    ensures AllDecent([TruncateLog])
  {
  }

  // ----- Runs -----

  /** What can befall the two servers, the first of them or the other. Writes, handlers and recoveries may all be cut
      after any number of steps. */
  datatype Happening =
    | Writes(first: bool, id: string, address: int, buffer: Bytes, prepare: Status, commit: Status, steps: nat)
    | Prepares(first: bool, id: string, address: int, buffer: Bytes, steps: nat)
    | Commits(first: bool, id: string, address: int, buffer: Bytes, steps: nat)
    | Crashes(first: bool)
    | Recovers(first: bool, ids: seq<string>, order: seq<string>, beyond: nat -> Bytes, steps: nat)

  function OneSide(s: Pair, first: bool): Node {
    if first then s.self else s.peer
  }

  function WithSide(s: Pair, first: bool, n: Node): Pair {
    if first then s.(self := n) else s.(peer := n)
  }

  function AfterSteps(n: Node, ops: seq<Op>, steps: nat): Node {
    Exec(n, FirstOps(ops, steps))
  }

  function AfterRecoverySteps(n: Node, peer: Node, ids: seq<string>, order: seq<string>, beyond: nat -> Bytes, steps: nat): Pair {
    var xs := RecoverOps(ParsedLog(n), peer, ids, order, beyond);
    ExecBoth(Pair(n, peer), xs[..Min(steps, |xs|)])
  }

  function AfterHappening(s: Pair, h: Happening): Pair {
    var n := OneSide(s, h.first);
    match h
    case Writes(first, id, address, buffer, prepare, commit, steps) =>
      WithSide(s, first, AfterSteps(n, ServeOps(n.disk, id, PiecesOf(address, buffer), prepare, commit), steps))
    case Prepares(first, id, address, buffer, steps) =>
      WithSide(s, first, AfterSteps(n, PrepareHandler(n.disk, id, PiecesOf(address, buffer)), steps))
    case Commits(first, id, address, buffer, steps) =>
      WithSide(s, first, AfterSteps(n, CommitOps(id, Paths(PiecesOf(address, buffer))), steps))
    case Crashes(first) => WithSide(s, first, Crashed(n))
    case Recovers(first, ids, order, beyond, steps) =>
      var r := AfterRecoverySteps(n, OneSide(s, !first), ids, order, beyond, steps);
      if first then r else Pair(r.peer, r.self)
  }

  function AfterAll(s: Pair, hs: seq<Happening>): Pair {
    if hs == [] then s else AfterHappening(AfterAll(s, hs[..|hs| - 1]), hs[|hs| - 1])
  }

  /** Ids are decimal, as clocks print them. */
  predicate HasId(h: Happening) {
    match h
    case Writes(_, id, _, _, _, _, _) => IsId(id)
    case Prepares(_, id, _, _, _) => IsId(id)
    case Commits(_, id, _, _, _) => IsId(id)
    case _ => true
  }

  ghost predicate BothSafe(s: Pair) {
    SafeServer(s.self) && SafeServer(s.peer)
  }

  lemma {:induction false} StepsStaySafe(n: Node, ops: seq<Op>, steps: nat)
    requires SafeServer(n) && AllDecent(ops)
    ensures SafeServer(AfterSteps(n, ops, steps))
  {
    hide SafeServer, Decent;
    DecentRun(n, FirstOps(ops, steps));
  }

  lemma {:induction false} RecoveryStaysSafe(n: Node, peer: Node, ids: seq<string>, order: seq<string>, beyond: nat -> Bytes, steps: nat)
    requires SafeServer(n) && SafeServer(peer)
    ensures BothSafe(AfterRecoverySteps(n, peer, ids, order, beyond, steps))
  {
    var xs := RecoverOps(ParsedLog(n), peer, ids, order, beyond);
    RecoveryIsDecent(n, peer, ids, order, beyond);
    hide SafeServer, Decent, RecoverOps, ParsedLog, HereOps, ThereOps;
    SplitPrefix(xs, Min(steps, |xs|));
    ExecBothSplits(Pair(n, peer), xs[..Min(steps, |xs|)]);
    DecentRun(n, HereOps(xs[..Min(steps, |xs|)]));
    DecentRun(peer, ThereOps(xs[..Min(steps, |xs|)]));
  }

  lemma {:induction false} HappeningKeepsSafe(s: Pair, h: Happening)
    requires BothSafe(s) && HasId(h)
    ensures BothSafe(AfterHappening(s, h))
  {
    var n := OneSide(s, h.first);
    hide PiecesOf, AfterSteps, AfterRecoverySteps, ServeOps, PrepareHandler, CommitOps, LogOk, Sane, Decent, IsId, PiecesOk;
    match h
    case Writes(_, id, address, buffer, prepare, commit, steps) =>
      PiecesAreClean(address, buffer);
      ServingIsDecent(n.disk, id, PiecesOf(address, buffer), prepare, commit);
      StepsStaySafe(n, ServeOps(n.disk, id, PiecesOf(address, buffer), prepare, commit), steps);
    case Prepares(_, id, address, buffer, steps) =>
      PiecesAreClean(address, buffer);
      ServingIsDecent(n.disk, id, PiecesOf(address, buffer), OK, OK);
      StepsStaySafe(n, PrepareHandler(n.disk, id, PiecesOf(address, buffer)), steps);
    case Commits(_, id, address, buffer, steps) =>
      PiecesAreClean(address, buffer);
      WritingIsDecent(id, PiecesOf(address, buffer), OK, OK);
      StepsStaySafe(n, CommitOps(id, Paths(PiecesOf(address, buffer))), steps);
    case Crashes(_) =>
    case Recovers(_, ids, order, beyond, steps) =>
      RecoveryStaysSafe(n, OneSide(s, !h.first), ids, order, beyond, steps);
  }

  lemma {:induction false} RunStaysSafe(s: Pair, hs: seq<Happening>)
    requires BothSafe(s) && forall h :: h in hs ==> HasId(h)
    ensures BothSafe(AfterAll(s, hs))
  {
    hide BothSafe, AfterHappening, HasId;
    if hs != [] {
      assert forall h :: h in hs[..|hs| - 1] ==> h in hs;
      RunStaysSafe(s, hs[..|hs| - 1]);
      HappeningKeepsSafe(AfterAll(s, hs[..|hs| - 1]), hs[|hs| - 1]);
    }
  }

  /** So from newly created storage, whatever happens on either server and wherever it is cut short: logs hold whole
      records of block names, and there is neither an undo file nor a temp file of a temp file. */
  lemma {:induction false} EveryRunIsSafe(hs: seq<Happening>)
    requires forall h :: h in hs ==> HasId(h)
    ensures var s := AfterAll(Pair(NewServers().primary, NewServers().backup), hs);
            && LogOk(s.self.log) && Sane(s.self.disk) && NoUndos(s.self.disk)
            && LogOk(s.peer.log) && Sane(s.peer.disk) && NoUndos(s.peer.disk)
  {
    var s := NewServers();
    NewServersAreShaped();
    assert LogOk([]);
    hide AfterAll, HasId, NewStorage, LogOk, Short, TempsSmall;
    RunStaysSafe(Pair(s.primary, s.backup), hs);
  }
}
