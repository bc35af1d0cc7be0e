/** Any number of concurrent writes on the primary: what the log and the table say of each transaction. */
module WriteAheadAgreement {
  import opened Storage
  import opened WriteAheadLog
  import opened KeyValueStore
  import opened Nodes
  import opened Effects

  /** Steps on the log and on the table; the others concern files. */
  predicate IsBookkeeping(op: Op) {
    op.Append? || op.KvAdd? || op.KvSet? || op.KvDrop?
  }

  function Core(ops: seq<Op>): (r: seq<Op>)
    ensures forall i :: 0 <= i < |r| ==> IsBookkeeping(r[i])
  {
    if ops == [] then []
    else Core(ops[..|ops| - 1]) + if IsBookkeeping(ops[|ops| - 1]) then [ops[|ops| - 1]] else []
  }

  ghost predicate OnlyFiles(ops: seq<Op>) {
    forall i :: 0 <= i < |ops| ==> !IsBookkeeping(ops[i]) && !ops[i].TruncateLog?
  }

  ghost predicate NoTruncation(ops: seq<Op>) {
    forall i :: 0 <= i < |ops| ==> !ops[i].TruncateLog?
  }

  lemma {:induction false} CoreConcat(a: seq<Op>, b: seq<Op>)
    ensures Core(a + b) == Core(a) + Core(b)
  {
    if b == [] {
      assert a + b == a;
    } else {
      assert (a + b)[..|a + b| - 1] == a + b[..|b| - 1];
      CoreConcat(a, b[..|b| - 1]);
    }
  }

  lemma {:induction false} CoreOfFiles(ops: seq<Op>)
    requires OnlyFiles(ops)
    ensures Core(ops) == []
  {
    if ops != [] {
      CoreOfFiles(ops[..|ops| - 1]);
    }
  }

  lemma {:induction false} CoreOfBookkeeping(ops: seq<Op>)
    requires forall i :: 0 <= i < |ops| ==> IsBookkeeping(ops[i])
    ensures Core(ops) == ops
  {
    if ops != [] {
      CoreOfBookkeeping(ops[..|ops| - 1]);
    }
  }

  lemma {:induction false} CorePrefix(ops: seq<Op>, k: nat)
    requires k <= |ops|
    ensures |Core(ops[..k])| <= |Core(ops)| && Core(ops[..k]) == Core(ops)[..|Core(ops[..k])|]
  {
    assert ops[..k] + ops[k..] == ops;
    CoreConcat(ops[..k], ops[k..]);
  }

  lemma {:induction false} FileStepKeepsBooks(n: Node, op: Op)
    requires !IsBookkeeping(op) && !op.TruncateLog?
    ensures Apply(n, op).log == n.log && Apply(n, op).kv == n.kv
  {
  }

  lemma {:induction false} SameBooksStep(n: Node, n': Node, op: Op)
    requires n.log == n'.log && n.kv == n'.kv
    ensures Apply(n, op).log == Apply(n', op).log && Apply(n, op).kv == Apply(n', op).kv
  {
  }

  lemma {:induction false} CoreDecides(n: Node, ops: seq<Op>)
    requires NoTruncation(ops)
    ensures Exec(n, ops).log == Exec(n, Core(ops)).log && Exec(n, ops).kv == Exec(n, Core(ops)).kv
  {
    hide Apply;
    if ops != [] {
      var init, last := ops[..|ops| - 1], ops[|ops| - 1];
      CoreDecides(n, init);
      if IsBookkeeping(last) {
        ExecAppend(n, Core(init), last);
        SameBooksStep(Exec(n, init), Exec(n, Core(init)), last);
      } else {
        assert Core(ops) == Core(init);
        FileStepKeepsBooks(Exec(n, init), last);
      }
    }
  }

  lemma {:induction false} StageOpsAreFiles(ps: seq<Piece>)
    ensures OnlyFiles(StageOps(ps))
  {
    StageOpsTouchTemps(ps);
    forall i | 0 <= i < |StageOps(ps)|
      ensures !IsBookkeeping(StageOps(ps)[i]) && !StageOps(ps)[i].TruncateLog?
    {
      assert OnlyTouchesTemps(StageOps(ps)[i], ps);
    }
  }

  /** The bookkeeping of one write, in order. */
  function WriteCore(id: string, ps: seq<Piece>, prepare: Status, commit: Status): seq<Op> {
    var begin := [Append(Start(id, Movs(ps))), KvAdd(id, Txn(ps))];
    var pend := [Append(Pending(id)), KvSet(id, PENDING_REPLICATION)];
    match prepare
    case UNAVAILABLE => begin + pend
    case OTHER => begin + [Append(Abort(id)), KvDrop(id)]
    case OK =>
      begin + [Append(ReplInit(id)), KvSet(id, RPC_INIT)]
      + match commit
        case OK => [Append(Commit(id)), KvDrop(id)]
        case UNAVAILABLE => pend
        case OTHER => [KvDrop(id)]
  }

  lemma {:induction false} CoreOfPrepare(id: string, ps: seq<Piece>)
    ensures Core(PrepareOps(id, ps)) == [Append(Start(id, Movs(ps))), KvAdd(id, Txn(ps))]
    ensures NoTruncation(PrepareOps(id, ps))
  {
    StageOpsAreFiles(ps);
    CoreOfFiles(StageOps(ps));
    CoreConcat(StageOps(ps), [Append(Start(id, Movs(ps))), KvAdd(id, Txn(ps))]);
    CoreOfBookkeeping([Append(Start(id, Movs(ps))), KvAdd(id, Txn(ps))]);
  }

  lemma {:induction false} CoreOfFilesThen(files: seq<Op>, tail: seq<Op>)
    requires OnlyFiles(files) && forall i :: 0 <= i < |tail| ==> IsBookkeeping(tail[i])
    ensures Core(files + tail) == tail && NoTruncation(files + tail)
  {
    hide Core;
    CoreOfFiles(files);
    CoreConcat(files, tail);
    CoreOfBookkeeping(tail);
    assert [] + tail == tail;
  }

  lemma {:induction false} CoreAfterMoves(ps: seq<Piece>, tail: seq<Op>)
    requires forall i :: 0 <= i < |tail| ==> IsBookkeeping(tail[i])
    ensures Core(MoveOps(Paths(ps)) + tail) == tail && NoTruncation(MoveOps(Paths(ps)) + tail)
  {
    CoreOfFilesThen(MoveOps(Paths(ps)), tail);
  }

  lemma {:induction false} CoreOfAfterCommit(id: string, ps: seq<Piece>, commit: Status)
    ensures NoTruncation(AfterCommit(id, ps, commit))
    ensures Core(AfterCommit(id, ps, commit))
            == match commit
               case OK => [Append(Commit(id)), KvDrop(id)]
               case UNAVAILABLE => [Append(Pending(id)), KvSet(id, PENDING_REPLICATION)]
               case OTHER => [KvDrop(id)]
  {
    hide Core, MoveOps, Paths;
    match commit
    case OK => CoreOfBookkeeping([Append(Commit(id)), KvDrop(id)]);
    case UNAVAILABLE => CoreAfterMoves(ps, [Append(Pending(id)), KvSet(id, PENDING_REPLICATION)]);
    case OTHER => CoreOfBookkeeping([KvDrop(id)]);
  }

  lemma {:induction false} NoTruncationConcat(a: seq<Op>, b: seq<Op>)
    requires NoTruncation(a) && NoTruncation(b)
    ensures NoTruncation(a + b)
  {
  }

  lemma {:induction false} CoreOfAfterPrepare(id: string, ps: seq<Piece>, prepare: Status, commit: Status)
    ensures NoTruncation(AfterPrepare(id, ps, prepare, commit))
    ensures WriteCore(id, ps, prepare, commit)
            == [Append(Start(id, Movs(ps))), KvAdd(id, Txn(ps))] + Core(AfterPrepare(id, ps, prepare, commit))
  {
    hide Core, MoveOps, Paths, Movs, Txn, NoTruncation;
    match prepare
    case UNAVAILABLE => CoreAfterMoves(ps, [Append(Pending(id)), KvSet(id, PENDING_REPLICATION)]);
    case OTHER =>
      CoreOfFilesThen([], [Append(Abort(id)), KvDrop(id)]);
      assert [] + [Append(Abort(id)), KvDrop(id)] == AfterPrepare(id, ps, prepare, commit);
    case OK => CoreOfInstalled(id, ps, commit);
  }

  lemma {:induction false} CoreOfInstalled(id: string, ps: seq<Piece>, commit: Status)
    ensures NoTruncation(AfterPrepare(id, ps, OK, commit))
    ensures WriteCore(id, ps, OK, commit)
            == [Append(Start(id, Movs(ps))), KvAdd(id, Txn(ps))] + Core(AfterPrepare(id, ps, OK, commit))
  {
    hide *;
    InstallsThen(id, ps, commit);
    CoreAfterMoves(ps, [Append(ReplInit(id)), KvSet(id, RPC_INIT)]);
    CoreOfAfterCommit(id, ps, commit);
    CoreConcat(InstallOps(id, ps), AfterCommit(id, ps, commit));
    NoTruncationConcat(InstallOps(id, ps), AfterCommit(id, ps, commit));
    WriteCoreInParts(id, ps, commit, Core(AfterCommit(id, ps, commit)));
  }

  lemma {:induction false} InstallsThen(id: string, ps: seq<Piece>, commit: Status)
    ensures AfterPrepare(id, ps, OK, commit) == InstallOps(id, ps) + AfterCommit(id, ps, commit)
    ensures InstallOps(id, ps) == MoveOps(Paths(ps)) + [Append(ReplInit(id)), KvSet(id, RPC_INIT)]
    ensures IsBookkeeping(Append(ReplInit(id))) && IsBookkeeping(KvSet(id, RPC_INIT))
  {
  }

  lemma {:induction false} WriteCoreInParts(id: string, ps: seq<Piece>, commit: Status, tail: seq<Op>)
    requires tail == match commit
                     case OK => [Append(Commit(id)), KvDrop(id)]
                     case UNAVAILABLE => [Append(Pending(id)), KvSet(id, PENDING_REPLICATION)]
                     case OTHER => [KvDrop(id)]
    ensures WriteCore(id, ps, OK, commit)
            == [Append(Start(id, Movs(ps))), KvAdd(id, Txn(ps))] + ([Append(ReplInit(id)), KvSet(id, RPC_INIT)] + tail)
  {
    hide Movs, Txn;
  }

  lemma {:induction false} CoreOfWrite(d: Disk, id: string, ps: seq<Piece>, prepare: Status, commit: Status)
    ensures NoTruncation(WriteOps(d, id, ps, prepare, commit))
    ensures Core(WriteOps(d, id, ps, prepare, commit))
            == if Stageable(d, ps) < |ps| then [] else WriteCore(id, ps, prepare, commit)
  {
    var k := Stageable(d, ps);
    if k < |ps| {
      StageOpsAreFiles(ps[..k]);
      CoreOfFiles(StageOps(ps[..k]));
    } else {
      CoreOfPrepare(id, ps);
      CoreOfAfterPrepare(id, ps, prepare, commit);
      CoreConcat(PrepareOps(id, ps), AfterPrepare(id, ps, prepare, commit));
    }
  }

  // ----- One transaction's view of a server -----

  datatype TableEntry = Absent | Known(state: State)

  function TableEntryOf(kv: Kv, id: string): TableEntry {
    if id in kv then Known(kv[id].state) else Absent
  }

  function RecordsOf(log: seq<Record>, id: string): seq<Record> {
    if log == [] then []
    else RecordsOf(log[..|log| - 1], id) + if log[|log| - 1].id == id then [log[|log| - 1]] else []
  }

  predicate Concerns(op: Op, id: string) {
    match op
    case Append(r) => r.id == id
    case KvAdd(i, t) => i == id && t.state == START
    case KvSet(i, _) => i == id
    case KvDrop(i) => i == id
    case TruncateLog => false
    case _ => true
  }

  ghost predicate AllConcern(ops: seq<Op>, id: string) {
    forall i :: 0 <= i < |ops| ==> Concerns(ops[i], id)
  }

  /** Where a transaction stands: its records, and its entry in the table. */
  datatype View = View(records: seq<Record>, entry: TableEntry)

  function ViewOf(n: Node, id: string): View {
    View(RecordsOf(n.log, id), TableEntryOf(n.kv, id))
  }

  function StepView(v: View, op: Op): View {
    match op
    case Append(r) => v.(records := v.records + [r])
    case KvAdd(_, t) => if v.entry == Absent then v.(entry := Known(t.state)) else v
    case KvSet(_, state) => v.(entry := Known(state))
    case KvDrop(_) => v.(entry := Absent)
    case _ => v
  }

  function RunView(v: View, ops: seq<Op>): View {
    if ops == [] then v else StepView(RunView(v, ops[..|ops| - 1]), ops[|ops| - 1])
  }

  lemma {:induction false} OwnStep(n: Node, op: Op, id: string)
    requires Concerns(op, id)
    ensures ViewOf(Apply(n, op), id) == StepView(ViewOf(n, id), op)
  {
  }

  lemma {:induction false} OtherStep(n: Node, op: Op, id: string, other: string)
    requires Concerns(op, other) && other != id
    ensures ViewOf(Apply(n, op), id) == ViewOf(n, id)
  {
  }

  lemma {:induction false} CoreDecidesView(v: View, ops: seq<Op>)
    requires NoTruncation(ops)
    ensures RunView(v, ops) == RunView(v, Core(ops))
  {
    if ops != [] {
      var init, last := ops[..|ops| - 1], ops[|ops| - 1];
      CoreDecidesView(v, init);
      if IsBookkeeping(last) {
        assert Core(ops)[..|Core(init)|] == Core(init);
      } else {
        assert Core(ops) == Core(init);
      }
    }
  }

  const UNKNOWN: View := View([], Absent)

  /** The histories that a transaction can reach, written out. */
  ghost predicate AllowedRecords(rs: seq<Record>, id: string, movs: seq<(string, string)>) {
    var s, c, i, p, a := Start(id, movs), Commit(id), ReplInit(id), Pending(id), Abort(id);
    rs == [] || rs == [s] || rs == [s, i] || rs == [s, i, c] || rs == [s, i, p] || rs == [s, p] || rs == [s, a]
  }

  /** The table never runs ahead of the log, and never says COMMIT. */
  ghost predicate EntryBehindLog(v: View, id: string, movs: seq<(string, string)>) {
    match v.entry
    case Absent => true
    case Known(state) =>
      match state
      case START => Start(id, movs) in v.records
      case RPC_INIT => ReplInit(id) in v.records
      case PENDING_REPLICATION => v.records != [] && v.records[|v.records| - 1] == Pending(id)
      case _ => false
  }

  predicate SaysPending(v: View, id: string) {
    v.records != [] && v.records[|v.records| - 1] == Pending(id)
  }

  /** The view after `k` bookkeeping steps of a write, written out. */
  function ViewAfter(id: string, movs: seq<(string, string)>, prepare: Status, commit: Status, k: nat): View {
    var s, c, i, p, a := Start(id, movs), Commit(id), ReplInit(id), Pending(id), Abort(id);
    if k == 0 then View([], Absent)
    else if k == 1 then View([s], Absent)
    else if k == 2 then View([s], Known(START))
    else match prepare
         case UNAVAILABLE => View([s, p], Known(if k == 3 then START else PENDING_REPLICATION))
         case OTHER => View([s, a], if k == 3 then Known(START) else Absent)
         case OK =>
           if k == 3 then View([s, i], Known(START))
           else if k == 4 then View([s, i], Known(RPC_INIT))
           else match commit
                case OK => View([s, i, c], if k == 5 then Known(RPC_INIT) else Absent)
                case UNAVAILABLE => View([s, i, p], Known(if k == 5 then RPC_INIT else PENDING_REPLICATION))
                case OTHER => View([s, i], Absent)
  }

  lemma {:induction false} ViewStep(id: string, ps: seq<Piece>, prepare: Status, commit: Status, k: nat)
    requires k < |WriteCore(id, ps, prepare, commit)|
    ensures StepView(ViewAfter(id, Movs(ps), prepare, commit, k), WriteCore(id, ps, prepare, commit)[k])
            == ViewAfter(id, Movs(ps), prepare, commit, k + 1)
  {
  }

  lemma {:induction false} ViewOfCore(id: string, ps: seq<Piece>, prepare: Status, commit: Status, k: nat)
    requires k <= |WriteCore(id, ps, prepare, commit)|
    ensures RunView(UNKNOWN, WriteCore(id, ps, prepare, commit)[..k]) == ViewAfter(id, Movs(ps), prepare, commit, k)
  {
    hide WriteCore, StepView;
    if k > 0 {
      ViewOfCore(id, ps, prepare, commit, k - 1);
      RunOneMore(UNKNOWN, WriteCore(id, ps, prepare, commit), k - 1);
      ViewStep(id, ps, prepare, commit, k - 1);
    }
  }

  lemma {:induction false} ViewIsAllowed(id: string, movs: seq<(string, string)>, prepare: Status, commit: Status, k: nat)
    ensures var v := ViewAfter(id, movs, prepare, commit, k);
            && AllowedRecords(v.records, id, movs)
            && EntryBehindLog(v, id, movs)
  {
  }

  lemma {:induction false} FinalView(id: string, ps: seq<Piece>, prepare: Status, commit: Status)
    ensures var v := ViewAfter(id, Movs(ps), prepare, commit, |WriteCore(id, ps, prepare, commit)|);
            v.entry == Known(PENDING_REPLICATION) <==> SaysPending(v, id)
  {
  }

  // ----- Concurrent requests -----

  /** A write in progress: its steps, and how many it has taken. */
  datatype InFlight = InFlight(d: Disk, ps: seq<Piece>, prepare: Status, commit: Status, taken: nat)

  function Program(id: string, t: InFlight): seq<Op> {
    WriteOps(t.d, id, t.ps, t.prepare, t.commit)
  }

  /** A `Prepare` or a `Commit` of the other server in progress. */
  datatype HandlerCall = HandlerCall(id: string, ops: seq<Op>, taken: nat)

  /** A server with the client's writes and the other server's calls that it has accepted. */
  datatype Busy = Busy(node: Node, inFlight: map<string, InFlight>, calls: seq<HandlerCall>)

  predicate IsCalled(s: Busy, id: string) {
    exists i :: 0 <= i < |s.calls| && s.calls[i].id == id
  }

  /** Begin a write under a fresh id, with any outcomes of its calls; accept a call about a transaction of the other
      server; or let one of them take its next step. */
  datatype Action =
    | Begin(id: string, ps: seq<Piece>, prepare: Status, commit: Status)
    | Advance(id: string)
    | BeginPrepare(id: string, ps: seq<Piece>)
    | BeginCommit(id: string, names: seq<string>)
    | AdvanceCall(call: nat)

  function WithCall(s: Busy, id: string, ops: seq<Op>): Busy {
    if id in s.inFlight then s else s.(calls := s.calls + [HandlerCall(id, ops, 0)])
  }

  function AfterAction(s: Busy, a: Action): Busy {
    match a
    case Begin(id, ps, prepare, commit) =>
      if id in s.inFlight || IsCalled(s, id) then s
      else s.(inFlight := s.inFlight[id := InFlight(s.node.disk, ps, prepare, commit, 0)])
    case Advance(id) =>
      if id in s.inFlight && s.inFlight[id].taken < |Program(id, s.inFlight[id])| then
        var t := s.inFlight[id];
        s.(node := Apply(s.node, Program(id, t)[t.taken]), inFlight := s.inFlight[id := t.(taken := t.taken + 1)])
      else s
    case BeginPrepare(id, ps) => WithCall(s, id, PrepareHandler(s.node.disk, id, ps))
    case BeginCommit(id, names) => WithCall(s, id, CommitOps(id, names))
    case AdvanceCall(i) =>
      if i < |s.calls| && s.calls[i].taken < |s.calls[i].ops| then
        var c := s.calls[i];
        s.(node := Apply(s.node, c.ops[c.taken]), calls := s.calls[i := c.(taken := c.taken + 1)])
      else s
  }

  function RunActions(s: Busy, actions: seq<Action>): Busy {
    if actions == [] then s else AfterAction(RunActions(s, actions[..|actions| - 1]), actions[|actions| - 1])
  }

  /** Steps of a call: they start or commit, and never set a state. */
  predicate CallStep(op: Op, id: string) {
    && Concerns(op, id) && !op.TruncateLog? && !op.KvSet?
    && (op.Append? ==> op.record.Start? || op.record.Commit?)
  }

  ghost predicate CallSteps(ops: seq<Op>, id: string) {
    forall i :: 0 <= i < |ops| ==> CallStep(ops[i], id)
  }

  /** What calls alone make of a transaction. */
  ghost predicate FromCalls(v: View) {
    && (v.entry == Absent || v.entry == Known(START))
    && forall i :: 0 <= i < |v.records| ==> v.records[i].Start? || v.records[i].Commit?
  }

  ghost predicate Tracked(s: Busy, id: string) {
    if id in s.inFlight then
      && s.inFlight[id].taken <= |Program(id, s.inFlight[id])|
      && ViewOf(s.node, id) == RunView(UNKNOWN, Program(id, s.inFlight[id])[..s.inFlight[id].taken])
    else if IsCalled(s, id) then FromCalls(ViewOf(s.node, id))
    else ViewOf(s.node, id) == UNKNOWN
  }

  ghost predicate CallsOk(s: Busy) {
    forall i :: 0 <= i < |s.calls| ==> s.calls[i].id !in s.inFlight && CallSteps(s.calls[i].ops, s.calls[i].id)
  }

  ghost predicate BooksInv(s: Busy) {
    CallsOk(s) && forall id :: Tracked(s, id)
  }

  lemma {:induction false} CoreConcerns(ops: seq<Op>, id: string)
    requires NoTruncation(ops) && AllConcern(Core(ops), id)
    ensures AllConcern(ops, id)
  {
    if ops != [] {
      var init, last := ops[..|ops| - 1], ops[|ops| - 1];
      assert Core(ops)[..|Core(init)|] == Core(init);
      forall i | 0 <= i < |Core(init)|
        ensures Concerns(Core(init)[i], id)
      {
        assert Core(ops)[i] == Core(init)[i];
      }
      CoreConcerns(init, id);
      if IsBookkeeping(last) {
        assert Core(ops)[|Core(init)|] == last;
      }
    }
  }

  lemma {:induction false} ProgramConcerns(id: string, t: InFlight)
    ensures AllConcern(Program(id, t), id) && NoTruncation(Program(id, t))
  {
    hide WriteOps, Core, WriteCore;
    CoreOfWrite(t.d, id, t.ps, t.prepare, t.commit);
    WriteCoreConcerns(id, t.ps, t.prepare, t.commit);
    CoreConcerns(Program(id, t), id);
  }

  lemma {:induction false} WriteCoreConcerns(id: string, ps: seq<Piece>, prepare: Status, commit: Status)
    ensures AllConcern(WriteCore(id, ps, prepare, commit), id)
  {
  }

  lemma {:induction false} StagingIsCallSteps(ps: seq<Piece>, id: string)
    ensures CallSteps(StageOps(ps), id)
  {
    StageOpsTouchTemps(ps);
    forall i | 0 <= i < |StageOps(ps)|
      ensures CallStep(StageOps(ps)[i], id)
    {
      assert OnlyTouchesTemps(StageOps(ps)[i], ps);
    }
  }

  lemma {:induction false} HandlersAreCallSteps(d: Disk, id: string, ps: seq<Piece>, names: seq<string>)
    ensures CallSteps(PrepareHandler(d, id, ps), id) && CallSteps(CommitOps(id, names), id)
  {
    StagingIsCallSteps(ps, id);
    StagingIsCallSteps(ps[..Staging(d, ps)], id);
    hide StageOps;
  }

  lemma {:induction false} ActionKeepsBooks(s: Busy, a: Action)
    requires BooksInv(s)
    ensures BooksInv(AfterAction(s, a))
  {
    match a
    case Begin(id, ps, prepare, commit) => BeginKeeps(s, id, ps, prepare, commit);
    case Advance(id) =>
      hide WriteOps, RunView, Apply, Tracked, CallSteps;
      forall other
        ensures Tracked(AfterAction(s, a), other)
      {
        AdvanceKeeps(s, id, other);
      }
    case BeginPrepare(id, ps) =>
      HandlersAreCallSteps(s.node.disk, id, ps, []);
      WithCallKeeps(s, id, PrepareHandler(s.node.disk, id, ps));
    case BeginCommit(id, names) =>
      HandlersAreCallSteps(s.node.disk, id, [], names);
      WithCallKeeps(s, id, CommitOps(id, names));
    case AdvanceCall(i) => AdvanceCallKeeps(s, i);
  }

  lemma {:induction false} BeginKeeps(s: Busy, id: string, ps: seq<Piece>, prepare: Status, commit: Status)
    requires BooksInv(s)
    ensures BooksInv(AfterAction(s, Begin(id, ps, prepare, commit)))
  {
    hide WriteOps, RunView, Apply, CallSteps;
    var s' := AfterAction(s, Begin(id, ps, prepare, commit));
    if s' != s {
      assert Tracked(s, id);
      RunNothing(Program(id, s'.inFlight[id])[..0]);
      forall other
        ensures Tracked(s', other)
      {
        assert Tracked(s, other);
        assert IsCalled(s', other) == IsCalled(s, other);
      }
    }
  }

  lemma {:induction false} WithCallKeeps(s: Busy, id: string, ops: seq<Op>)
    requires BooksInv(s) && CallSteps(ops, id)
    ensures BooksInv(WithCall(s, id, ops))
  {
    hide WriteOps, RunView, CallSteps;
    var s' := WithCall(s, id, ops);
    if s' != s {
      forall other
        ensures Tracked(s', other)
      {
        assert Tracked(s, other);
        OneMoreCall(s, HandlerCall(id, ops, 0), other);
      }
    }
  }

  lemma {:induction false} OneMoreCall(s: Busy, c: HandlerCall, id: string)
    ensures IsCalled(s.(calls := s.calls + [c]), id) <==> IsCalled(s, id) || id == c.id
  {
    var calls := s.calls + [c];
    assert calls[|s.calls|] == c;
    assert forall i :: 0 <= i < |s.calls| ==> calls[i] == s.calls[i];
  }

  lemma {:induction false} CallStepKeeps(v: View, op: Op, id: string)
    requires FromCalls(v) && CallStep(op, id)
    ensures FromCalls(StepView(v, op))
  {
  }

  lemma {:induction false} AdvanceCallKeeps(s: Busy, i: nat)
    requires BooksInv(s)
    ensures BooksInv(AfterAction(s, AdvanceCall(i)))
  {
    hide WriteOps, RunView, StepView, Apply, ViewOf, FromCalls;
    var s' := AfterAction(s, AdvanceCall(i));
    if s' != s {
      var c := s.calls[i];
      var op := c.ops[c.taken];
      assert CallStep(op, c.id);
      assert forall k :: 0 <= k < |s.calls| ==> s'.calls[k].id == s.calls[k].id && s'.calls[k].ops == s.calls[k].ops;
      forall other
        ensures Tracked(s', other)
      {
        assert Tracked(s, other);
        SameCalls(s, s', other);
        if other == c.id {
          OwnStep(s.node, op, other);
          CallStepKeeps(ViewOf(s.node, other), op, other);
        } else {
          OtherStep(s.node, op, other, c.id);
        }
      }
    }
  }

  lemma {:induction false} SameCalls(s: Busy, s': Busy, id: string)
    requires |s.calls| == |s'.calls| && forall k :: 0 <= k < |s.calls| ==> s'.calls[k].id == s.calls[k].id
    ensures IsCalled(s, id) <==> IsCalled(s', id)
  {
  }

  lemma {:induction false} RunNothing(ops: seq<Op>)
    requires ops == []
    ensures RunView(UNKNOWN, ops) == UNKNOWN
  {
  }

  lemma {:induction false} RunOneMore(v: View, ops: seq<Op>, k: nat)
    requires k < |ops|
    ensures RunView(v, ops[..k + 1]) == StepView(RunView(v, ops[..k]), ops[k])
  {
    assert ops[..k + 1][..k] == ops[..k];
  }

  lemma {:induction false} AdvanceKeeps(s: Busy, id: string, other: string)
    requires BooksInv(s)
    ensures Tracked(AfterAction(s, Advance(id)), other)
  {
    hide WriteOps, RunView, StepView, Apply, ViewOf, FromCalls, CallSteps;
    assert Tracked(s, id) && Tracked(s, other);
    if id in s.inFlight && s.inFlight[id].taken < |Program(id, s.inFlight[id])| {
      var t := s.inFlight[id];
      var op := Program(id, t)[t.taken];
      SameCalls(s, AfterAction(s, Advance(id)), other);
      ProgramConcerns(id, t);
      if other == id {
        OwnStep(s.node, op, id);
        RunOneMore(UNKNOWN, Program(id, t), t.taken);
      } else {
        OtherStep(s.node, op, other, id);
      }
    }
  }

  lemma {:induction false} RunKeepsBooks(s: Busy, actions: seq<Action>)
    requires BooksInv(s)
    ensures BooksInv(RunActions(s, actions))
  {
    hide BooksInv, AfterAction;
    if actions != [] {
      RunKeepsBooks(s, actions[..|actions| - 1]);
      ActionKeepsBooks(RunActions(s, actions[..|actions| - 1]), actions[|actions| - 1]);
    }
  }

  /** A server after start-up: its log has been truncated, its table is empty. */
  ghost predicate Fresh(s: Busy) {
    s.node.log == [] && s.node.kv == map[] && s.inFlight == map[] && s.calls == []
  }

  /** No write is under way; calls may be. */
  ghost predicate Quiescent(s: Busy) {
    forall id :: id in s.inFlight ==> s.inFlight[id].taken == |Program(id, s.inFlight[id])|
  }

  lemma {:induction false} FreshIsTracked(s: Busy)
    requires Fresh(s)
    ensures BooksInv(s)
  {
  }

  /** How far the bookkeeping of a write has come. */
  lemma {:induction false} InFlightCore(s: Busy, id: string) returns (k: nat)
    requires Tracked(s, id) && id in s.inFlight
    ensures var t := s.inFlight[id];
            && (Stageable(t.d, t.ps) < |t.ps| ==> ViewOf(s.node, id) == UNKNOWN)
            && (Stageable(t.d, t.ps) == |t.ps| ==>
                  && ViewOf(s.node, id) == ViewAfter(id, Movs(t.ps), t.prepare, t.commit, k)
                  && (t.taken == |Program(id, t)| ==> k == |WriteCore(id, t.ps, t.prepare, t.commit)|))
  {
    var t := s.inFlight[id];
    var ops := Program(id, t);
    ProgramCore(id, t);
    hide *;
    TrackedView(s, id);
    CorePrefix(ops, t.taken);
    CoreDecidesView(UNKNOWN, ops[..t.taken]);
    k := |Core(ops[..t.taken])|;
    if Stageable(t.d, t.ps) < |t.ps| {
      RunNothing(Core(ops[..t.taken]));
    } else {
      ViewOfCore(id, t.ps, t.prepare, t.commit, k);
    }
  }

  lemma {:induction false} TrackedView(s: Busy, id: string)
    requires Tracked(s, id) && id in s.inFlight
    ensures var t := s.inFlight[id];
            && t.taken <= |Program(id, t)| && NoTruncation(Program(id, t)[..t.taken])
            && ViewOf(s.node, id) == RunView(UNKNOWN, Program(id, t)[..t.taken])
  {
    ProgramCore(id, s.inFlight[id]);
    hide Program, RunView, Core;
  }

  lemma {:induction false} ProgramCore(id: string, t: InFlight)
    ensures NoTruncation(Program(id, t)) && Program(id, t)[..|Program(id, t)|] == Program(id, t)
    ensures Core(Program(id, t)) == if Stageable(t.d, t.ps) < |t.ps| then [] else WriteCore(id, t.ps, t.prepare, t.commit)
  {
    hide WriteOps, Core, WriteCore, Stageable;
    CoreOfWrite(t.d, id, t.ps, t.prepare, t.commit);
  }

  lemma {:induction false} UnknownIsAllowed(id: string, movs: seq<(string, string)>)
    ensures AllowedRecords(UNKNOWN.records, id, movs) && EntryBehindLog(UNKNOWN, id, movs)
    ensures !(UNKNOWN.entry == Known(PENDING_REPLICATION)) && !SaysPending(UNKNOWN, id)
  {
  }

  lemma {:induction false} InFlightView(s: Busy, id: string)
    requires Tracked(s, id) && id in s.inFlight
    ensures AllowedRecords(ViewOf(s.node, id).records, id, Movs(s.inFlight[id].ps))
    ensures EntryBehindLog(ViewOf(s.node, id), id, Movs(s.inFlight[id].ps))
    ensures s.inFlight[id].taken == |Program(id, s.inFlight[id])| ==>
              (ViewOf(s.node, id).entry == Known(PENDING_REPLICATION) <==> SaysPending(ViewOf(s.node, id), id))
  {
    var t := s.inFlight[id];
    hide *;
    var k := InFlightCore(s, id);
    UnknownIsAllowed(id, Movs(t.ps));
    ViewIsAllowed(id, Movs(t.ps), t.prepare, t.commit, k);
    FinalView(id, t.ps, t.prepare, t.commit);
  }

  /** Over every interleaving of writes and of the other server's calls: each write's records are a prefix of one of
      the four histories, its table entry never says more than the log, and the table never says COMMIT. */
  lemma {:induction false} LogLeadsTable(s: Busy, actions: seq<Action>, id: string)
    requires Fresh(s) && id in RunActions(s, actions).inFlight
    ensures var t := RunActions(s, actions);
            && AllowedRecords(RecordsOf(t.node.log, id), id, Movs(t.inFlight[id].ps))
            && EntryBehindLog(ViewOf(t.node, id), id, Movs(t.inFlight[id].ps))
  {
    FreshIsTracked(s);
    RunKeepsBooks(s, actions);
    assert Tracked(RunActions(s, actions), id);
    InFlightView(RunActions(s, actions), id);
  }

  /** Once no write is in flight, exactly the ids whose last record is pending are pending in the table. */
  lemma {:induction false} PendingAgreesAtQuiescence(s: Busy, actions: seq<Action>, id: string)
    requires Fresh(s) && Quiescent(RunActions(s, actions))
    ensures var n := RunActions(s, actions).node;
            (id in n.kv && n.kv[id].state == PENDING_REPLICATION) <==> SaysPending(ViewOf(n, id), id)
  {
    FreshIsTracked(s);
    RunKeepsBooks(s, actions);
    var t := RunActions(s, actions);
    assert Tracked(t, id);
    hide RunActions;
    if id in t.inFlight {
      InFlightView(t, id);
    }
  }

  /** Hence no server ever answers COMMIT when recovery asks for the state of a transaction, whether it started that
      itself or was asked to prepare it. */
  lemma {:induction false} NeverCommittedInTable(s: Busy, actions: seq<Action>, id: string)
    requires Fresh(s)
    ensures var n := RunActions(s, actions).node; id in n.kv ==> n.kv[id].state != COMMIT
  {
    FreshIsTracked(s);
    RunKeepsBooks(s, actions);
    var t := RunActions(s, actions);
    assert Tracked(t, id);
    hide RunActions;
    if id in t.inFlight {
      InFlightView(t, id);
    }
  }
}
