/** Crash recovery: pull pending writes from the other server, repair by logged state, truncate the log. */
module Recovery {
  import opened Storage
  import opened WriteAheadLog
  import opened LogParser
  import opened KeyValueStore
  import opened Nodes
  import opened Effects
  import opened BlockServer

  /** A step on the recovering server, or one that it causes on the other. */
  datatype SysOp = Here(op: Op) | There(op: Op)

  datatype Pair = Pair(self: Node, peer: Node)

  function ApplyBoth(s: Pair, x: SysOp): Pair {
    match x
    case Here(op) => s.(self := Apply(s.self, op))
    case There(op) => s.(peer := Apply(s.peer, op))
  }

  function ExecBoth(s: Pair, xs: seq<SysOp>): Pair {
    if xs == [] then s else ApplyBoth(ExecBoth(s, xs[..|xs| - 1]), xs[|xs| - 1])
  }

  function HereOps(xs: seq<SysOp>): seq<Op> {
    if xs == [] then []
    else HereOps(xs[..|xs| - 1]) + if xs[|xs| - 1].Here? then [xs[|xs| - 1].op] else []
  }

  function ThereOps(xs: seq<SysOp>): seq<Op> {
    if xs == [] then []
    else ThereOps(xs[..|xs| - 1]) + if xs[|xs| - 1].There? then [xs[|xs| - 1].op] else []
  }

  function AllHere(ops: seq<Op>): (r: seq<SysOp>)
    ensures |r| == |ops| && forall i :: 0 <= i < |ops| ==> r[i] == Here(ops[i])
  {
    seq(|ops|, i requires 0 <= i < |ops| => Here(ops[i]))
  }

  function AllThere(ops: seq<Op>): (r: seq<SysOp>)
    ensures |r| == |ops| && forall i :: 0 <= i < |ops| ==> r[i] == There(ops[i])
  {
    seq(|ops|, i requires 0 <= i < |ops| => There(ops[i]))
  }

  // ----- Repair by logged state -----

  /** Temp files stand at even positions of the names, originals at odd ones. */
  function LeftoverOf(names: seq<string>, i: nat): string
    requires i < |names|
  {
    if i % 2 == 0 then names[i] else Undo(names[i])
  }

  function DeleteLeftovers(names: seq<string>): seq<Op> {
    seq(|names|, i requires 0 <= i < |names| => Delete(LeftoverOf(names, i)))
  }

  function UndoMoves(names: seq<string>): seq<Op> {
    seq(|names|, i requires 0 <= i < |names| => Move(Undo(names[i]), names[i]))
  }

  function DeleteUndos(names: seq<string>): seq<Op> {
    if names == [] then []
    else DeleteUndos(names[..|names| - 1])
         + if (|names| - 1) % 2 != 0 then [Delete(Undo(names[|names| - 1]))] else []
  }

  predicate CommittedIn(kv: Kv, id: string) {
    id in kv && kv[id].state == COMMIT
  }

  function RepairHere(d: LogData, committed: bool): seq<Op> {
    match d.state
    case START => DeleteLeftovers(d.names)
    case ABORT => UndoMoves(d.names) + DeleteLeftovers(d.names)
    case RPC_INIT => if committed then DeleteUndos(d.names) else []
    case COMMIT => DeleteUndos(d.names)
    case PENDING_REPLICATION => []
  }

  /** An interrupted replication is finished by committing on the other server, temp names and all. */
  function RepairThere(id: string, d: LogData, committed: bool): seq<Op> {
    if d.state == RPC_INIT && !committed then CommitOps(id, d.names) else []
  }

  function RepairOne(kv: Kv, id: string, d: LogData): seq<SysOp> {
    AllHere(RepairHere(d, CommittedIn(kv, id))) + AllThere(RepairThere(id, d, CommittedIn(kv, id)))
  }

  function RepairAll(kv: Kv, m: LogMap, order: seq<string>): seq<SysOp> {
    if order == [] then []
    else
      var id := order[|order| - 1];
      RepairAll(kv, m, order[..|order| - 1]) + if id in m then RepairOne(kv, id, m[id]) else []
  }

  // ----- Pending writes -----

  predicate NotCommittedHere(m: LogMap, id: string) {
    id !in m || m[id].state != COMMIT
  }

  function Requested(m: LogMap, ids: seq<string>): (r: seq<string>)
    ensures forall i :: 0 <= i < |r| ==> r[i] in ids && NotCommittedHere(m, r[i])
  {
    if ids == [] then []
    else Requested(m, ids[..|ids| - 1]) + if NotCommittedHere(m, ids[|ids| - 1]) then [ids[|ids| - 1]] else []
  }

  /** Pending transactions that the log knows count as committed from here on. */
  function Marked(m: LogMap, ids: seq<string>): (r: LogMap)
    ensures r.Keys == m.Keys
  {
    map id | id in m :: if id in ids then m[id].(state := COMMIT) else m[id]
  }

  function Patches(stream: seq<Chunk>, beyond: nat -> Bytes): (r: seq<Op>)
    ensures |r| == |stream|
    ensures forall j :: 0 <= j < |stream| ==>
              r[j] == PWrite(stream[j].path, InMemory(stream[j].content, stream[j].size, beyond(j)), stream[j].off)
  {
    seq(|stream|, j requires 0 <= j < |stream| =>
          PWrite(stream[j].path, InMemory(stream[j].content, stream[j].size, beyond(j)), stream[j].off))
  }

  function PullOps(m: LogMap, peer: Node, ids: seq<string>, beyond: nat -> Bytes): seq<Op> {
    Patches(StreamOf(peer.disk, peer.kv, Requested(m, ids)), beyond)
  }

  /** Everything `Recover` does, up to `Cleanup`. */
  function RepairSteps(m: LogMap, peer: Node, ids: seq<string>, order: seq<string>, beyond: nat -> Bytes): seq<SysOp> {
    AllHere(PullOps(m, peer, ids, beyond)) + RepairAll(peer.kv, Marked(m, ids), order)
  }

  function RecoverOps(m: LogMap, peer: Node, ids: seq<string>, order: seq<string>, beyond: nat -> Bytes): seq<SysOp> {
    RepairSteps(m, peer, ids, order, beyond) + [Here(TruncateLog)]
  }

  // ----- The parser never yields the state without a case -----

  ghost predicate FourStates(m: LogMap) {
    forall id :: id in m ==> m[id].state != PENDING_REPLICATION
  }

  lemma {:induction false} ParsedStates(lines: seq<string>)
    ensures FourStates(LoadMore(map[], lines))
  {
    if lines != [] {
      ParsedStates(lines[..|lines| - 1]);
      AbsorbKeepsFourStates(LoadMore(map[], lines[..|lines| - 1]), lines[|lines| - 1]);
    }
  }

  lemma {:induction false} AbsorbKeepsFourStates(m: LogMap, line: string)
    requires FourStates(m)
    ensures FourStates(Absorb(m, EntryOf(line)))
  {
  }

  // ----- Split histories -----

  lemma {:induction false} SplitConcat(xs: seq<SysOp>, ys: seq<SysOp>)
    ensures HereOps(xs + ys) == HereOps(xs) + HereOps(ys)
    ensures ThereOps(xs + ys) == ThereOps(xs) + ThereOps(ys)
  {
    if ys == [] {
      assert xs + ys == xs;
    } else {
      var zs := xs + ys;
      assert zs[..|zs| - 1] == xs + ys[..|ys| - 1];
      SplitConcat(xs, ys[..|ys| - 1]);
    }
  }

  lemma {:induction false} SplitHere(ops: seq<Op>)
    ensures HereOps(AllHere(ops)) == ops && ThereOps(AllHere(ops)) == []
  {
    if ops != [] {
      var init := ops[..|ops| - 1];
      assert AllHere(ops)[..|ops| - 1] == AllHere(init);
      SplitHere(init);
    }
  }

  lemma {:induction false} SplitThere(ops: seq<Op>)
    ensures HereOps(AllThere(ops)) == [] && ThereOps(AllThere(ops)) == ops
  {
    if ops != [] {
      var init := ops[..|ops| - 1];
      assert AllThere(ops)[..|ops| - 1] == AllThere(init);
      SplitThere(init);
    }
  }

  lemma {:induction false} SplitRepair(kv: Kv, id: string, d: LogData)
    ensures HereOps(RepairOne(kv, id, d)) == RepairHere(d, CommittedIn(kv, id))
    ensures ThereOps(RepairOne(kv, id, d)) == RepairThere(id, d, CommittedIn(kv, id))
  {
    var a, b := RepairHere(d, CommittedIn(kv, id)), RepairThere(id, d, CommittedIn(kv, id));
    SplitConcat(AllHere(a), AllThere(b));
    SplitHere(a);
    SplitThere(b);
  }

  /** The two histories determine both states, whatever their interleaving. */
  lemma {:induction false} ExecBothSplits(s: Pair, xs: seq<SysOp>)
    ensures ExecBoth(s, xs) == Pair(Exec(s.self, HereOps(xs)), Exec(s.peer, ThereOps(xs)))
  {
    if xs != [] {
      var init, last := xs[..|xs| - 1], xs[|xs| - 1];
      ExecBothSplits(s, init);
      if last.Here? {
        ExecAppend(s.self, HereOps(init), last.op);
        assert ThereOps(xs) == ThereOps(init);
      } else {
        ExecAppend(s.peer, ThereOps(init), last.op);
        assert HereOps(xs) == HereOps(init);
      }
    }
  }

  lemma {:induction false} KvAfterMoves(n: Node, names: seq<string>, k: nat)
    requires k <= |names|
    ensures Exec(n, MoveOps(names)[..k]).kv == n.kv && Exec(n, MoveOps(names)[..k]).log == n.log
  {
    if k > 0 {
      LastMove(n, names, k);
      KvAfterMoves(n, names, k - 1);
    }
  }

  lemma {:induction false} KvAfterCommit(n: Node, id: string, names: seq<string>)
    ensures Exec(n, CommitOps(id, names)).kv == n.kv - {id}
  {
    var moves := MoveOps(names);
    assert moves[..|names|] == moves;
    KvAfterMoves(n, names, |names|);
    assert CommitOps(id, names) == moves + [Append(Commit(id))] + [KvDrop(id)];
    ExecAppend(n, moves, Append(Commit(id)));
    ExecAppend(n, moves + [Append(Commit(id))], KvDrop(id));
  }

  // ----- The code -----

  method DeleteFiles(self: Server, files: seq<string>)
    requires self.Valid()
    modifies self
    ensures self.Performed(old(self.State()), old(self.trace), seq(|files|, i requires 0 <= i < |files| => Delete(files[i])))
  {
    ghost var ops := seq(|files|, i requires 0 <= i < |files| => Delete(files[i]));
    for i := 0 to |files|
      invariant self.Valid() && self.trace == old(self.trace) + ops[..i]
    {
      self.Remove(files[i]);
      assert ops[..i + 1] == ops[..i] + [ops[i]];
    }
    assert ops[..|files|] == ops;
    self.Performing(old(self.State()), old(self.trace), ops);
  }

  method DeleteTempAndUndoFiles(self: Server, names: seq<string>)
    requires self.Valid()
    modifies self
    ensures self.Performed(old(self.State()), old(self.trace), DeleteLeftovers(names))
  {
    var filesToDelete: seq<string> := [];
    for i := 0 to |names|
      invariant |filesToDelete| == i && forall j :: 0 <= j < i ==> filesToDelete[j] == LeftoverOf(names, j)
    {
      if i % 2 == 0 {
        filesToDelete := filesToDelete + [names[i]];
      } else {
        filesToDelete := filesToDelete + [Undo(names[i])];
      }
    }
    assert DeleteLeftovers(names)
        == seq(|filesToDelete|, i requires 0 <= i < |filesToDelete| => Delete(filesToDelete[i]));
    DeleteFiles(self, filesToDelete);
  }

  lemma {:induction false} OneMoreUndo(names: seq<string>, i: nat)
    requires i < |names|
    ensures DeleteUndos(names[..i + 1])
            == if i % 2 != 0 then DeleteUndos(names[..i]) + [Delete(Undo(names[i]))] else DeleteUndos(names[..i])
  {
    assert names[..i + 1][..i] == names[..i];
  }

  method DeleteUndoFiles(self: Server, names: seq<string>)
    requires self.Valid()
    modifies self
    ensures self.Performed(old(self.State()), old(self.trace), DeleteUndos(names))
  {
    ghost var before, past := self.State(), self.trace;
    assert DeleteUndos(names[..0]) == [] && past + [] == past;
    hide DeleteUndos, Exec, Text, LogLines;
    for i := 0 to |names|
      invariant self.Valid() && self.trace == past + DeleteUndos(names[..i])
    {
      OneMoreUndo(names, i);
      if i % 2 != 0 {
        self.Remove(Undo(names[i]));
      }
    }
    assert names[..|names|] == names;
    self.Performing(before, past, DeleteUndos(names));
  }

  method ExecuteTransactionAbortRecovery(self: Server, names: seq<string>)
    requires self.Valid()
    modifies self
    ensures self.Performed(old(self.State()), old(self.trace), UndoMoves(names) + DeleteLeftovers(names))
  {
    ghost var before, past := self.State(), self.trace;
    for i := 0 to |names|
      invariant self.Valid() && self.trace == past + UndoMoves(names)[..i]
    {
      self.Rename(Undo(names[i]), names[i]);
      assert UndoMoves(names)[..i + 1] == UndoMoves(names)[..i] + [UndoMoves(names)[i]];
    }
    assert UndoMoves(names)[..|names|] == UndoMoves(names);
    self.Performing(before, past, UndoMoves(names));
    DeleteTempAndUndoFiles(self, names);
    self.PerformedMore(before, past, UndoMoves(names), DeleteLeftovers(names));
  }

  ghost predicate Separate(self: Server, peer: Server) {
    self != peer && self.wal != peer.wal && self.kv != peer.kv
  }

  /** The body of the loop over the parsed log; false where the source returns -1. */
  method Repair(self: Server, peer: Server, id: string, d: LogData) returns (ok: bool)
    requires Separate(self, peer) && self.Valid() && peer.Valid()
    modifies self, peer, peer.wal, peer.kv
    ensures ok == (d.state != PENDING_REPLICATION)
    ensures ok ==> self.Performed(old(self.State()), old(self.trace), RepairHere(d, CommittedIn(old(peer.kv.store), id)))
    ensures ok ==> peer.Performed(old(peer.State()), old(peer.trace), RepairThere(id, d, CommittedIn(old(peer.kv.store), id)))
  {
    self.Performing(self.State(), self.trace, []);
    peer.Performing(peer.State(), peer.trace, []);
    match d.state {
      case START =>
        DeleteTempAndUndoFiles(self, d.names);
      case ABORT =>
        ExecuteTransactionAbortRecovery(self, d.names);
      case RPC_INIT =>
        var known, state := peer.GetTransactionState(id);
        if !(known && state == COMMIT) {
          peer.Commit(id, d.names);
        } else {
          DeleteUndoFiles(self, d.names);
        }
      case COMMIT =>
        DeleteUndoFiles(self, d.names);
      case PENDING_REPLICATION =>
        return false;
    }
    ok := true;
  }

  method WriteData(self: Server, path: string, content: Bytes, size: nat, off: nat, beyond: Bytes)
    requires self.Valid()
    modifies self
    ensures var op := PWrite(path, InMemory(content, size, beyond), off);
            && self.Valid() && self.trace == old(self.trace) + [op]
            && self.State() == Apply(old(self.State()), op)
  {
    self.PositionalWrite(path, InMemory(content, size, beyond), off);
  }

  /** Steps 1 and 2 of `ApplyPendingWrites`: which transactions to ask for, and what the log map becomes. */
  method PrunePending(logMap: LogMap, ids: seq<string>) returns (requested: seq<string>, marked: LogMap)
    requires forall i, j :: 0 <= i < j < |ids| ==> ids[i] != ids[j]
    ensures requested == Requested(logMap, ids) && marked == Marked(logMap, ids)
  {
    requested, marked := [], logMap;
    for i := 0 to |ids|
      invariant requested == Requested(logMap, ids[..i]) && marked == Marked(logMap, ids[..i])
    {
      assert ids[..i + 1][..i] == ids[..i];
      assert ids[i] !in ids[..i];
      if (ids[i] in marked && marked[ids[i]].state != COMMIT) || ids[i] !in marked {
        requested := requested + [ids[i]];
        if ids[i] in marked {
          marked := marked[ids[i] := marked[ids[i]].(state := COMMIT)];
        }
      }
    }
    assert ids[..|ids|] == ids;
  }

  /** Step 3: write every streamed chunk in place. */
  method ApplyStream(self: Server, stream: seq<Chunk>, beyond: nat -> Bytes)
    requires self.Valid()
    modifies self
    ensures self.Performed(old(self.State()), old(self.trace), Patches(stream, beyond))
  {
    ghost var ops := Patches(stream, beyond);
    for i := 0 to |stream|
      invariant self.Valid() && self.trace == old(self.trace) + ops[..i]
    {
      WriteData(self, stream[i].path, stream[i].content, stream[i].size, stream[i].off, beyond(i));
      assert ops[..i + 1] == ops[..i] + [ops[i]];
    }
    assert ops[..|stream|] == ops;
    self.Performing(old(self.State()), old(self.trace), ops);
  }

  /** What `GetData` reads behind its buffer never reaches a file: only `size` bytes of the content are written. */
  lemma {:induction false} OverreadIsCutOff(w: Bytes, behind: Bytes, beyond: Bytes)
    ensures InMemory(CString(w + behind), |w|, beyond) == InMemory(CString(w), |w|, beyond)
  {
    CStringConcat(w, behind);
    CStringWhole(w);
  }

  lemma {:induction false} SamePatchesSent(stream: seq<Chunk>, clean: seq<Chunk>, d: Disk, behind: nat -> Bytes, beyond: nat -> Bytes)
    requires SentAs(stream, clean, d, behind)
    requires forall j :: 0 <= j < |clean| ==> clean[j].content == DataOf(d, clean[j].path, clean[j].size, clean[j].off)
    ensures Patches(stream, beyond) == Patches(clean, beyond)
  {
    hide CString, InMemory;
    forall j | 0 <= j < |clean|
      ensures InMemory(stream[j].content, clean[j].size, beyond(j)) == InMemory(clean[j].content, clean[j].size, beyond(j))
    {
      var c := clean[j];
      if c.path in d {
        OverreadIsCutOff(Window(d[c.path], c.off, c.size), behind(j), beyond(j));
      }
    }
  }

  lemma {:induction false} StreamIsData(d: Disk, kv: Kv, requested: seq<string>)
    ensures var clean := StreamOf(d, kv, requested);
            forall j :: 0 <= j < |clean| ==> clean[j].content == DataOf(d, clean[j].path, clean[j].size, clean[j].off)
  {
  }

  /** `behind` is what lies behind the buffers of the sending server, `beyond` behind the contents received. */
  method ApplyPendingWrites(self: Server, peer: Server, logMap: LogMap, behind: nat -> Bytes, beyond: nat -> Bytes)
    returns (marked: LogMap, ghost ids: seq<string>)
    requires Separate(self, peer) && self.Valid() && peer.Valid() && KvShape(peer.kv.store)
    modifies self, peer.kv
    ensures peer.Valid() && peer.State() == old(peer.State()) && peer.trace == old(peer.trace)
    ensures Lists(ids, PendingIds(peer.kv.store)) && marked == Marked(logMap, ids)
    ensures self.Performed(old(self.State()), old(self.trace), PullOps(logMap, peer.State(), ids, beyond))
  {
    hide Exec, Text, LogLines, Patches, StreamOf, Marked, SentAs;
    var pending := peer.GetPendingReplicationTransactions();
    var requested: seq<string>;
    requested, marked := PrunePending(logMap, pending);
    var stream := peer.ForcePendingWrites(requested, behind);
    StreamIsData(peer.disk, peer.kv.store, requested);
    SamePatchesSent(stream, StreamOf(peer.disk, peer.kv.store, requested), peer.disk, behind, beyond);
    ApplyStream(self, stream, beyond);
    ids := pending;
  }

  /** One turn of the loop over the parsed log. */
  method RepairNext(self: Server, peer: Server, logMap: LogMap, id: string, ghost order: seq<string>,
                    ghost s: Pair, ghost past: seq<Op>, ghost peerPast: seq<Op>)
    requires Separate(self, peer) && FourStates(logMap) && id in logMap
    requires CommittedIn(peer.kv.store, id) == CommittedIn(s.peer.kv, id)
    requires self.Performed(s.self, past, HereOps(RepairAll(s.peer.kv, logMap, order)))
    requires peer.Performed(s.peer, peerPast, ThereOps(RepairAll(s.peer.kv, logMap, order)))
    modifies self, peer, peer.wal, peer.kv
    ensures self.Performed(s.self, past, HereOps(RepairAll(s.peer.kv, logMap, order + [id])))
    ensures peer.Performed(s.peer, peerPast, ThereOps(RepairAll(s.peer.kv, logMap, order + [id])))
    ensures forall other :: other != id ==>
              CommittedIn(peer.kv.store, other) == CommittedIn(old(peer.kv.store), other)
  {
    ghost var d, committed, atPeer := logMap[id], CommittedIn(s.peer.kv, id), peer.State();
    OneMoreRepair(s.peer.kv, logMap, order, id);
    KvAfterRepair(atPeer, id, d, committed);
    hide Exec, RepairAll, HereOps, ThereOps, RepairHere, RepairThere, Text, LogLines, CommitOps, CommittedIn;
    ghost var here, there := HereOps(RepairAll(s.peer.kv, logMap, order)), ThereOps(RepairAll(s.peer.kv, logMap, order));
    var ok := Repair(self, peer, id, logMap[id]);
    if !ok {
      assert false;
    }
    self.PerformedMore(s.self, past, here, RepairHere(d, committed));
    peer.PerformedMore(s.peer, peerPast, there, RepairThere(id, d, committed));
  }

  lemma {:induction false} KvAfterRepair(n: Node, id: string, d: LogData, committed: bool)
    ensures forall other :: other != id ==>
              CommittedIn(Exec(n, RepairThere(id, d, committed)).kv, other) == CommittedIn(n.kv, other)
  {
    KvAfterCommit(n, id, d.names);
    ExecNothing(n, []);
  }

  /** Steps after the pull: repair every parsed transaction, in whatever order the map yields them. */
  method RepairLoop(self: Server, peer: Server, logMap: LogMap) returns (ghost order: seq<string>)
    requires Separate(self, peer) && self.Valid() && peer.Valid() && FourStates(logMap)
    modifies self, peer, peer.wal, peer.kv
    ensures Lists(order, logMap.Keys)
    ensures self.Performed(old(self.State()), old(self.trace), HereOps(RepairAll(old(peer.kv.store), logMap, order)))
    ensures peer.Performed(old(peer.State()), old(peer.trace), ThereOps(RepairAll(old(peer.kv.store), logMap, order)))
  {
    ghost var s, past, peerPast := Pair(self.State(), peer.State()), self.trace, peer.trace;
    order := [];
    self.Performing(s.self, past, HereOps(RepairAll(s.peer.kv, logMap, [])));
    peer.Performing(s.peer, peerPast, ThereOps(RepairAll(s.peer.kv, logMap, [])));
    var rest := logMap.Keys;
    assert Lists([], logMap.Keys - rest);
    hide Exec, RepairAll, HereOps, ThereOps, Lists, Text, LogLines, CommittedIn;
    while rest != {}
      invariant rest <= logMap.Keys && Lists(order, logMap.Keys - rest)
      invariant self.Performed(s.self, past, HereOps(RepairAll(s.peer.kv, logMap, order)))
      invariant peer.Performed(s.peer, peerPast, ThereOps(RepairAll(s.peer.kv, logMap, order)))
      invariant forall id :: id in rest ==> CommittedIn(peer.kv.store, id) == CommittedIn(s.peer.kv, id)
      decreases rest
    {
      var id :| id in rest;
      RepairNext(self, peer, logMap, id, order, s, past, peerPast);
      ListsMore(order, logMap.Keys, rest, id);
      order := order + [id];
      rest := rest - {id};
    }
    assert logMap.Keys - rest == logMap.Keys;
  }

  lemma {:induction false} ListsMore(order: seq<string>, keys: set<string>, rest: set<string>, id: string)
    requires Lists(order, keys - rest) && id in rest && rest <= keys
    ensures Lists(order + [id], keys - (rest - {id}))
  {
  }

  lemma {:induction false} OneMoreRepair(kv: Kv, m: LogMap, order: seq<string>, id: string)
    requires id in m
    ensures RepairAll(kv, m, order + [id]) == RepairAll(kv, m, order) + RepairOne(kv, id, m[id])
    ensures HereOps(RepairAll(kv, m, order + [id]))
            == HereOps(RepairAll(kv, m, order)) + RepairHere(m[id], CommittedIn(kv, id))
    ensures ThereOps(RepairAll(kv, m, order + [id]))
            == ThereOps(RepairAll(kv, m, order)) + RepairThere(id, m[id], CommittedIn(kv, id))
  {
    assert (order + [id])[..|order|] == order;
    SplitConcat(RepairAll(kv, m, order), RepairOne(kv, id, m[id]));
    SplitRepair(kv, id, m[id]);
  }

  /** Steps 2 and 3 of `Recover`. */
  method PullAndRepair(self: Server, peer: Server, logMap: LogMap, behind: nat -> Bytes, beyond: nat -> Bytes)
    returns (ghost ids: seq<string>, ghost order: seq<string>)
    requires Separate(self, peer) && self.Valid() && peer.Valid() && KvShape(peer.kv.store) && FourStates(logMap)
    modifies self, peer, peer.wal, peer.kv
    ensures Lists(ids, PendingIds(old(peer.kv.store))) && Lists(order, logMap.Keys)
    ensures var xs := RepairSteps(logMap, old(peer.State()), ids, order, beyond);
            && self.Performed(old(self.State()), old(self.trace), HereOps(xs))
            && peer.Performed(old(peer.State()), old(peer.trace), ThereOps(xs))
  {
    ghost var before, past, peerBefore := self.State(), self.trace, peer.State();
    hide Exec, RepairAll, HereOps, ThereOps, PullOps, Marked, Text, LogLines, FourStates;
    var marked: LogMap;
    marked, ids := ApplyPendingWrites(self, peer, logMap, behind, beyond);
    MarkedStates(logMap, ids);
    order := RepairLoop(self, peer, marked);
    ghost var pull, repair := PullOps(logMap, peerBefore, ids, beyond), RepairAll(peerBefore.kv, marked, order);
    SplitSteps(pull, repair);
    self.PerformedMore(before, past, pull, HereOps(repair));
  }

  /** `CrashRecovery::Recover`, for every text the log may hold: it always returns 0. */
  method Recover(self: Server, peer: Server, behind: nat -> Bytes, beyond: nat -> Bytes)
    returns (rc: int, ghost ids: seq<string>, ghost order: seq<string>)
    requires Separate(self, peer) && self.Valid() && peer.Valid() && KvShape(peer.kv.store)
    modifies self, self.wal, peer, peer.wal, peer.kv
    ensures rc == 0
    ensures var m := LoadMore(map[], TextLines(old(self.wal.text)));
            && Lists(ids, PendingIds(old(peer.kv.store))) && Lists(order, m.Keys)
            && var xs := RecoverOps(m, old(peer.State()), ids, order, beyond);
               && self.Performed(old(self.State()), old(self.trace), HereOps(xs))
               && peer.Performed(old(peer.State()), old(peer.trace), ThereOps(xs))
  {
    ghost var before, past, peerBefore := self.State(), self.trace, peer.State();
    hide Exec, HereOps, ThereOps, RepairSteps, Text, LogLines, TextLines, LoadMore, Lists, FourStates;
    var logMap := LoadData(self.wal.text);
    ParsedStates(TextLines(self.wal.text));
    ids, order := PullAndRepair(self, peer, logMap, behind, beyond);
    Cleanup(self, before, past, RepairSteps(logMap, peerBefore, ids, order, beyond));
    SplitLast(RepairSteps(logMap, peerBefore, ids, order, beyond), TruncateLog);
    rc := 0;
  }

  method Cleanup(self: Server, ghost before: Node, ghost past: seq<Op>, ghost xs: seq<SysOp>)
    requires self.Performed(before, past, HereOps(xs))
    modifies self`trace, self.wal
    ensures self.Performed(before, past, HereOps(xs + [Here(TruncateLog)]))
  {
    self.TruncateWal();
    SplitLast(xs, TruncateLog);
    ExecAppend(before, HereOps(xs), TruncateLog);
    assert self.trace == past + (HereOps(xs) + [TruncateLog]);
  }

  lemma {:induction false} MarkedStates(m: LogMap, ids: seq<string>)
    requires FourStates(m)
    ensures FourStates(Marked(m, ids))
  {
  }

  lemma {:induction false} SplitSteps(pull: seq<Op>, repair: seq<SysOp>)
    ensures HereOps(AllHere(pull) + repair) == pull + HereOps(repair)
    ensures ThereOps(AllHere(pull) + repair) == ThereOps(repair)
  {
    SplitConcat(AllHere(pull), repair);
    SplitHere(pull);
  }

  lemma {:induction false} SplitLast(xs: seq<SysOp>, last: Op)
    ensures HereOps(xs + [Here(last)]) == HereOps(xs) + [last]
    ensures ThereOps(xs + [Here(last)]) == ThereOps(xs)
  {
  }
}
