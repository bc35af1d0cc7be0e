/** What recovery's repairs leave of a block's own file, its temp file and its undo file, on any disk. */
module RecoveryEffects {
  import opened Decimal
  import opened Storage
  import opened WriteAheadLog
  import opened LogParser
  import opened KeyValueStore
  import opened Nodes
  import opened Effects
  import opened CrashAtomicity
  import opened BlockServer
  import opened Recovery
  import opened RecoverySafety
  import opened PrimaryRecovery
  import opened Divergence
  import opened CatchUp
  import opened Idempotence

  // ----- Names -----

  /** The six kinds of paths around two blocks are all different. */
  lemma {:induction false} PathsApart(p: string, q: string)
    requires IsBlockName(p)
    ensures Undo(q) != p && Undo(q) != Tmp(p) && Tmp(p) != p && Undo(p) != p
    ensures Tmp(q) == Tmp(p) ==> q == p
    ensures Undo(q) == Undo(p) ==> q == p
  {
    TmpIsNotABlock(q);
    TmpIsNotABlock(p);
    assert Undo(q)[|Undo(q)| - 1] == 'o' && Tmp(p)[|Tmp(p)| - 1] == 'p';
    if Tmp(q) == Tmp(p) {
      TmpInjective(q, p);
    }
    if Undo(q) == Undo(p) {
      assert q == Undo(q)[..|Undo(q)| - 5] && p == Undo(p)[..|Undo(p)| - 5];
    }
  }

  /** Names of a log: a block's temp file stands in front of it. */
  lemma {:induction false} BlockAndTemp(names: seq<string>, p: string)
    requires NamesOk(names) && IsBlockName(p)
    ensures p in names <==> exists i :: 0 <= i < |names| && i % 2 != 0 && names[i] == p
    ensures p in names <==> exists i :: 0 <= i < |names| && i % 2 == 0 && names[i] == Tmp(p)
    ensures p in names <==> Tmp(p) in names
  {
    TmpIsNotABlock(p);
    if i :| 0 <= i < |names| && names[i] == p {
      assert NameOk(names, i);
      if i % 2 == 0 {
        if IsId(names[i]) {
          IdIsClean(names[i]);
        } else {
          TmpIsNotABlock(names[i + 1]);
        }
        assert false;
      }
      assert NameOk(names, i - 1);
      if IsId(names[i - 1]) && names[i] == STATE_PENDING_REPLICATION {
        PendingIsNoBlock();
        assert false;
      }
      assert names[i - 1] == Tmp(p);
    }
    if i :| 0 <= i < |names| && names[i] == Tmp(p) {
      assert NameOk(names, i);
      TempIsNoMark(p);
      if i % 2 == 0 {
        if IsId(names[i]) {
          assert false;
        }
        TmpInjective(names[i + 1], p);
      }
    }
  }

  lemma {:induction false} PendingIsNoBlock()
    ensures !IsBlockName(STATE_PENDING_REPLICATION)
  {
  }

  lemma {:induction false} TempIsNoMark(p: string)
    ensures Tmp(p) != STATE_PENDING_REPLICATION && !IsId(Tmp(p))
  {
    assert Tmp(p)[|Tmp(p)| - 1] == 'p';
    assert STATE_PENDING_REPLICATION[|STATE_PENDING_REPLICATION| - 1] == 'N';
    assert !IsDigit(Tmp(p)[|Tmp(p)| - 1]);
  }

  lemma {:induction false} NamesAreNotUndos(names: seq<string>, i: nat, q: string)
    requires NamesOk(names) && i < |names|
    ensures names[i] != Undo(q)
  {
    NamesAreCreatable(names);
    CreatableIsSane(names[i], q);
  }

  // ----- Deletions and undo renames, one path at a time -----

  ghost predicate OnlyDeletes(ops: seq<Op>) {
    forall i :: 0 <= i < |ops| ==> ops[i].Delete?
  }

  lemma {:induction false} DeletesExactly(n: Node, ops: seq<Op>, x: string)
    requires OnlyDeletes(ops)
    ensures var e := Exec(n, ops).disk;
            (x in e <==> x in n.disk && Delete(x) !in ops) && (x in e ==> e[x] == n.disk[x])
  {
    if ops != [] {
      var init, op := ops[..|ops| - 1], ops[|ops| - 1];
      DeletesExactly(n, init, x);
      assert ops == init + [op];
    }
  }

  lemma {:induction false} UndoStep(n: Node, y: string, p: string)
    requires IsBlockName(p) && y != Undo(p) && y != Undo(y)
    ensures var e := Apply(n, Move(Undo(y), y)).disk;
            && (y == p && Undo(p) in n.disk ==> p in e && e[p] == n.disk[Undo(p)] && Undo(p) !in e)
            && (y != p || Undo(p) !in n.disk ==> SameAt(e, n.disk, p) && SameAt(e, n.disk, Undo(p)))
            && (y != Tmp(p) ==> SameAt(e, n.disk, Tmp(p)))
  {
    PathsApart(p, y);
    hide Undo, Tmp, IsBlockName;
  }

  lemma {:induction false} NotItsUndo(y: string)
    ensures y != Undo(y)
  {
    assert |Undo(y)| == |y| + 5;
  }

  /** Undo files are moved back over their blocks. */
  ghost predicate Undone(d: Disk, e: Disk, names: seq<string>, k: nat, p: string)
    requires k <= |names|
  {
    && (p in names[..k] && Undo(p) in d ==> p in e && e[p] == d[Undo(p)] && Undo(p) !in e)
    && (!(p in names[..k] && Undo(p) in d) ==> SameAt(e, d, p) && SameAt(e, d, Undo(p)))
    && (p !in names ==> SameAt(e, d, Tmp(p)))
  }

  lemma {:induction false} UndoneOneMore(n: Node, d: Disk, names: seq<string>, k: nat, p: string)
    requires 0 < k <= |names| && IsBlockName(p) && Undone(d, n.disk, names, k - 1, p)
    requires names[k - 1] != Undo(p) && (p in names <==> Tmp(p) in names)
    ensures Undone(d, Apply(n, Move(Undo(names[k - 1]), names[k - 1])).disk, names, k, p)
  {
    var y := names[k - 1];
    NotItsUndo(y);
    UndoStep(n, y, p);
    assert names[..k] == names[..k - 1] + [y] && y in names;
    hide Undo, Tmp, IsBlockName, Apply;
  }

  lemma {:induction false} UndoneExactly(n: Node, names: seq<string>, k: nat, p: string)
    requires NamesOk(names) && k <= |names| && IsBlockName(p)
    ensures Undone(n.disk, Exec(n, UndoMoves(names)[..k]).disk, names, k, p)
  {
    if k > 0 {
      var moves, y := UndoMoves(names), names[k - 1];
      assert moves[..k] == moves[..k - 1] + [Move(Undo(y), y)];
      BlockAndTemp(names, p);
      NamesAreNotUndos(names, k - 1, p);
      hide Exec, UndoMoves, NamesOk, Undo, Tmp, Undone, IsBlockName;
      UndoneExactly(n, names, k - 1, p);
      ExecAppend(n, moves[..k - 1], Move(Undo(y), y));
      UndoneOneMore(Exec(n, moves[..k - 1]), n.disk, names, k, p);
    } else {
      assert UndoMoves(names)[..0] == [] && names[..0] == [];
    }
  }

  // ----- A block that a transaction names, by the transaction's state -----

  /** The block's own file, its temp file and its undo file are all as they were. */
  ghost predicate LeftAlone(d: Disk, e: Disk, p: string) {
    SameAt(e, d, p) && SameAt(e, d, Tmp(p)) && SameAt(e, d, Undo(p))
  }

  lemma {:induction false} LeftoversDeleted(names: seq<string>, p: string)
    requires NamesOk(names) && IsBlockName(p)
    ensures OnlyDeletes(DeleteLeftovers(names)) && Delete(p) !in DeleteLeftovers(names)
    ensures Delete(Tmp(p)) in DeleteLeftovers(names) <==> p in names
    ensures Delete(Undo(p)) in DeleteLeftovers(names) <==> p in names
  {
    var ops := DeleteLeftovers(names);
    BlockAndTemp(names, p);
    forall i | 0 <= i < |ops|
      ensures ops[i] == Delete(if i % 2 == 0 then names[i] else Undo(names[i]))
      ensures ops[i] != Delete(p)
      ensures ops[i] == Delete(Tmp(p)) ==> i % 2 == 0
      ensures ops[i] == Delete(Undo(p)) ==> i % 2 != 0 && names[i] == p
    {
      LeftoverIs(names, i, p);
    }
    if i :| 0 <= i < |names| && i % 2 == 0 && names[i] == Tmp(p) {
      assert ops[i] == Delete(Tmp(p));
    }
    if i :| 0 <= i < |names| && i % 2 != 0 && names[i] == p {
      assert ops[i] == Delete(Undo(p));
    }
  }

  lemma {:induction false} LeftoverIs(names: seq<string>, i: nat, p: string)
    requires NamesOk(names) && i < |names| && IsBlockName(p)
    ensures DeleteLeftovers(names)[i] == Delete(if i % 2 == 0 then names[i] else Undo(names[i]))
    ensures DeleteLeftovers(names)[i] != Delete(p)
    ensures DeleteLeftovers(names)[i] == Delete(Tmp(p)) ==> i % 2 == 0
    ensures DeleteLeftovers(names)[i] == Delete(Undo(p)) ==> i % 2 != 0 && names[i] == p
  {
    PathsApart(p, names[i]);
    NamesAreNotUndos(names, i, p);
    assert NameOk(names, i);
    LeftoverIsSafe(names, i);
  }

  lemma {:induction false} UndosDeleted(names: seq<string>, p: string)
    requires NamesOk(names) && IsBlockName(p)
    ensures OnlyDeletes(DeleteUndos(names)) && Delete(p) !in DeleteUndos(names) && Delete(Tmp(p)) !in DeleteUndos(names)
    ensures Delete(Undo(p)) in DeleteUndos(names) <==> p in names
  {
    UndosOfPrefix(names, |names|, p);
    BlockAndTemp(names, p);
    assert names[..|names|] == names;
  }

  lemma {:induction false} UndosOfPrefix(names: seq<string>, k: nat, p: string)
    requires k <= |names| && IsBlockName(p)
    ensures var ops := DeleteUndos(names[..k]);
            && OnlyDeletes(ops) && Delete(p) !in ops && Delete(Tmp(p)) !in ops
            && (Delete(Undo(p)) in ops <==> exists i :: 0 <= i < k && i % 2 != 0 && names[i] == p)
  {
    if k > 0 {
      UndosOfPrefix(names, k - 1, p);
      assert names[..k][..k - 1] == names[..k - 1];
      PathsApart(p, names[k - 1]);
    }
  }

  lemma {:induction false} RepairOfStart(n: Node, names: seq<string>, committed: bool, p: string)
    requires NamesOk(names) && IsBlockName(p)
    ensures var e := Exec(n, RepairHere(LogData(START, names), committed)).disk;
            if p in names then SameAt(e, n.disk, p) && Tmp(p) !in e && Undo(p) !in e else LeftAlone(n.disk, e, p)
  {
    var ops := DeleteLeftovers(names);
    LeftoversDeleted(names, p);
    hide DeleteLeftovers, NamesOk, Exec, Tmp, Undo;
    DeletesExactly(n, ops, p);
    DeletesExactly(n, ops, Tmp(p));
    DeletesExactly(n, ops, Undo(p));
  }

  lemma {:induction false} RepairOfAbort(n: Node, names: seq<string>, committed: bool, p: string)
    requires NamesOk(names) && IsBlockName(p)
    ensures var e := Exec(n, RepairHere(LogData(ABORT, names), committed)).disk;
            if p !in names then LeftAlone(n.disk, e, p)
            else
              && (Undo(p) in n.disk ==> p in e && e[p] == n.disk[Undo(p)])
              && (Undo(p) !in n.disk ==> SameAt(e, n.disk, p))
              && Tmp(p) !in e && Undo(p) !in e
  {
    var moves, ops := UndoMoves(names), DeleteLeftovers(names);
    var n1 := Exec(n, moves);
    UndoneExactly(n, names, |names|, p);
    assert moves[..|names|] == moves && names[..|names|] == names;
    LeftoversDeleted(names, p);
    hide DeleteLeftovers, UndoMoves, NamesOk, Exec, Tmp, Undo;
    ExecConcat(n, moves, ops);
    DeletesExactly(n1, ops, p);
    DeletesExactly(n1, ops, Tmp(p));
    DeletesExactly(n1, ops, Undo(p));
  }

  lemma {:induction false} RepairOfCommit(n: Node, d: LogData, committed: bool, p: string)
    requires NamesOk(d.names) && IsBlockName(p) && (d.state == COMMIT || (d.state == RPC_INIT && committed))
    ensures var e := Exec(n, RepairHere(d, committed)).disk;
            && SameAt(e, n.disk, p) && SameAt(e, n.disk, Tmp(p))
            && if p in d.names then Undo(p) !in e else SameAt(e, n.disk, Undo(p))
  {
    var ops := DeleteUndos(d.names);
    UndosDeleted(d.names, p);
    hide DeleteUndos, NamesOk, Exec, Tmp, Undo;
    DeletesExactly(n, ops, p);
    DeletesExactly(n, ops, Tmp(p));
    DeletesExactly(n, ops, Undo(p));
  }

  /** An unfinished replication changes nothing here unless the other server's table says COMMIT, and only then sends
      nothing. */
  lemma {:induction false} RepairOfReplication(kv: Kv, id: string, names: seq<string>)
    ensures var d, committed := LogData(RPC_INIT, names), id in kv && kv[id].state == COMMIT;
            && CommittedIn(kv, id) == committed
            && (!committed ==> RepairHere(d, committed) == [])
            && (committed ==> RepairThere(id, d, committed) == [])
            && (!committed ==>
                  var ops := RepairThere(id, d, committed);
                  && |ops| == |names| + 2 && (forall i :: 0 <= i < |names| ==> ops[i] == Move(Tmp(names[i]), names[i]))
                  && ops[|names|] == Append(Commit(id)) && ops[|names| + 1] == KvDrop(id))
  {
  }

  // ----- A complete recovery -----

  /** The log, once pending transactions count as committed, leaves the transaction not replicated. */
  ghost predicate Abandoned(m: LogMap, ids: seq<string>, p: string) {
    exists id :: id in m && id !in ids && (m[id].state == START || m[id].state == ABORT) && p in m[id].names
  }

  ghost predicate AbandonedBy(m: LogMap, order: seq<string>, p: string) {
    exists id :: id in order && id in m && (m[id].state == START || m[id].state == ABORT) && p in m[id].names
  }

  ghost predicate DeletesPath(ops: seq<Op>, x: string) {
    Delete(x) in ops
  }

  /** Without undo files repairs are deletions. */
  lemma {:induction false} SafeRepairsAt(n: Node, ops: seq<Op>, p: string)
    requires AllSafe(ops) && NoUndos(n.disk) && IsBlockName(p)
    ensures var e := Exec(n, ops).disk;
            NoUndos(e) && if DeletesPath(ops, Tmp(p)) then Tmp(p) !in e else SameAt(e, n.disk, Tmp(p))
  {
    if ops != [] {
      var init, op := ops[..|ops| - 1], ops[|ops| - 1];
      SafeRepairsAt(n, init, p);
      assert ops == init + [op] && SafeRepair(op);
    }
  }

  lemma {:induction false} DeletesConcat(a: seq<Op>, b: seq<Op>, x: string)
    ensures DeletesPath(a + b, x) <==> DeletesPath(a, x) || DeletesPath(b, x)
  {
  }

  lemma {:induction false} DeletesOfRepair(d: LogData, committed: bool, p: string)
    requires NamesOk(d.names) && IsBlockName(p)
    ensures DeletesPath(RepairHere(d, committed), Tmp(p)) <==> (d.state == START || d.state == ABORT) && p in d.names
  {
    LeftoversDeleted(d.names, p);
    UndosDeleted(d.names, p);
    hide DeleteLeftovers, DeleteUndos, NamesOk, Tmp;
    DeletesConcat(UndoMoves(d.names), DeleteLeftovers(d.names), Tmp(p));
    assert forall i :: 0 <= i < |d.names| ==> UndoMoves(d.names)[i].Move?;
  }

  lemma {:induction false} AbandonedOneMore(m: LogMap, order: seq<string>, p: string)
    requires order != []
    ensures var id := order[|order| - 1];
            AbandonedBy(m, order, p)
            <==> AbandonedBy(m, order[..|order| - 1], p)
                 || (id in m && (m[id].state == START || m[id].state == ABORT) && p in m[id].names)
  {
    assert order == order[..|order| - 1] + [order[|order| - 1]];
  }

  lemma {:induction false} DeletesOfAll(kv: Kv, m: LogMap, order: seq<string>, p: string)
    requires MapOk(m) && IsBlockName(p)
    ensures DeletesPath(HereOps(RepairAll(kv, m, order)), Tmp(p)) <==> AbandonedBy(m, order, p)
  {
    hide RepairHere, RepairThere, NamesOk, CommittedIn, DeletesPath, AbandonedBy, Tmp;
    if order == [] {
      NothingDeleted(kv, m, p);
    } else {
      var init, id := order[..|order| - 1], order[|order| - 1];
      DeletesOfAll(kv, m, init, p);
      AbandonedOneMore(m, order, p);
      assert init + [id] == order;
      if id in m {
        OneMoreRepair(kv, m, init, id);
        DeletesOfRepair(m[id], CommittedIn(kv, id), p);
        DeletesConcat(HereOps(RepairAll(kv, m, init)), RepairHere(m[id], CommittedIn(kv, id)), Tmp(p));
      } else {
        assert RepairAll(kv, m, order) == RepairAll(kv, m, init);
      }
    }
  }

  lemma {:induction false} NothingDeleted(kv: Kv, m: LogMap, p: string)
    ensures !DeletesPath(HereOps(RepairAll(kv, m, [])), Tmp(p)) && !AbandonedBy(m, [], p)
  {
  }

  lemma {:induction false} ListedAbandoned(m: LogMap, ids: seq<string>, order: seq<string>, p: string)
    requires Lists(order, m.Keys)
    ensures AbandonedBy(Marked(m, ids), order, p) <==> Abandoned(m, ids, p)
  {
    var marked := Marked(m, ids);
    if id :| id in m && id !in ids && (m[id].state == START || m[id].state == ABORT) && p in m[id].names {
      assert id in order && marked[id] == m[id];
    }
    if id :| id in order && id in marked && (marked[id].state == START || marked[id].state == ABORT) && p in marked[id].names {
      assert id in m;
    }
  }

  lemma {:induction false} PullLeavesTemps(n: Node, ops: seq<Op>, p: string)
    requires Forced(ops) && IsBlockName(p)
    ensures SameAt(Exec(n, ops).disk, n.disk, Tmp(p))
  {
    TmpIsNotABlock(p);
    assert ops[..|ops|] == ops;
    ForcedElsewhere(n, ops, |ops|, Tmp(p));
  }

  lemma {:induction false} PatchesKeepNames(n: Node, ops: seq<Op>)
    requires forall i :: 0 <= i < |ops| ==> ops[i].PWrite?
    ensures Exec(n, ops).disk.Keys == n.disk.Keys
  {
    if ops != [] {
      PatchesKeepNames(n, ops[..|ops| - 1]);
    }
  }

  /** Pulling writes to files that are there, and creates none, whatever it is sent. */
  lemma {:induction false} PullCreatesNothing(n: Node, m: LogMap, peer: Node, ids: seq<string>, beyond: nat -> Bytes)
    ensures Exec(n, PullOps(m, peer, ids, beyond)).disk.Keys == n.disk.Keys
  {
    PatchesKeepNames(n, PullOps(m, peer, ids, beyond));
  }

  /** In terms of the log itself: started or aborted, not replicated, and not pending on the other server. */
  ghost predicate Unreplicated(log: seq<Record>, ids: seq<string>, p: string) {
    exists id :: id in Ids(log) && id !in ids && p in NamesOf(log, id) && (StateOf(log, id) == START || StateOf(log, id) == ABORT)
  }

  lemma {:induction false} AbandonedInLog(log: seq<Record>, ids: seq<string>, p: string)
    ensures Abandoned(Summary(log), ids, p) <==> Unreplicated(log, ids, p)
  {
    var m := Summary(log);
    hide StateOf, NamesOf;
    if id :| id in m && id !in ids && (m[id].state == START || m[id].state == ABORT) && p in m[id].names {
      assert id in Ids(log) && p in NamesOf(log, id);
    }
    if id :| id in Ids(log) && id !in ids && p in NamesOf(log, id) && (StateOf(log, id) == START || StateOf(log, id) == ABORT) {
      assert id in m && p in m[id].names;
    }
  }

  /** After a complete recovery the temp file of a block is gone if an unreplicated transaction names the block, and
      every other block's temp file is as it was. */
  lemma {:induction false} TempsAfterRecovery(n: Node, peer: Node, ids: seq<string>, order: seq<string>, beyond: nat -> Bytes, p: string)
    requires LogOk(n.log) && Sane(n.disk) && PendingOk(peer.kv) && RecoveryRun(n, peer, ids, order) && IsBlockName(p)
    ensures var e := Recovered(n, peer, ids, order, beyond).self.disk;
            if Unreplicated(n.log, ids, p) then Tmp(p) !in e else SameAt(e, n.disk, Tmp(p))
  {
    var m := Summary(n.log);
    var pull, all := PullOps(m, peer, ids, beyond), RepairAll(peer.kv, Marked(m, ids), order);
    hide *;
    RunLists(n, peer, ids, order);
    SaneHasNoUndos(n.disk);
    MarkedNamesOk(n.log, ids);
    AbandonedInLog(n.log, ids, p);
    RecoveredHere(n, peer, ids, order, beyond);
    RepairAllSafe(peer.kv, Marked(m, ids), order);
    PullIsForced(m, peer, ids, beyond);
    PullLeavesTemps(n, pull, p);
    ForcedKeepsNoUndos(n, pull);
    SafeRepairsAt(Exec(n, pull), HereOps(all), p);
    DeletesOfAll(peer.kv, Marked(m, ids), order, p);
    ListedAbandoned(m, ids, order, p);
    SameAtTrans(Exec(Exec(n, pull), HereOps(all)).disk, Exec(n, pull).disk, n.disk, Tmp(p));
  }

  lemma {:induction false} SameAtTrans(d: Disk, e: Disk, f: Disk, p: string)
    requires SameAt(e, f, p)
    ensures SameAt(d, e, p) ==> SameAt(d, f, p)
  {
  }

  lemma {:induction false} RunLists(n: Node, peer: Node, ids: seq<string>, order: seq<string>)
    requires LogOk(n.log) && RecoveryRun(n, peer, ids, order)
    ensures Lists(ids, PendingIds(peer.kv)) && Lists(order, Summary(n.log).Keys)
  {
    ParsedLogIsSummary(n);
  }

  /** A recovery with all its steps, in terms of what the log says. */
  lemma {:induction false} RecoveredSteps(n: Node, peer: Node, ids: seq<string>, order: seq<string>, beyond: nat -> Bytes)
    requires LogOk(n.log)
    ensures Recovered(n, peer, ids, order, beyond)
            == ExecBoth(Pair(n, peer), RecoverOps(Summary(n.log), peer, ids, order, beyond))
  {
    ParsedLogIsSummary(n);
    hide RecoverOps, ExecBoth, Summary;
  }

  lemma {:induction false} StepsHere(m: LogMap, peer: Node, ids: seq<string>, order: seq<string>, beyond: nat -> Bytes)
    ensures HereOps(RecoverOps(m, peer, ids, order, beyond))
            == PullOps(m, peer, ids, beyond) + HereOps(RepairAll(peer.kv, Marked(m, ids), order)) + [TruncateLog]
  {
    var pull, all := PullOps(m, peer, ids, beyond), RepairAll(peer.kv, Marked(m, ids), order);
    hide RepairAll, HereOps, ThereOps, PullOps, Marked;
    SplitSteps(pull, all);
    SplitLast(AllHere(pull) + all, TruncateLog);
  }

  /** The recovering server's own files: what is pulled, then the repairs. */
  lemma {:induction false} RecoveredHere(n: Node, peer: Node, ids: seq<string>, order: seq<string>, beyond: nat -> Bytes)
    requires LogOk(n.log)
    ensures var m := Summary(n.log);
            var pull, all := PullOps(m, peer, ids, beyond), RepairAll(peer.kv, Marked(m, ids), order);
            Recovered(n, peer, ids, order, beyond).self.disk == Exec(Exec(n, pull), HereOps(all)).disk
  {
    var m := Summary(n.log);
    var pull, all := PullOps(m, peer, ids, beyond), RepairAll(peer.kv, Marked(m, ids), order);
    hide *;
    RecoveredSteps(n, peer, ids, order, beyond);
    ExecBothSplits(Pair(n, peer), RecoverOps(m, peer, ids, order, beyond));
    StepsHere(m, peer, ids, order, beyond);
    TruncatedLast(n, pull, HereOps(all));
  }

  /** And its log is empty. */
  lemma {:induction false} LogAfterRecovery(n: Node, peer: Node, ids: seq<string>, order: seq<string>, beyond: nat -> Bytes)
    requires LogOk(n.log)
    ensures Recovered(n, peer, ids, order, beyond).self.log == []
  {
    var m := Summary(n.log);
    var here := PullOps(m, peer, ids, beyond) + HereOps(RepairAll(peer.kv, Marked(m, ids), order));
    hide *;
    RecoveredSteps(n, peer, ids, order, beyond);
    ExecBothSplits(Pair(n, peer), RecoverOps(m, peer, ids, order, beyond));
    StepsHere(m, peer, ids, order, beyond);
    TruncatesLog(n, here);
  }

  lemma {:induction false} TruncatesLog(n: Node, ops: seq<Op>)
    ensures Exec(n, ops + [TruncateLog]).log == []
  {
    ExecAppend(n, ops, TruncateLog);
    hide Exec;
  }

  lemma {:induction false} TruncatedLast(n: Node, a: seq<Op>, b: seq<Op>)
    ensures Exec(n, a + b + [TruncateLog]).disk == Exec(Exec(n, a), b).disk
  {
    ExecConcat(n, a, b);
    ExecAppend(n, a + b, TruncateLog);
    hide Exec;
  }

  // ----- Which transactions are requested -----

  /** The ids that the log does not show committed, in the order in which they were listed. */
  lemma {:induction false} RequestedInOrder(m: LogMap, ids: seq<string>, k: nat)
    requires k < |ids|
    ensures var before, r := Requested(m, ids[..k]), Requested(m, ids);
            && |before| <= |r| && r[..|before|] == before
            && if ids[k] in m && m[ids[k]].state == COMMIT then |Requested(m, ids[..k + 1])| == |before|
               else |before| < |r| && r[|before|] == ids[k]
  {
    assert ids[..k + 1][..k] == ids[..k];
    RequestedPrefix(m, ids, k);
    RequestedPrefix(m, ids, k + 1);
  }

  lemma {:induction false} RequestedPrefix(m: LogMap, ids: seq<string>, k: nat)
    requires k <= |ids|
    ensures |Requested(m, ids[..k])| <= |Requested(m, ids)|
    ensures Requested(m, ids)[..|Requested(m, ids[..k])|] == Requested(m, ids[..k])
    decreases |ids| - k
  {
    if k == |ids| {
      assert ids[..k] == ids;
    } else {
      RequestedPrefix(m, ids, k + 1);
      assert ids[..k + 1][..k] == ids[..k];
    }
  }
}
