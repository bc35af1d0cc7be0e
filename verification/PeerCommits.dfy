/** What a recovery makes the other server do: commits, seen as renames of one block's temp file after another. */
module PeerCommits {
  import opened Storage
  import opened WriteAheadLog
  import opened LogParser
  import opened KeyValueStore
  import opened Nodes
  import opened BlockServer
  import opened Recovery
  import opened RecoverySafety

  lemma {:induction false} RepairAllOneMore(kv: Kv, m: LogMap, order: seq<string>)
    requires order != []
    ensures var id := order[|order| - 1];
            ThereOps(RepairAll(kv, m, order))
            == ThereOps(RepairAll(kv, m, order[..|order| - 1]))
               + if id in m then RepairThere(id, m[id], CommittedIn(kv, id)) else []
  {
    var init, id := order[..|order| - 1], order[|order| - 1];
    assert init + [id] == order;
    if id in m {
      OneMoreRepair(kv, m, init, id);
    } else {
      assert RepairAll(kv, m, order) == RepairAll(kv, m, init);
    }
  }

  /** Renames of temp files, log records, and dropped entries that are neither committed nor pending. */
  predicate CommitLike(kv: Kv, op: Op) {
    match op
    case Move(src, dst) => src == Tmp(dst) && Creatable(dst)
    case Append(_) => true
    case KvDrop(id) => !(id in kv && (kv[id].state == COMMIT || kv[id].state == PENDING_REPLICATION))
    case _ => false
  }

  ghost predicate AllCommitLike(kv: Kv, ops: seq<Op>) {
    forall i :: 0 <= i < |ops| ==> CommitLike(kv, ops[i])
  }

  ghost predicate NotPendingThere(kv: Kv, m: LogMap) {
    forall id :: id in m && m[id].state == RPC_INIT ==> !(id in kv && kv[id].state == PENDING_REPLICATION)
  }

  lemma {:induction false} CommitIsCommitLike(kv: Kv, id: string, names: seq<string>)
    requires NamesOk(names)
    requires !(id in kv && (kv[id].state == COMMIT || kv[id].state == PENDING_REPLICATION))
    ensures AllCommitLike(kv, CommitOps(id, names))
  {
    NamesAreCreatable(names);
    hide Creatable, NamesOk;
  }

  lemma {:induction false} CommitLikeConcat(kv: Kv, a: seq<Op>, b: seq<Op>)
    requires AllCommitLike(kv, a) && AllCommitLike(kv, b)
    ensures AllCommitLike(kv, a + b)
  {
  }

  lemma {:induction false} ThereIsCommitLike(kv: Kv, m: LogMap, order: seq<string>)
    requires MapOk(m) && NotPendingThere(kv, m)
    ensures AllCommitLike(kv, ThereOps(RepairAll(kv, m, order)))
  {
    hide RepairAll, ThereOps, CommitOps, NamesOk, CommitLike;
    if order == [] {
      NoRepairs(kv, m);
    } else {
      var init, id := order[..|order| - 1], order[|order| - 1];
      ThereIsCommitLike(kv, m, init);
      RepairAllOneMore(kv, m, order);
      if id in m && m[id].state == RPC_INIT && !CommittedIn(kv, id) {
        CommitIsCommitLike(kv, id, m[id].names);
        CommitLikeConcat(kv, ThereOps(RepairAll(kv, m, init)), CommitOps(id, m[id].names));
      }
    }
  }

  lemma {:induction false} NoRepairs(kv: Kv, m: LogMap)
    ensures ThereOps(RepairAll(kv, m, [])) == []
  {
  }

  ghost predicate MovesFile(ops: seq<Op>, p: string) {
    exists i :: 0 <= i < |ops| && ops[i] == Move(Tmp(p), p)
  }

  lemma {:induction false} MovesFileConcat(a: seq<Op>, b: seq<Op>, p: string)
    ensures MovesFile(a + b, p) <==> MovesFile(a, p) || MovesFile(b, p)
  {
    if i :| 0 <= i < |a| && a[i] == Move(Tmp(p), p) {
      assert (a + b)[i] == Move(Tmp(p), p);
    }
    if i :| 0 <= i < |b| && b[i] == Move(Tmp(p), p) {
      assert (a + b)[|a| + i] == Move(Tmp(p), p);
    }
  }

  lemma {:induction false} CommitMovesFile(id: string, names: seq<string>, p: string)
    ensures MovesFile(CommitOps(id, names), p) <==> p in names
  {
    var ops := CommitOps(id, names);
    if i :| 0 <= i < |ops| && ops[i] == Move(Tmp(p), p) {
      assert i < |names|;
    }
    if p in names {
      var i :| 0 <= i < |names| && names[i] == p;
      assert ops[i] == Move(Tmp(p), p);
    }
  }

  /** Some unfinished transaction of `order` names the path. */
  ghost predicate Named(kv: Kv, m: LogMap, order: seq<string>, path: string) {
    exists i :: i in order && i in m && m[i].state == RPC_INIT && !CommittedIn(kv, i) && path in m[i].names
  }

  /** Whether recovery makes the other server rename the temp file of `p`. */
  ghost predicate Renames(kv: Kv, m: LogMap, p: string) {
    exists id :: id in m && m[id].state == RPC_INIT && !CommittedIn(kv, id) && p in m[id].names
  }

  lemma {:induction false} RepairsMoveFile(kv: Kv, m: LogMap, order: seq<string>, p: string)
    ensures MovesFile(ThereOps(RepairAll(kv, m, order)), p) <==> Named(kv, m, order, p)
  {
    hide RepairAll, ThereOps, CommitOps, MovesFile, Named, CommittedIn;
    if order == [] {
      NoRepairs(kv, m);
      NothingNamed(kv, m, p);
    } else {
      var init, id := order[..|order| - 1], order[|order| - 1];
      RepairsMoveFile(kv, m, init, p);
      RepairAllOneMore(kv, m, order);
      NamedOneMore(kv, m, order, p);
      if id in m && m[id].state == RPC_INIT && !CommittedIn(kv, id) {
        CommitMovesFile(id, m[id].names, p);
        MovesFileConcat(ThereOps(RepairAll(kv, m, init)), CommitOps(id, m[id].names), p);
      } else {
        assert ThereOps(RepairAll(kv, m, order)) == ThereOps(RepairAll(kv, m, init));
      }
    }
  }

  lemma {:induction false} NothingNamed(kv: Kv, m: LogMap, p: string)
    ensures !Named(kv, m, [], p) && !MovesFile([], p)
  {
  }

  lemma {:induction false} NamedOneMore(kv: Kv, m: LogMap, order: seq<string>, p: string)
    requires order != []
    ensures var init, id := order[..|order| - 1], order[|order| - 1];
            Named(kv, m, order, p)
            <==> Named(kv, m, init, p)
                 || (id in m && m[id].state == RPC_INIT && !CommittedIn(kv, id) && p in m[id].names)
  {
  }

  lemma {:induction false} NamedIsRenames(kv: Kv, m: LogMap, order: seq<string>, p: string)
    requires Lists(order, m.Keys)
    ensures Named(kv, m, order, p) <==> Renames(kv, m, p)
  {
  }

  // ----- A block and its temp file, under renames -----

  ghost predicate Moved(d0: Disk, d: Disk, p: string) {
    Tmp(p) in d0 && p in d && d[p] == d0[Tmp(p)] && Tmp(p) !in d
  }

  ghost predicate Untouched(d0: Disk, d: Disk, p: string) {
    SameAt(d, d0, p) && SameAt(d, d0, Tmp(p))
  }

  lemma {:induction false} CellStep(kv: Kv, n0: Node, n: Node, op: Op, p: string)
    requires CommitLike(kv, op) && IsBlockName(p) && Sane(n.disk)
    requires Moved(n0.disk, n.disk, p) || Untouched(n0.disk, n.disk, p)
    ensures Sane(Apply(n, op).disk)
    ensures Moved(n0.disk, n.disk, p) ==> Moved(n0.disk, Apply(n, op).disk, p)
    ensures Untouched(n0.disk, n.disk, p) && !(op == Move(Tmp(p), p) && Tmp(p) in n0.disk) ==>
              Untouched(n0.disk, Apply(n, op).disk, p)
    ensures op == Move(Tmp(p), p) && Tmp(p) in n0.disk ==> Moved(n0.disk, Apply(n, op).disk, p)
  {
    hide Creatable;
    TmpIsNotABlock(p);
    if op.Move? {
      TmpIsNotABlock(op.dst);
      forall q
        ensures op.dst != Undo(q) && (IsBlockName(q) ==> op.dst != Tmp(Tmp(q)))
      {
        CreatableIsSane(op.dst, q);
      }
      if Tmp(op.dst) == Tmp(p) {
        TmpInjective(op.dst, p);
      }
    }
  }

  lemma {:induction false} CommitCell(kv: Kv, n: Node, ops: seq<Op>, p: string)
    requires AllCommitLike(kv, ops) && IsBlockName(p) && Sane(n.disk)
    ensures Sane(Exec(n, ops).disk)
    ensures if Tmp(p) in n.disk && MovesFile(ops, p) then Moved(n.disk, Exec(n, ops).disk, p)
            else Untouched(n.disk, Exec(n, ops).disk, p)
  {
    hide Apply, Sane, CommitLike, Moved, Untouched;
    if ops == [] {
      UntouchedSelf(n.disk, p);
    } else {
      var init, op := ops[..|ops| - 1], ops[|ops| - 1];
      CommitCell(kv, n, init, p);
      CellStep(kv, n, Exec(n, init), op, p);
      assert init + [op] == ops;
      MovesFileConcat(init, [op], p);
    }
  }

  lemma {:induction false} UntouchedSelf(d: Disk, p: string)
    ensures Untouched(d, d, p) && !MovesFile([], p)
  {
  }

  /** Interrupted anywhere and repeated, the renames end where they would have ended in one go. */
  lemma {:induction false} CellTwice(kv: Kv, kv': Kv, n: Node, ops: seq<Op>, j: nat, again: seq<Op>, p: string)
    requires AllCommitLike(kv, ops) && AllCommitLike(kv', again) && j <= |ops| && IsBlockName(p) && Sane(n.disk)
    requires MovesFile(again, p) <==> MovesFile(ops, p)
    ensures SameAt(Exec(Exec(n, ops[..j]), again).disk, Exec(n, ops).disk, p)
    ensures SameAt(Exec(n, ops[..j]).disk, n.disk, p) || SameAt(Exec(n, ops[..j]).disk, Exec(n, ops).disk, p)
    ensures !(Tmp(p) in n.disk && MovesFile(ops, p)) ==> SameAt(Exec(n, ops[..j]).disk, n.disk, p)
    ensures Tmp(p) in n.disk && MovesFile(ops, p) ==>
              p in Exec(n, ops).disk && Exec(n, ops).disk[p] == n.disk[Tmp(p)]
  {
    hide Exec, CommitLike, Sane;
    assert ops[..j] + ops[j..] == ops;
    MovesFileConcat(ops[..j], ops[j..], p);
    CommitCell(kv, n, ops, p);
    CommitCell(kv, n, ops[..j], p);
    CommitCell(kv', Exec(n, ops[..j]), again, p);
  }

  // ----- The other server's table -----

  /** Some entries are gone, none of them committed or pending. */
  ghost predicate Reduced(kv: Kv, kv': Kv) {
    && (forall z :: z in kv' ==> z in kv && kv'[z] == kv[z])
    && (forall z :: z in kv && (kv[z].state == COMMIT || kv[z].state == PENDING_REPLICATION) ==> z in kv')
  }

  lemma {:induction false} KvIsReduced(kv: Kv, n: Node, ops: seq<Op>)
    requires AllCommitLike(kv, ops) && n.kv == kv
    ensures Reduced(kv, Exec(n, ops).kv)
  {
    if ops != [] {
      KvIsReduced(kv, n, ops[..|ops| - 1]);
      assert CommitLike(kv, ops[|ops| - 1]);
    }
  }

  lemma {:induction false} ReducedAnswersAlike(kv: Kv, kv': Kv, id: string)
    requires Reduced(kv, kv')
    ensures CommittedIn(kv, id) <==> CommittedIn(kv', id)
    ensures PendingIds(kv) == PendingIds(kv')
  {
  }

  lemma {:induction false} RenamesAlike(kv: Kv, kv': Kv, m: LogMap, p: string)
    requires Reduced(kv, kv')
    ensures Renames(kv, m, p) <==> Renames(kv', m, p)
  {
  }
}
