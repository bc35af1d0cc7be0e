/** Recovery that is cut short and run again: the same blocks on both servers as one uninterrupted run. */
module Idempotence {
  import opened Storage
  import opened WriteAheadLog
  import opened LogParser
  import opened KeyValueStore
  import opened Nodes
  import opened CrashAtomicity
  import opened BlockServer
  import opened Recovery
  import opened RecoverySafety
  import opened PeerCommits
  import opened PrimaryRecovery
  import opened Divergence
  import opened CatchUp

  /** Stopped after `k` of its steps, none of which is the truncation of the log. */
  function Interrupted(n: Node, peer: Node, ids: seq<string>, order: seq<string>, beyond: nat -> Bytes, k: nat): Pair {
    var xs := RepairSteps(ParsedLog(n), peer, ids, order, beyond);
    var s := ExecBoth(Pair(n, peer), xs[..Min(k, |xs|)]);
    Pair(Crashed(s.self), s.peer)
  }

  // ----- The forced writes, twice -----

  lemma {:induction false} OverwriteTwice(c: Bytes, data: Bytes, off: nat)
    ensures Overwrite(Overwrite(c, data, off), data, off) == Overwrite(c, data, off)
  {
  }

  /** Some of the forced writes, then all of them, equals all of them. */
  lemma {:induction false} ForcedTwice(n: Node, ops: seq<Op>, j: nat, n1: Node, p: string)
    requires Forced(ops) && j <= |ops| && SameAt(n1.disk, Exec(n, ops[..j]).disk, p)
    ensures SameAt(Exec(n1, ops).disk, Exec(n, ops).disk, p)
  {
    hide Exec, Overwrite;
    assert ops[..|ops|] == ops;
    if i :| 0 <= i < |ops| && ops[i].path == p {
      ForcedHere(n1, ops, |ops|, i);
      ForcedHere(n, ops, |ops|, i);
      if i < j {
        ForcedHere(n, ops, j, i);
        if p in n.disk {
          OverwriteTwice(n.disk[p], ops[i].data, ops[i].off);
        }
      } else {
        ForcedElsewhere(n, ops, j, p);
      }
    } else {
      ForcedElsewhere(n1, ops, |ops|, p);
      ForcedElsewhere(n, ops, |ops|, p);
      ForcedElsewhere(n, ops, j, p);
    }
  }

  // ----- When the repetition streams the same bytes -----

  /** Where a streamed file has a temp file on the other server that this recovery makes it rename, both hold the
      same data in the transaction's extent. */
  ghost predicate Steady(n: Node, peer: Node, ids: seq<string>) {
    forall z, j :: z in Streamed(n.log, ids) && z in peer.kv && 0 <= j < |peer.kv[z].originalFiles| && TxnShape(peer.kv[z]) ==>
      SteadyFile(n, peer, ids, peer.kv[z].originalFiles[j], peer.kv[z].sizes[j], peer.kv[z].offsets[j])
  }

  ghost predicate SteadyFile(n: Node, peer: Node, ids: seq<string>, f: string, size: nat, off: nat) {
    Tmp(f) in peer.disk && Renames(peer.kv, Marked(Summary(n.log), ids), f) ==>
      DataOf(peer.disk, Tmp(f), size, off) == DataOf(peer.disk, f, size, off)
  }

  /** The memory behind the received data is the same, or does not matter. */
  ghost predicate SameBeyond(n: Node, peer: Node, ids: seq<string>, beyond: nat -> Bytes, again: nat -> Bytes) {
    beyond == again || forall z :: z in Streamed(n.log, ids) && z in peer.kv ==> Streamable(peer.disk, peer.kv[z])
  }

  /** Two servers with a recovery about to run, and perhaps to run again. */
  ghost predicate AboutToRecover(n: Node, peer: Node, ids: seq<string>, order: seq<string>, again: seq<string>) {
    && LogOk(n.log) && Sane(n.disk) && Sane(peer.disk) && PendingOk(peer.kv)
    && RecoveryRun(n, peer, ids, order) && Lists(again, ParsedLog(n).Keys)
  }

  function CommitsSent(n: Node, kv: Kv, ids: seq<string>, order: seq<string>): seq<Op> {
    ThereOps(RepairAll(kv, Marked(Summary(n.log), ids), order))
  }

  lemma {:induction false} SentIsCommitLike(n: Node, kv: Kv, ids: seq<string>, order: seq<string>)
    requires LogOk(n.log) && Lists(ids, PendingIds(kv))
    ensures AllCommitLike(kv, CommitsSent(n, kv, ids, order))
  {
    var m := Marked(Summary(n.log), ids);
    MarkedNamesOk(n.log, ids);
    forall id | id in m && m[id].state == RPC_INIT
      ensures !(id in kv && kv[id].state == PENDING_REPLICATION)
    {
      assert id !in ids;
      assert id !in PendingIds(kv);
    }
    hide Summary, Marked, CommitLike, RepairAll, ThereOps, MapOk;
    ThereIsCommitLike(kv, m, order);
  }

  lemma {:induction false} SentMovesFile(n: Node, kv: Kv, ids: seq<string>, order: seq<string>, p: string)
    requires Lists(order, Summary(n.log).Keys)
    ensures MovesFile(CommitsSent(n, kv, ids, order), p) <==> Renames(kv, Marked(Summary(n.log), ids), p)
  {
    hide Summary, RepairAll, ThereOps, MovesFile, Named, Renames;
    RepairsMoveFile(kv, Marked(Summary(n.log), ids), order, p);
    NamedIsRenames(kv, Marked(Summary(n.log), ids), order, p);
  }

  /** The other server after some of the first run's commits. */
  lemma {:induction false} PeerHalfway(n: Node, peer: Node, ids: seq<string>, order: seq<string>, again: seq<string>, j: nat)
    requires AboutToRecover(n, peer, ids, order, again) && j <= |CommitsSent(n, peer.kv, ids, order)|
    ensures var peer1 := Exec(peer, CommitsSent(n, peer.kv, ids, order)[..j]);
            && Reduced(peer.kv, peer1.kv) && PendingIds(peer1.kv) == PendingIds(peer.kv)
            && AllCommitLike(peer1.kv, CommitsSent(n, peer1.kv, ids, again))
  {
    var ops := CommitsSent(n, peer.kv, ids, order);
    var peer1 := Exec(peer, ops[..j]);
    hide CommitsSent, Exec, CommitLike, Sane, LogOk, PendingOk, Reduced;
    SentIsCommitLike(n, peer.kv, ids, order);
    assert AllCommitLike(peer.kv, ops[..j]);
    KvIsReduced(peer.kv, peer, ops[..j]);
    ReducedAnswersAlike(peer.kv, peer1.kv, "");
    SentIsCommitLike(n, peer1.kv, ids, again);
  }

  lemma {:induction false} PeerTwice(n: Node, peer: Node, ids: seq<string>, order: seq<string>, again: seq<string>, j: nat, p: string)
    requires AboutToRecover(n, peer, ids, order, again) && j <= |CommitsSent(n, peer.kv, ids, order)| && IsBlockName(p)
    ensures var ops := CommitsSent(n, peer.kv, ids, order);
            var peer1 := Exec(peer, ops[..j]);
            && SameAt(Exec(peer1, CommitsSent(n, peer1.kv, ids, again)).disk, Exec(peer, ops).disk, p)
            && (SameAt(peer1.disk, peer.disk, p)
                || (Tmp(p) in peer.disk && Renames(peer.kv, Marked(Summary(n.log), ids), p)
                    && p in peer1.disk && peer1.disk[p] == peer.disk[Tmp(p)]))
  {
    var ops := CommitsSent(n, peer.kv, ids, order);
    var peer1 := Exec(peer, ops[..j]);
    ParsedLogIsSummary(n);
    PeerHalfway(n, peer, ids, order, again, j);
    hide CommitsSent, Exec, Sane, Summary, ParsedLog, Reduced, Renames, LogOk, PendingOk, CommitLike, Lists;
    SentIsCommitLike(n, peer.kv, ids, order);
    SentMovesFile(n, peer.kv, ids, order, p);
    SentMovesFile(n, peer1.kv, ids, again, p);
    RenamesAlike(peer.kv, peer1.kv, Marked(Summary(n.log), ids), p);
    CellTwice(peer.kv, peer1.kv, peer, ops, j, CommitsSent(n, peer1.kv, ids, again), p);
  }

  lemma {:induction false} SameData(n: Node, peer: Node, ids: seq<string>, peer1: Node, f: string, size: nat, off: nat)
    requires SteadyFile(n, peer, ids, f, size, off)
    requires SameAt(peer1.disk, peer.disk, f)
             || (Tmp(f) in peer.disk && Renames(peer.kv, Marked(Summary(n.log), ids), f)
                 && f in peer1.disk && peer1.disk[f] == peer.disk[Tmp(f)])
    ensures DataOf(peer1.disk, f, size, off) == DataOf(peer.disk, f, size, off)
  {
  }

  lemma {:induction false} WholePatch(content: Bytes, size: nat, beyond: Bytes, again: Bytes)
    requires |content| == size
    ensures InMemory(content, size, beyond) == InMemory(content, size, again)
  {
  }

  lemma {:induction false} WholeData(d: Disk, txn: TxnData, j: nat)
    requires Streamable(d, txn) && j < |txn.originalFiles|
    ensures TxnShape(txn) && |DataOf(d, txn.originalFiles[j], txn.sizes[j], txn.offsets[j])| == txn.sizes[j]
  {
  }

  ghost predicate SameChunks(d: Disk, e: Disk, txn: TxnData) {
    TxnShape(txn)
    && forall j :: 0 <= j < |txn.originalFiles| ==>
         DataOf(d, txn.originalFiles[j], txn.sizes[j], txn.offsets[j])
         == DataOf(e, txn.originalFiles[j], txn.sizes[j], txn.offsets[j])
  }

  lemma {:induction false} SamePatches(d: Disk, e: Disk, txn: TxnData, beyond: nat -> Bytes, again: nat -> Bytes)
    requires SameChunks(e, d, txn) && (beyond == again || Streamable(d, txn))
    ensures Patches(ChunksOf(e, txn, |txn.originalFiles|), again) == Patches(ChunksOf(d, txn, |txn.originalFiles|), beyond)
  {
    var a, b := Patches(ChunksOf(e, txn, |txn.originalFiles|), again), Patches(ChunksOf(d, txn, |txn.originalFiles|), beyond);
    hide DataOf, InMemory, Streamable;
    forall j | 0 <= j < |a|
      ensures a[j] == b[j]
    {
      if beyond != again {
        WholeData(d, txn, j);
        WholePatch(DataOf(d, txn.originalFiles[j], txn.sizes[j], txn.offsets[j]), txn.sizes[j], beyond(j), again(j));
      }
    }
  }

  /** The repetition asks for the same transaction and is streamed the same bytes. */
  lemma {:induction false} SamePull(n: Node, peer: Node, ids: seq<string>, order: seq<string>, again: seq<string>, j: nat,
                                    beyond: nat -> Bytes, beyond': nat -> Bytes)
    requires AboutToRecover(n, peer, ids, order, again) && j <= |CommitsSent(n, peer.kv, ids, order)|
    requires Steady(n, peer, ids) && SameBeyond(n, peer, ids, beyond, beyond')
    ensures var peer1 := Exec(peer, CommitsSent(n, peer.kv, ids, order)[..j]);
            PullOps(Summary(n.log), peer1, ids, beyond') == PullOps(Summary(n.log), peer, ids, beyond)
  {
    var peer1 := Exec(peer, CommitsSent(n, peer.kv, ids, order)[..j]);
    PeerHalfway(n, peer, ids, order, again, j);
    var requested := Requested(Summary(n.log), ids);
    hide CommitsSent, Exec, Sane, Summary, ParsedLog, LogOk, CommitLike, DataOf, Requested, SteadyFile, Streamable;
    if requested != [] {
      FirstIsPending(Summary(n.log), peer.kv, ids);
      var txn := peer.kv[requested[0]];
      assert TxnOk(txn) && peer1.kv[requested[0]] == txn;
      forall k | 0 <= k < |txn.originalFiles|
        ensures DataOf(peer1.disk, txn.originalFiles[k], txn.sizes[k], txn.offsets[k])
                == DataOf(peer.disk, txn.originalFiles[k], txn.sizes[k], txn.offsets[k])
      {
        PeerTwice(n, peer, ids, order, again, j, txn.originalFiles[k]);
        assert SteadyFile(n, peer, ids, txn.originalFiles[k], txn.sizes[k], txn.offsets[k]);
        SameData(n, peer, ids, peer1, txn.originalFiles[k], txn.sizes[k], txn.offsets[k]);
      }
      SamePatches(peer.disk, peer1.disk, txn, beyond, beyond');
    }
  }

  // ----- The recovering server -----

  lemma {:induction false} ForcedKeepsSane(n: Node, ops: seq<Op>, k: nat)
    requires Forced(ops) && Sane(n.disk) && k <= |ops|
    ensures Sane(Exec(n, ops[..k]).disk)
  {
    assert forall i :: 0 <= i < k ==> ops[..k][i].PWrite?;
    assert CreatesWell(ops[..k]);
    hide Sane, CreatesWell;
    StaysSane(n, ops[..k]);
  }

  lemma {:induction false} SelfHalfway(n: Node, pull: seq<Op>, repairs: seq<Op>, h: nat)
    requires Forced(pull) && AllSafe(repairs) && Sane(n.disk) && h <= |pull + repairs|
    ensures var n1 := Exec(n, (pull + repairs)[..h]);
            SameBlocks(n1.disk, Exec(n, pull[..Min(h, |pull|)]).disk) && NoUndos(n1.disk)
  {
    hide Exec, Forced, SafeRepair, SameBlocks;
    ExecPrefix(n, pull, repairs, h);
    ForcedKeepsSane(n, pull, Min(h, |pull|));
    SameBlocksRefl(Exec(n, pull[..Min(h, |pull|)]).disk);
    if h > |pull| {
      assert pull[..|pull|] == pull;
      assert AllSafe(repairs[..h - |pull|]);
      SafeRepairsKeepBlocks(Exec(n, pull), repairs[..h - |pull|]);
    }
  }

  lemma {:induction false} ForcedKeepsNoUndos(n: Node, ops: seq<Op>)
    requires Forced(ops) && NoUndos(n.disk)
    ensures NoUndos(Exec(n, ops).disk)
  {
    hide Exec;
    forall q
      ensures Undo(q) !in Exec(n, ops).disk
    {
      TmpIsNotABlock(q);
      assert ops[..|ops|] == ops;
      ForcedElsewhere(n, ops, |ops|, Undo(q));
    }
  }

  /** A cut-off run and a full one, against one full run: the recovering server's own blocks. */
  lemma {:induction false} SelfTwice(n: Node, pull: seq<Op>, repairs: seq<Op>, h: nat, repairs': seq<Op>, kv: Kv)
    requires Forced(pull) && AllSafe(repairs) && AllSafe(repairs') && Sane(n.disk) && h <= |pull + repairs|
    ensures var n1 := Exec(n, (pull + repairs)[..h]).(kv := kv);
            SameBlocks(Exec(n1, pull + repairs' + [TruncateLog]).disk, Exec(n, pull + repairs + [TruncateLog]).disk)
  {
    var n1 := Exec(n, (pull + repairs)[..h]).(kv := kv);
    hide Exec, Forced, SafeRepair;
    SelfHalfway(n, pull, repairs, h);
    ForcedKeepsNoUndos(n1, pull);
    ForcedKeepsNoUndos(n, pull);
    PullThenRepair(n1, pull, repairs');
    PullThenRepair(n, pull, repairs);
    var d, e := Exec(n1, pull + repairs' + [TruncateLog]).disk, Exec(n, pull + repairs + [TruncateLog]).disk;
    forall p | IsBlockName(p)
      ensures SameAt(d, e, p)
    {
      ForcedTwice(n, pull, Min(h, |pull|), n1, p);
      assert SameAt(d, Exec(n1, pull).disk, p) && SameAt(e, Exec(n, pull).disk, p);
    }
  }

  lemma {:induction false} LogStays(n: Node, ops: seq<Op>)
    requires forall i :: 0 <= i < |ops| ==> ops[i].PWrite? || SafeRepair(ops[i])
    ensures Exec(n, ops).log == n.log
  {
    if ops != [] {
      LogStays(n, ops[..|ops| - 1]);
    }
  }

  // ----- Both servers -----

  /** The servers after an interrupted run, and the ops that led there. */
  lemma {:induction false} HalfwayState(n: Node, peer: Node, ids: seq<string>, order: seq<string>, beyond: nat -> Bytes, k: nat)
    returns (repairs: seq<Op>, h: nat, j: nat)
    requires LogOk(n.log)
    ensures AllSafe(repairs)
    ensures var pull, sent := PullOps(Summary(n.log), peer, ids, beyond), CommitsSent(n, peer.kv, ids, order);
            var s, r := Interrupted(n, peer, ids, order, beyond, k), Recovered(n, peer, ids, order, beyond);
            && h <= |pull + repairs| && j <= |sent|
            && s.self == Crashed(Exec(n, (pull + repairs)[..h])) && s.peer == Exec(peer, sent[..j])
            && r.self == Exec(n, pull + repairs + [TruncateLog]) && r.peer == Exec(peer, sent)
            && (k >= |RepairSteps(ParsedLog(n), peer, ids, order, beyond)| ==> h == |pull + repairs| && j == |sent|)
  {
    var xs := RepairSteps(ParsedLog(n), peer, ids, order, beyond);
    hide Exec, ExecBoth, HereOps, ThereOps, PullOps, RepairAll, Summary, ParsedLog, SafeRepair, RepairSteps;
    repairs := StepsOfRecovery(n, peer, ids, order, beyond);
    var cut := xs[..Min(k, |xs|)];
    SplitPrefix(xs, Min(k, |xs|));
    h, j := |HereOps(cut)|, |ThereOps(cut)|;
    ExecBothSplits(Pair(n, peer), cut);
    ExecBothSplits(Pair(n, peer), RecoverOps(ParsedLog(n), peer, ids, order, beyond));
    if k >= |xs| {
      assert cut == xs;
    }
  }

  lemma {:induction false} SameLogThen(n: Node, pull: seq<Op>, repairs: seq<Op>, h: nat)
    requires Forced(pull) && AllSafe(repairs) && h <= |pull + repairs|
    ensures Exec(n, (pull + repairs)[..h]).log == n.log
  {
    hide SafeRepair;
    LogStays(n, (pull + repairs)[..h]);
  }

  lemma {:induction false} ParsedAlike(n: Node, n1: Node)
    requires n1.log == n.log
    ensures ParsedLog(n1) == ParsedLog(n)
    ensures forall kv, ids, order :: CommitsSent(n1, kv, ids, order) == CommitsSent(n, kv, ids, order)
  {
  }

  ghost predicate SameOutcome(s: Pair, r: Pair) {
    SameBlocks(s.self.disk, r.self.disk) && SameBlocks(s.peer.disk, r.peer.disk)
  }

  /** Interrupted after `k` steps, then run in full. */
  function Repeated(n: Node, peer: Node, ids: seq<string>, order: seq<string>, again: seq<string>,
                    beyond: nat -> Bytes, beyond': nat -> Bytes, k: nat): Pair {
    var s := Interrupted(n, peer, ids, order, beyond, k);
    Recovered(s.self, s.peer, ids, again, beyond')
  }

  /** The repetition is a possible run, and its commits end where those of one run end. */
  lemma {:induction false} RepeatedParts(n: Node, peer: Node, ids: seq<string>, order: seq<string>, again: seq<string>,
                                         beyond: nat -> Bytes, beyond': nat -> Bytes, k: nat)
    returns (repairs: seq<Op>, h: nat, j: nat, repairs': seq<Op>)
    requires AboutToRecover(n, peer, ids, order, again)
    ensures AllSafe(repairs) && AllSafe(repairs')
    ensures var pull, sent := PullOps(Summary(n.log), peer, ids, beyond), CommitsSent(n, peer.kv, ids, order);
            var s := Interrupted(n, peer, ids, order, beyond, k);
            && h <= |pull + repairs| && j <= |sent| && s.peer == Exec(peer, sent[..j])
            && Forced(pull) && s.self == Crashed(Exec(n, (pull + repairs)[..h]))
            && RecoveryRun(s.self, s.peer, ids, again)
            && Recovered(n, peer, ids, order, beyond).self == Exec(n, pull + repairs + [TruncateLog])
            && Recovered(n, peer, ids, order, beyond).peer == Exec(peer, sent)
            && Repeated(n, peer, ids, order, again, beyond, beyond', k).self
               == Exec(s.self, PullOps(Summary(n.log), s.peer, ids, beyond') + repairs' + [TruncateLog])
            && Repeated(n, peer, ids, order, again, beyond, beyond', k).peer == Exec(s.peer, CommitsSent(n, s.peer.kv, ids, again))
            && (k >= |RepairSteps(ParsedLog(n), peer, ids, order, beyond)| ==> h == |pull + repairs| && j == |sent|)
  {
    hide *;
    AboutParts(n, peer, ids, order, again);
    repairs, h, j := HalfwayState(n, peer, ids, order, beyond, k);
    var s := Interrupted(n, peer, ids, order, beyond, k);
    PullIsForced(Summary(n.log), peer, ids, beyond);
    SameLogThen(n, PullOps(Summary(n.log), peer, ids, beyond), repairs, h);
    CrashKeepsLog(Exec(n, (PullOps(Summary(n.log), peer, ids, beyond) + repairs)[..h]));
    ParsedAlike(n, s.self);
    PeerHalfway(n, peer, ids, order, again, j);
    RunAgain(n, peer, s.self, s.peer, ids, order, again);
    var h', j';
    repairs', h', j' := HalfwayState(s.self, s.peer, ids, again, beyond', 0);
    RepeatedIs(n, peer, ids, order, again, beyond, beyond', k);
  }

  lemma {:induction false} RepeatedIs(n: Node, peer: Node, ids: seq<string>, order: seq<string>, again: seq<string>,
                                      beyond: nat -> Bytes, beyond': nat -> Bytes, k: nat)
    ensures var s := Interrupted(n, peer, ids, order, beyond, k);
            Repeated(n, peer, ids, order, again, beyond, beyond', k) == Recovered(s.self, s.peer, ids, again, beyond')
  {
  }

  lemma {:induction false} CrashKeepsLog(n: Node)
    ensures Crashed(n).log == n.log
  {
  }

  lemma {:induction false} AboutParts(n: Node, peer: Node, ids: seq<string>, order: seq<string>, again: seq<string>)
    requires AboutToRecover(n, peer, ids, order, again)
    ensures LogOk(n.log) && Sane(n.disk) && Lists(ids, PendingIds(peer.kv)) && PendingOk(peer.kv)
  {
  }

  lemma {:induction false} RunAgain(n: Node, peer: Node, n1: Node, peer1: Node, ids: seq<string>, order: seq<string>, again: seq<string>)
    requires AboutToRecover(n, peer, ids, order, again)
    requires PendingIds(peer1.kv) == PendingIds(peer.kv) && ParsedLog(n1) == ParsedLog(n)
    ensures RecoveryRun(n1, peer1, ids, again)
  {
  }

  lemma {:induction false} SameOutcomeFrom(s: Pair, r: Pair)
    requires SameBlocks(s.self.disk, r.self.disk) && SameBlocks(s.peer.disk, r.peer.disk)
    ensures SameOutcome(s, r)
  {
  }

  /** Interrupted after any number of steps before the log is truncated, and repeated: the same blocks on both
      servers as one uninterrupted run. */
  lemma {:induction false} RecoveryIsIdempotent(n: Node, peer: Node, ids: seq<string>, order: seq<string>, again: seq<string>,
                                                beyond: nat -> Bytes, beyond': nat -> Bytes, k: nat)
    requires AboutToRecover(n, peer, ids, order, again) && Steady(n, peer, ids) && SameBeyond(n, peer, ids, beyond, beyond')
    ensures SameOutcome(Repeated(n, peer, ids, order, again, beyond, beyond', k), Recovered(n, peer, ids, order, beyond))
  {
    hide *;
    AboutParts(n, peer, ids, order, again);
    var repairs, h, j, repairs' := RepeatedParts(n, peer, ids, order, again, beyond, beyond', k);
    var s := Interrupted(n, peer, ids, order, beyond, k);
    SamePull(n, peer, ids, order, again, j, beyond, beyond');
    SelfTwice(n, PullOps(Summary(n.log), peer, ids, beyond), repairs, h, repairs', map[]);
    CrashedIs(Exec(n, (PullOps(Summary(n.log), peer, ids, beyond) + repairs)[..h]));
    PeersAgree(n, peer, ids, order, again, j);
    SameOutcomeFrom(Repeated(n, peer, ids, order, again, beyond, beyond', k), Recovered(n, peer, ids, order, beyond));
  }

  lemma {:induction false} CrashedIs(n: Node)
    ensures Crashed(n) == n.(kv := map[])
  {
  }

  lemma {:induction false} PeersAgree(n: Node, peer: Node, ids: seq<string>, order: seq<string>, again: seq<string>, j: nat)
    requires AboutToRecover(n, peer, ids, order, again) && j <= |CommitsSent(n, peer.kv, ids, order)|
    ensures var peer1 := Exec(peer, CommitsSent(n, peer.kv, ids, order)[..j]);
            SameBlocks(Exec(peer1, CommitsSent(n, peer1.kv, ids, again)).disk,
                       Exec(peer, CommitsSent(n, peer.kv, ids, order)).disk)
  {
    hide Exec, CommitsSent, AboutToRecover, SameAt;
    var peer1 := Exec(peer, CommitsSent(n, peer.kv, ids, order)[..j]);
    forall p | IsBlockName(p)
      ensures SameAt(Exec(peer1, CommitsSent(n, peer1.kv, ids, again)).disk,
                     Exec(peer, CommitsSent(n, peer.kv, ids, order)).disk, p)
    {
      PeerTwice(n, peer, ids, order, again, j, p);
    }
  }

  // ----- The condition is necessary -----

  /** The streamed files are here; they and their temp files there hold no zero byte in the extents. */
  ghost predicate WholeFile(n: Node, peer: Node, f: string, size: nat, off: nat) {
    && f in n.disk && f in peer.disk && 0 !in Window(peer.disk[f], off, size)
    && (Tmp(f) in peer.disk ==> 0 !in Window(peer.disk[Tmp(f)], off, size))
  }

  lemma {:induction false} DifferentWindows(c: Bytes, off: nat, v: Bytes, w: Bytes, c': Bytes)
    requires |v| == |w| && v != w
    ensures Overwrite(c, v, off) != Overwrite(c', w, off)
  {
    var i :| 0 <= i < |v| && v[i] != w[i];
    assert ByteAt(Overwrite(c, v, off), off + i) == v[i];
    assert ByteAt(Overwrite(c', w, off), off + i) == w[i];
  }

  lemma {:induction false} PatchIsWhole(w: Bytes, beyond: Bytes)
    requires 0 !in w
    ensures InMemory(CString(w), |w|, beyond) == w
  {
  }

  lemma {:induction false} PulledWhole(m: LogMap, n: Node, peer: Node, ids: seq<string>, beyond: nat -> Bytes, j: nat)
    requires Lists(ids, PendingIds(peer.kv)) && PendingOk(peer.kv) && Requested(m, ids) != []
    requires j < |peer.kv[Requested(m, ids)[0]].originalFiles|
    requires var txn := peer.kv[Requested(m, ids)[0]];
             var f := txn.originalFiles[j];
             f in n.disk && f in peer.disk && 0 !in Window(peer.disk[f], txn.offsets[j], txn.sizes[j])
    ensures var txn := peer.kv[Requested(m, ids)[0]];
            var d, f := Exec(n, PullOps(m, peer, ids, beyond)).disk, txn.originalFiles[j];
            && IsBlockName(f) && f in d
            && d[f] == Overwrite(n.disk[f], Window(peer.disk[f], txn.offsets[j], txn.sizes[j]), txn.offsets[j])
  {
    var txn := peer.kv[Requested(m, ids)[0]];
    hide Exec, PullOps, Requested, Overwrite, InMemory, CString, Lists, PendingOk, IsBlockName;
    PulledFile(m, n, peer, ids, beyond, j);
    PatchIsWhole(Window(peer.disk[txn.originalFiles[j]], txn.offsets[j], txn.sizes[j]), beyond(j));
  }

  /** Run once to the end but for the truncation, and again: a streamed file whose temp file was renamed in
      between, and held something else, ends differently. */
  lemma {:induction false} UnsteadyFileDiffers(n: Node, peer: Node, ids: seq<string>, order: seq<string>, again: seq<string>,
                                               beyond: nat -> Bytes, beyond': nat -> Bytes, z: string, j: nat)
    requires AboutToRecover(n, peer, ids, order, again)
    requires Streamed(n.log, ids) == [z] && z in peer.kv && TxnShape(peer.kv[z]) && j < |peer.kv[z].originalFiles|
    requires WholeFile(n, peer, peer.kv[z].originalFiles[j], peer.kv[z].sizes[j], peer.kv[z].offsets[j])
    requires !SteadyFile(n, peer, ids, peer.kv[z].originalFiles[j], peer.kv[z].sizes[j], peer.kv[z].offsets[j])
    ensures var k := |RepairSteps(ParsedLog(n), peer, ids, order, beyond)|;
            !SameOutcome(Repeated(n, peer, ids, order, again, beyond, beyond', k), Recovered(n, peer, ids, order, beyond))
  {
    var k := |RepairSteps(ParsedLog(n), peer, ids, order, beyond)|;
    var txn, f := peer.kv[z], peer.kv[z].originalFiles[j];
    hide *;
    AboutParts(n, peer, ids, order, again);
    FirstIs(n.log, peer.kv, ids, z);
    WholeParts(n, peer, f, txn.sizes[j], txn.offsets[j]);
    PulledWhole(Summary(n.log), n, peer, ids, beyond, j);
    var repairs, h, sent, repairs' := RepeatedParts(n, peer, ids, order, again, beyond, beyond', k);
    OncePulled(n, PullOps(Summary(n.log), peer, ids, beyond), repairs);
    var s := Interrupted(n, peer, ids, order, beyond, k);
    AfterwardsHere(n, s.self, PullOps(Summary(n.log), peer, ids, beyond), repairs, h, f);
    AfterwardsThere(n, peer, ids, order, again, s.peer, sent, z, j);
    PulledWhole(Summary(n.log), s.self, s.peer, ids, beyond', j);
    PullIsForced(Summary(n.log), s.peer, ids, beyond');
    RepeatedPull(s.self, PullOps(Summary(n.log), s.peer, ids, beyond'), repairs');
    DifferentWindows(s.self.disk[f], txn.offsets[j], Window(s.peer.disk[f], txn.offsets[j], txn.sizes[j]),
                     Window(peer.disk[f], txn.offsets[j], txn.sizes[j]), n.disk[f]);
    DifferentFiles(Repeated(n, peer, ids, order, again, beyond, beyond', k), Recovered(n, peer, ids, order, beyond),
                   Exec(s.self, PullOps(Summary(n.log), s.peer, ids, beyond')).disk,
                   Exec(n, PullOps(Summary(n.log), peer, ids, beyond)).disk, f);
  }

  lemma {:induction false} OncePulled(n: Node, pull: seq<Op>, repairs: seq<Op>)
    requires Forced(pull) && AllSafe(repairs) && Sane(n.disk)
    ensures SameBlocks(Exec(n, pull + repairs + [TruncateLog]).disk, Exec(n, pull).disk)
  {
    hide Exec, Forced, SafeRepair, SameBlocks;
    ForcedKeepsNoUndos(n, pull);
    PullThenRepair(n, pull, repairs);
  }

  lemma {:induction false} RepeatedPull(n: Node, pull: seq<Op>, repairs: seq<Op>)
    requires Forced(pull) && AllSafe(repairs) && NoUndos(n.disk)
    ensures SameBlocks(Exec(n, pull + repairs + [TruncateLog]).disk, Exec(n, pull).disk)
  {
    hide Exec, Forced, SafeRepair, SameBlocks;
    ForcedKeepsNoUndos(n, pull);
    PullThenRepair(n, pull, repairs);
  }

  lemma {:induction false} AfterwardsHere(n: Node, n1: Node, pull: seq<Op>, repairs: seq<Op>, h: nat, f: string)
    requires Forced(pull) && AllSafe(repairs) && Sane(n.disk) && IsBlockName(f)
    requires h == |pull + repairs| && n1 == Crashed(Exec(n, (pull + repairs)[..h])) && f in Exec(n, pull).disk
    ensures NoUndos(n1.disk) && f in n1.disk
  {
    hide Exec, Forced, SafeRepair, NoUndos;
    SelfHalfway(n, pull, repairs, h);
    WholeOps(pull);
    assert SameAt(n1.disk, Exec(n, pull).disk, f);
  }

  lemma {:induction false} AfterwardsThere(n: Node, peer: Node, ids: seq<string>, order: seq<string>, again: seq<string>,
                                           peer1: Node, sent: nat, z: string, j: nat)
    requires AboutToRecover(n, peer, ids, order, again) && z in PendingIds(peer.kv) && j < |peer.kv[z].originalFiles|
    requires TxnShape(peer.kv[z]) && IsBlockName(peer.kv[z].originalFiles[j])
    requires sent == |CommitsSent(n, peer.kv, ids, order)| && peer1 == Exec(peer, CommitsSent(n, peer.kv, ids, order)[..sent])
    requires WholeFile(n, peer, peer.kv[z].originalFiles[j], peer.kv[z].sizes[j], peer.kv[z].offsets[j])
    requires !SteadyFile(n, peer, ids, peer.kv[z].originalFiles[j], peer.kv[z].sizes[j], peer.kv[z].offsets[j])
    ensures Lists(ids, PendingIds(peer1.kv)) && PendingOk(peer1.kv) && z in peer1.kv && peer1.kv[z] == peer.kv[z]
    ensures var txn := peer.kv[z];
            var f := txn.originalFiles[j];
            && f in peer1.disk && 0 !in Window(peer1.disk[f], txn.offsets[j], txn.sizes[j])
            && Window(peer1.disk[f], txn.offsets[j], txn.sizes[j]) != Window(peer.disk[f], txn.offsets[j], txn.sizes[j])
  {
    var txn := peer.kv[z];
    var f, size, off := txn.originalFiles[j], txn.sizes[j], txn.offsets[j];
    hide *;
    AboutParts(n, peer, ids, order, again);
    TempWasRenamed(n, peer, ids, order, again, f, size, off);
    WholeOps(CommitsSent(n, peer.kv, ids, order));
    PeerHalfway(n, peer, ids, order, again, sent);
    PendingKept(peer.kv, peer1.kv, z);
  }

  lemma {:induction false} PendingKept(kv: Kv, kv': Kv, z: string)
    requires Reduced(kv, kv') && z in PendingIds(kv) && PendingOk(kv) && PendingIds(kv') == PendingIds(kv)
    ensures z in kv' && kv'[z] == kv[z] && PendingOk(kv')
  {
  }

  lemma {:induction false} FirstIs(log: seq<Record>, kv: Kv, ids: seq<string>, z: string)
    requires Streamed(log, ids) == [z] && Lists(ids, PendingIds(kv))
    ensures Requested(Summary(log), ids) != [] && Requested(Summary(log), ids)[0] == z && z in PendingIds(kv)
  {
  }

  lemma {:induction false} WholeParts(n: Node, peer: Node, f: string, size: nat, off: nat)
    requires WholeFile(n, peer, f, size, off)
    ensures f in n.disk && f in peer.disk && 0 !in Window(peer.disk[f], off, size)
  {
  }

  lemma {:induction false} TempWasRenamed(n: Node, peer: Node, ids: seq<string>, order: seq<string>, again: seq<string>,
                                          f: string, size: nat, off: nat)
    requires AboutToRecover(n, peer, ids, order, again) && IsBlockName(f)
    requires WholeFile(n, peer, f, size, off) && !SteadyFile(n, peer, ids, f, size, off)
    ensures var d := Exec(peer, CommitsSent(n, peer.kv, ids, order)).disk;
            && f in d && 0 !in Window(d[f], off, size)
            && Window(d[f], off, size) != Window(peer.disk[f], off, size)
  {
    ParsedLogIsSummary(n);
    var ops := CommitsSent(n, peer.kv, ids, order);
    hide Exec, CommitsSent, Summary, Renames, Sane, LogOk, ParsedLog, Lists, PendingOk;
    SentIsCommitLike(n, peer.kv, ids, order);
    SentMovesFile(n, peer.kv, ids, order, f);
    assert ops[..|ops|] == ops;
    CellTwice(peer.kv, peer.kv, peer, ops, |ops|, ops, f);
  }

  lemma {:induction false} DifferentFiles(s: Pair, r: Pair, d: Disk, e: Disk, f: string)
    requires SameBlocks(s.self.disk, d) && SameBlocks(r.self.disk, e) && IsBlockName(f)
    requires f in d && f in e && d[f] != e[f]
    ensures !SameOutcome(s, r)
  {
  }

  ghost predicate WholeFiles(n: Node, peer: Node, ids: seq<string>) {
    forall z :: z in Streamed(n.log, ids) && z in peer.kv ==>
      && Streamable(peer.disk, peer.kv[z])
      && forall j :: 0 <= j < |peer.kv[z].originalFiles| ==>
           WholeFile(n, peer, peer.kv[z].originalFiles[j], peer.kv[z].sizes[j], peer.kv[z].offsets[j])
  }

  /** For data without zero bytes: recovery may be interrupted anywhere exactly when it is steady. */
  lemma {:induction false} IdempotentExactly(n: Node, peer: Node, ids: seq<string>, order: seq<string>, again: seq<string>,
                                             beyond: nat -> Bytes, beyond': nat -> Bytes)
    requires AboutToRecover(n, peer, ids, order, again) && WholeFiles(n, peer, ids)
    ensures (forall k :: SameOutcome(Repeated(n, peer, ids, order, again, beyond, beyond', k), Recovered(n, peer, ids, order, beyond)))
            <==> Steady(n, peer, ids)
  {
    hide AboutToRecover, SameOutcome, Repeated, Recovered, SteadyFile, WholeFile, Streamable, Requested, Summary, RepairSteps, ParsedLog;
    if Steady(n, peer, ids) {
      forall k: nat
        ensures SameOutcome(Repeated(n, peer, ids, order, again, beyond, beyond', k), Recovered(n, peer, ids, order, beyond))
      {
        RecoveryIsIdempotent(n, peer, ids, order, again, beyond, beyond', k);
      }
    } else {
      var z, j :| z in Streamed(n.log, ids) && z in peer.kv && 0 <= j < |peer.kv[z].originalFiles| && TxnShape(peer.kv[z])
                  && !SteadyFile(n, peer, ids, peer.kv[z].originalFiles[j], peer.kv[z].sizes[j], peer.kv[z].offsets[j]);
      UnsteadyFileDiffers(n, peer, ids, order, again, beyond, beyond', z, j);
    }
  }
}
