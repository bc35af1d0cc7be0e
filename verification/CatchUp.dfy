/** What a backup that has recovered still lacks: exactly what the first pending transaction does not bring. */
module CatchUp {
  import opened Storage
  import opened AddressTranslation
  import opened WriteAheadLog
  import opened LogParser
  import opened KeyValueStore
  import opened Nodes
  import opened Effects
  import opened BlockServer
  import opened Recovery
  import opened RecoverySafety
  import opened PrimaryRecovery
  import opened Divergence

  /** The only transaction whose writes the primary streams, if any. */
  function Streamed(log: seq<Record>, ids: seq<string>): seq<string> {
    var requested := Requested(Summary(log), ids);
    if requested == [] then [] else [requested[0]]
  }

  ghost predicate InStreamed(kv: Kv, log: seq<Record>, ids: seq<string>, p: string, i: nat) {
    var first := Streamed(log, ids);
    first != [] && first[0] in kv && InTxn(kv[first[0]], p, i)
  }

  // ----- What a zero byte does to a streamed extent -----

  /** The `k`th byte of an extent lies past its first zero, and memory that the backup writes there instead holds
      something else. */
  ghost predicate Spoilt(w: Bytes, k: nat, behind: Bytes) {
    k < |w| && 0 in w[..k] && ByteAt(behind, k - |CString(w)| - 1) != w[k]
  }

  ghost predicate Garbled(d: Disk, txn: TxnData, beyond: nat -> Bytes, p: string, i: nat) {
    p in d && TxnShape(txn)
    && exists j :: 0 <= j < |txn.originalFiles| && txn.originalFiles[j] == p && txn.offsets[j] <= i
                   && Spoilt(Window(d[p], txn.offsets[j], txn.sizes[j]), i - txn.offsets[j], beyond(j))
  }

  ghost predicate Garbles(peer: Node, log: seq<Record>, ids: seq<string>, beyond: nat -> Bytes, p: string, i: nat) {
    var first := Streamed(log, ids);
    first != [] && first[0] in peer.kv && Garbled(peer.disk, peer.kv[first[0]], beyond, p, i)
  }

  /** The transaction's files exist, and hold no zero byte in its extents: the stream carries them whole. */
  ghost predicate Streamable(d: Disk, txn: TxnData) {
    TxnOk(txn)
    && forall j :: 0 <= j < |txn.originalFiles| ==>
         txn.originalFiles[j] in d && 0 !in Window(d[txn.originalFiles[j]], txn.offsets[j], txn.sizes[j])
  }

  lemma {:induction false} ZeroFreeIsNotGarbled(d: Disk, txn: TxnData, beyond: nat -> Bytes, p: string, i: nat)
    requires Streamable(d, txn)
    ensures !Garbled(d, txn, beyond, p, i)
  {
  }

  lemma {:induction false} FirstZero(w: Bytes, k: nat)
    requires k < |w|
    ensures 0 in w[..k] <==> |CString(w)| < k
  {
    var c := CString(w);
    if |c| < k {
      assert w[..k][|c|] == 0;
    } else {
      assert w[..k] == c[..k];
    }
  }

  lemma {:induction false} StreamedByte(w: Bytes, k: nat, behind: Bytes)
    requires k < |w|
    ensures InMemory(CString(w), |w|, behind)[k] != w[k] <==> Spoilt(w, k, behind)
  {
    FirstZero(w, k);
  }

  // ----- The forced writes -----

  /** Every pending transaction is a write to different files. */
  ghost predicate PendingOk(kv: Kv) {
    forall id :: id in PendingIds(kv) ==> TxnOk(kv[id])
  }

  /** Forced writes, each to a file of its own. */
  ghost predicate Forced(ops: seq<Op>) {
    && (forall i :: 0 <= i < |ops| ==> ops[i].PWrite? && IsBlockName(ops[i].path))
    && (forall i, j :: 0 <= i < j < |ops| ==> ops[i].path != ops[j].path)
  }

  lemma {:induction false} ForcedElsewhere(n: Node, ops: seq<Op>, k: nat, p: string)
    requires Forced(ops) && k <= |ops| && forall i :: 0 <= i < k ==> ops[i].path != p
    ensures SameAt(Exec(n, ops[..k]).disk, n.disk, p)
  {
    forall i | 0 <= i < k
      ensures !Touches(ops[..k][i], p)
    {
      assert ops[i].PWrite?;
    }
    ExecFrame(n, ops[..k], p);
  }

  lemma {:induction false} ForcedHere(n: Node, ops: seq<Op>, k: nat, i: nat)
    requires Forced(ops) && i < k <= |ops|
    ensures var d, p := Exec(n, ops[..k]).disk, ops[i].path;
            (p in d <==> p in n.disk) && (p in d ==> d[p] == Overwrite(n.disk[p], ops[i].data, ops[i].off))
  {
    hide Exec, Overwrite;
    var op := ops[k - 1];
    assert ops[..k] == ops[..k - 1] + [op];
    ExecAppend(n, ops[..k - 1], op);
    if i == k - 1 {
      ForcedElsewhere(n, ops, k - 1, op.path);
    } else {
      ForcedHere(n, ops, k - 1, i);
    }
  }

  lemma {:induction false} PullIsForced(m: LogMap, peer: Node, ids: seq<string>, beyond: nat -> Bytes)
    requires Lists(ids, PendingIds(peer.kv)) && PendingOk(peer.kv)
    ensures Forced(PullOps(m, peer, ids, beyond))
  {
  }

  lemma {:induction false} FirstIsPending(m: LogMap, kv: Kv, ids: seq<string>)
    requires Lists(ids, PendingIds(kv)) && Requested(m, ids) != []
    ensures Requested(m, ids)[0] in PendingIds(kv)
  {
  }

  /** A streamed file after the pull: what arrives of its extent lies over what the backup had. */
  lemma {:induction false} PulledFile(m: LogMap, n: Node, peer: Node, ids: seq<string>, beyond: nat -> Bytes, j: nat)
    requires Lists(ids, PendingIds(peer.kv)) && PendingOk(peer.kv) && Requested(m, ids) != []
    requires j < |peer.kv[Requested(m, ids)[0]].originalFiles|
    requires var f := peer.kv[Requested(m, ids)[0]].originalFiles[j]; f in n.disk && f in peer.disk
    ensures var txn := peer.kv[Requested(m, ids)[0]];
            var d, f := Exec(n, PullOps(m, peer, ids, beyond)).disk, txn.originalFiles[j];
            var w := Window(peer.disk[f], txn.offsets[j], txn.sizes[j]);
            && IsBlockName(f) && f in d
            && d[f] == Overwrite(n.disk[f], InMemory(CString(w), |w|, beyond(j)), txn.offsets[j])
  {
    FirstIsPending(m, peer.kv, ids);
    PullIsForced(m, peer, ids, beyond);
    var txn, ops := peer.kv[Requested(m, ids)[0]], PullOps(m, peer, ids, beyond);
    assert TxnOk(txn);
    hide Exec, Requested, Overwrite, InMemory, CString, Forced, Window;
    assert ops[..|ops|] == ops;
    ForcedHere(n, ops, |ops|, j);
  }

  /** A path is at most one of a transaction's files. */
  lemma {:induction false} OnlyFile(d: Disk, txn: TxnData, beyond: nat -> Bytes, j: nat, i: nat)
    requires TxnOk(txn) && j < |txn.originalFiles| && txn.originalFiles[j] in d
    ensures var p, off, size := txn.originalFiles[j], txn.offsets[j], txn.sizes[j];
            && (InTxn(txn, p, i) <==> off <= i < off + size)
            && (Garbled(d, txn, beyond, p, i) <==> off <= i && Spoilt(Window(d[p], off, size), i - off, beyond(j)))
  {
    hide Spoilt, Window, IsBlockName;
    assert forall k :: 0 <= k < |txn.originalFiles| && txn.originalFiles[k] == txn.originalFiles[j] ==> k == j;
  }

  lemma {:induction false} OverwrittenByte(c: Bytes, w: Bytes, off: nat, behind: Bytes, c': Bytes, i: nat)
    requires w == Window(c, off, |w|)
    ensures ByteAt(Overwrite(c', InMemory(CString(w), |w|, behind), off), i) != ByteAt(c, i)
            <==> if off <= i < off + |w| then Spoilt(w, i - off, behind) else ByteAt(c', i) != ByteAt(c, i)
  {
    hide InMemory, CString, Spoilt;
    if off <= i < off + |w| {
      StreamedByte(w, i - off, behind);
    }
  }

  /** After the pull alone: outside the streamed extents nothing changes, inside them what is not garbled is
      the primary's. */
  lemma {:induction false} PulledByte(b: Node, peer: Node, ids: seq<string>, beyond: nat -> Bytes, p: string, i: nat)
    requires Lists(ids, PendingIds(peer.kv)) && PendingOk(peer.kv) && p in b.disk && p in peer.disk
    ensures var e := Exec(b, PullOps(Summary(b.log), peer, ids, beyond)).disk;
            && p in e
            && (ByteAt(e[p], i) != ByteAt(peer.disk[p], i)
                <==> if InStreamed(peer.kv, b.log, ids, p, i) then Garbles(peer, b.log, ids, beyond, p, i)
                     else ByteAt(b.disk[p], i) != ByteAt(peer.disk[p], i))
  {
    var m, requested := Summary(b.log), Requested(Summary(b.log), ids);
    var ops := PullOps(m, peer, ids, beyond);
    hide Exec, Requested, Summary, Overwrite, Lists, CString, InMemory, Spoilt, Forced, Window, PullOps, TxnOk, InTxn, Garbled, ByteAt;
    if requested == [] {
      NothingPulled(m, b, peer, ids, beyond);
    } else {
      FirstIsPending(m, peer.kv, ids);
      var txn := peer.kv[requested[0]];
      TxnOkShape(txn);
      if j :| 0 <= j < |txn.originalFiles| && txn.originalFiles[j] == p {
        var off, size := txn.offsets[j], txn.sizes[j];
        PulledFile(m, b, peer, ids, beyond, j);
        OnlyFile(peer.disk, txn, beyond, j, i);
        OverwrittenByte(peer.disk[p], Window(peer.disk[p], off, size), off, beyond(j), b.disk[p], i);
      } else {
        PulledElsewhere(m, b, peer, ids, beyond, p);
        NotInTxn(txn, p, i);
      }
    }
  }

  lemma {:induction false} TxnOkShape(txn: TxnData)
    requires TxnOk(txn)
    ensures TxnShape(txn)
  {
  }

  lemma {:induction false} NotInTxn(txn: TxnData, p: string, i: nat)
    requires p !in txn.originalFiles
    ensures !InTxn(txn, p, i)
  {
  }

  lemma {:induction false} NothingPulled(m: LogMap, b: Node, peer: Node, ids: seq<string>, beyond: nat -> Bytes)
    requires Requested(m, ids) == []
    ensures Exec(b, PullOps(m, peer, ids, beyond)) == b
  {
    ExecNothing(b, PullOps(m, peer, ids, beyond));
  }

  lemma {:induction false} PulledElsewhere(m: LogMap, b: Node, peer: Node, ids: seq<string>, beyond: nat -> Bytes, p: string)
    requires Lists(ids, PendingIds(peer.kv)) && PendingOk(peer.kv) && Requested(m, ids) != []
    requires p !in peer.kv[Requested(m, ids)[0]].originalFiles
    ensures SameAt(Exec(b, PullOps(m, peer, ids, beyond)).disk, b.disk, p)
  {
    var ops := PullOps(m, peer, ids, beyond);
    FirstIsPending(m, peer.kv, ids);
    PullIsForced(m, peer, ids, beyond);
    hide Exec, Requested, CString, InMemory, Window;
    assert ops[..|ops|] == ops;
    forall i | 0 <= i < |ops|
      ensures ops[i].path != p
    {
      assert ops[i].path == peer.kv[Requested(m, ids)[0]].originalFiles[i];
    }
    ForcedElsewhere(b, ops, |ops|, p);
  }

  /** A recovery's steps on either server. */
  lemma {:induction false} StepsOfRecovery(b: Node, p: Node, ids: seq<string>, order: seq<string>, beyond: nat -> Bytes)
    returns (repairs: seq<Op>)
    requires LogOk(b.log)
    ensures AllSafe(repairs)
    ensures var m, xs := ParsedLog(b), RepairSteps(ParsedLog(b), p, ids, order, beyond);
            && m == Summary(b.log)
            && HereOps(xs) == PullOps(m, p, ids, beyond) + repairs
            && ThereOps(xs) == ThereOps(RepairAll(p.kv, Marked(m, ids), order))
            && HereOps(RecoverOps(m, p, ids, order, beyond)) == HereOps(xs) + [TruncateLog]
            && ThereOps(RecoverOps(m, p, ids, order, beyond)) == ThereOps(xs)
  {
    ParsedLogIsSummary(b);
    var m := Summary(b.log);
    var pull, all := PullOps(m, p, ids, beyond), RepairAll(p.kv, Marked(m, ids), order);
    MarkedNamesOk(b.log, ids);
    RepairAllSafe(p.kv, Marked(m, ids), order);
    hide RepairAll, HereOps, ThereOps, PullOps, Summary, ParsedLog, SafeRepair;
    repairs := HereOps(all);
    SplitSteps(pull, all);
    SplitLast(AllHere(pull) + all, TruncateLog);
  }

  lemma {:induction false} PullThenRepair(b: Node, pull: seq<Op>, repairs: seq<Op>)
    requires AllSafe(repairs) && NoUndos(Exec(b, pull).disk)
    ensures var n := Exec(b, pull + repairs + [TruncateLog]); n.log == [] && SameBlocks(n.disk, Exec(b, pull).disk)
  {
    hide Exec, SafeRepair, SameBlocks, NoUndos;
    ExecConcat(b, pull, repairs);
    SafeRepairsKeepBlocks(Exec(b, pull), repairs);
    ExecAppend(b, pull + repairs, TruncateLog);
  }

  lemma {:induction false} FullRecovery(s: Sys, ids: seq<string>, order: seq<string>, beyond: nat -> Bytes, steps: nat)
    requires Shape(s) && RecoveryRun(s.backup, s.primary, ids, order)
    requires steps >= |RecoverOps(ParsedLog(s.backup), s.primary, ids, order, beyond)|
    ensures var t := AfterRecovery(s, ids, order, beyond, steps);
            && t.primary == s.primary && t.up && t.backup.log == []
            && SameBlocks(t.backup.disk, Exec(s.backup, PullOps(Summary(s.backup.log), s.primary, ids, beyond)).disk)
  {
    var b, p := s.backup, s.primary;
    var xs := RecoverOps(ParsedLog(b), p, ids, order, beyond);
    var pull := PullOps(Summary(b.log), p, ids, beyond);
    assert xs[..Min(steps, |xs|)] == xs;
    BackupRecoverySteps(b, p, ids, order, beyond);
    PullIsOwed(b.log, p, ids, beyond);
    hide Exec, ExecBoth, HereOps, ThereOps, PullOps, RecoverOps, Summary, ParsedLog, RecoveryOp, SafeRepair, SameBlocks;
    var repairs := StepsOfRecovery(b, p, ids, order, beyond);
    ExecBothSplits(Pair(b, p), xs);
    ExecNothing(p, ThereOps(xs));
    RecoveryOpsKeep(b, p.kv, b.log, pull);
    SaneHasNoUndos(Exec(b, pull).disk);
    PullThenRepair(b, pull, repairs);
  }

  lemma {:induction false} KvOkIsPendingOk(kv: Kv)
    requires KvOk(kv)
    ensures PendingOk(kv)
  {
  }

  /** The differences after a backup's recovery are those before it, minus the extents of the one transaction that
      is streamed, plus what a zero byte garbles in these. */
  lemma {:induction false} RecoveryClosesFirst(s: Sys, ids: seq<string>, order: seq<string>, beyond: nat -> Bytes, steps: nat,
                                               p: string, i: nat)
    requires Shape(s) && RecoveryRun(s.backup, s.primary, ids, order)
    requires steps >= |RecoverOps(ParsedLog(s.backup), s.primary, ids, order, beyond)|
    requires IsBlockName(p) && p in s.primary.disk
    ensures var t := AfterRecovery(s, ids, order, beyond, steps);
            Differs(t.primary.disk, t.backup.disk, p, i)
            <==> if InStreamed(s.primary.kv, s.backup.log, ids, p, i) then Garbles(s.primary, s.backup.log, ids, beyond, p, i)
                 else Differs(s.primary.disk, s.backup.disk, p, i)
  {
    FullRecovery(s, ids, order, beyond, steps);
    var t := AfterRecovery(s, ids, order, beyond, steps);
    var e := Exec(s.backup, PullOps(Summary(s.backup.log), s.primary, ids, beyond)).disk;
    hide AfterRecovery, Exec, PullOps, Summary, ParsedLog, Sane, BackupLog, KvOk, InStreamed, Garbles, RecoverOps, Short, TempsSmall;
    KvOkIsPendingOk(s.primary.kv);
    PulledByte(s.backup, s.primary, ids, beyond, p, i);
    assert SameAt(t.backup.disk, e, p);
  }

  /** No byte differs; where a file ends early, zeros are read. */
  ghost predicate Alike(d: Disk, e: Disk) {
    forall p, i: nat :: !Differs(d, e, p, i)
  }

  lemma {:induction false} AlikeWhenWhole(d: Disk, e: Disk)
    requires Whole(d) && Whole(e) && SameNames(d, e)
    ensures SameBlocks(d, e) <==> Alike(d, e)
  {
    if Alike(d, e) {
      forall p | IsBlockName(p)
        ensures SameAt(d, e, p)
      {
        if p in d {
          forall i | 0 <= i < |d[p]|
            ensures ByteAt(d[p], i) == ByteAt(e[p], i)
          {
            assert !Differs(d, e, p, i);
          }
          SameBytes(d[p], e[p]);
        }
      }
    }
    if SameBlocks(d, e) {
      forall p, i: nat
        ensures !Differs(d, e, p, i)
      {
        if IsBlockName(p) {
          assert SameAt(d, e, p);
        }
      }
    }
  }

  /** What the pull leaves unequal: a byte that differs elsewhere, or one that it garbles itself. */
  ghost predicate StillDiffers(s: Sys, ids: seq<string>, beyond: nat -> Bytes, p: string, i: nat) {
    IsBlockName(p) && p in s.primary.disk
    && if InStreamed(s.primary.kv, s.backup.log, ids, p, i) then Garbles(s.primary, s.backup.log, ids, beyond, p, i)
       else Differs(s.primary.disk, s.backup.disk, p, i)
  }

  /** So the replicas become alike exactly when the streamed transaction covers every difference and is not
      garbled on the way. */
  lemma {:induction false} CaughtUpExactly(s: Sys, ids: seq<string>, order: seq<string>, beyond: nat -> Bytes, steps: nat)
    requires Inv(s) && RecoveryRun(s.backup, s.primary, ids, order)
    requires steps >= |RecoverOps(ParsedLog(s.backup), s.primary, ids, order, beyond)|
    ensures var t := AfterRecovery(s, ids, order, beyond, steps);
            && (Alike(t.primary.disk, t.backup.disk) <==> forall p, i: nat :: !StillDiffers(s, ids, beyond, p, i))
            && (Whole(s.primary.disk) && Whole(s.backup.disk) ==>
                  (SameBlocks(t.primary.disk, t.backup.disk) <==> Alike(t.primary.disk, t.backup.disk)))
  {
    var t := AfterRecovery(s, ids, order, beyond, steps);
    RecoveryKeepsShape(s, ids, order, beyond, steps);
    FullRecovery(s, ids, order, beyond, steps);
    hide AfterRecovery, InStreamed, Garbles, Sane, BackupLog, KvOk, AllCovered, SameBlocks, RecoverOps, Exec, ParsedLog, PullOps, TempsSmall, ByteAt;
    if Whole(s.primary.disk) && Whole(s.backup.disk) {
      WholeStaysWhole(s.backup.disk, t.backup.disk);
      AlikeWhenWhole(t.primary.disk, t.backup.disk);
    }
    forall p, i: nat
      ensures Differs(t.primary.disk, t.backup.disk, p, i) <==> StillDiffers(s, ids, beyond, p, i)
    {
      if IsBlockName(p) && p in s.primary.disk {
        RecoveryClosesFirst(s, ids, order, beyond, steps, p, i);
      }
    }
  }

  /** In particular when the backup is owed one transaction at most, without zero bytes. */
  lemma {:induction false} OneOwedIsEnough(s: Sys, ids: seq<string>, order: seq<string>, beyond: nat -> Bytes, steps: nat, id: string)
    requires Inv(s) && RecoveryRun(s.backup, s.primary, ids, order)
    requires steps >= |RecoverOps(ParsedLog(s.backup), s.primary, ids, order, beyond)|
    requires forall z :: Owed(s.primary.kv, s.backup.log, z) ==> z == id && Streamable(s.primary.disk, s.primary.kv[z])
    ensures var t := AfterRecovery(s, ids, order, beyond, steps); Alike(t.primary.disk, t.backup.disk)
  {
    hide AfterRecovery, Differs, InTxn, StateOf, Shape, Requested, Summary, Streamable, RecoverOps, Garbled, Whole, Alike;
    if Streamed(s.backup.log, ids) != [] {
      RequestedIsOwed(s.backup.log, s.primary.kv, ids);
    }
    forall p, i: nat
      ensures !StillDiffers(s, ids, beyond, p, i)
    {
      if InStreamed(s.primary.kv, s.backup.log, ids, p, i) {
        ZeroFreeIsNotGarbled(s.primary.disk, s.primary.kv[id], beyond, p, i);
      } else if Differs(s.primary.disk, s.backup.disk, p, i) {
        WasCovered(s, p, i);
        var z :| Owed(s.primary.kv, s.backup.log, z) && InTxn(s.primary.kv[z], p, i);
        OwedIsRequested(s.backup.log, s.primary.kv, ids, z);
      }
    }
    CaughtUpExactly(s, ids, order, beyond, steps);
  }

  lemma {:induction false} OwedIsRequested(log: seq<Record>, kv: Kv, ids: seq<string>, z: string)
    requires Lists(ids, PendingIds(kv)) && Owed(kv, log, z)
    ensures z in Requested(Summary(log), ids)
  {
    hide StateOf;
    assert z in PendingIds(kv);
    assert NotCommittedHere(Summary(log), z);
    InRequested(Summary(log), ids, z);
  }

  lemma {:induction false} InRequested(m: LogMap, ids: seq<string>, z: string)
    requires z in ids && NotCommittedHere(m, z)
    ensures z in Requested(m, ids)
  {
    if ids[|ids| - 1] != z {
      assert z in ids[..|ids| - 1];
      InRequested(m, ids[..|ids| - 1], z);
    }
  }

  // ----- A primary that starts anew -----

  /** Its files and its log are there, its table is empty. */
  function Restarted(s: Sys): Sys {
    s.(primary := Crashed(s.primary))
  }

  lemma {:induction false} NothingOwed(s: Sys, p: string, i: nat)
    requires s.primary.kv == map[]
    ensures !Covered(s, p, i)
  {
  }

  /** What the primary's restart leaves accounted for: nothing, so there must be no difference. */
  lemma {:induction false} RestartForgets(s: Sys)
    ensures AllCovered(Restarted(s)) <==> Alike(s.primary.disk, s.backup.disk)
  {
    hide Covered, Differs;
    forall p, i: nat
      ensures !Covered(Restarted(s), p, i)
    {
      NothingOwed(Restarted(s), p, i);
    }
  }

  ghost predicate Unnamed(kv: Kv, p: string) {
    forall id :: id in kv ==> p !in kv[id].originalFiles
  }

  ghost predicate LeavesAlone(e: Event, p: string) {
    e.ClientWrite? ==> p !in Paths(PiecesOf(e.address, e.buffer))
  }

  lemma {:induction false} UnnamedIsNotOwed(kv: Kv, log: seq<Record>, p: string, i: nat)
    requires Unnamed(kv, p)
    ensures !OwedByte(kv, log, p, i)
  {
  }

  lemma {:induction false} UnnamedOneMore(kv: Kv, id: string, ps: seq<Piece>, p: string)
    requires Unnamed(kv, p) && p !in Paths(ps)
    ensures Unnamed(kv[id := Txn(ps).(state := PENDING_REPLICATION)], p)
  {
  }

  lemma {:induction false} WriteLeavesApart(s: Sys, id: string, ps: seq<Piece>, fault: Fault, p: string, i: nat)
    requires Shape(s) && PiecesOk(ps) && (ps != [] ==> CleanPieces(ps)) && Unnamed(s.primary.kv, p) && p !in Paths(ps)
    requires IsId(id) && id !in s.primary.kv && id !in Ids(s.backup.log)
    ensures var s' := AfterWrite(s, id, ps, fault);
            Unnamed(s'.primary.kv, p)
            && (Differs(s'.primary.disk, s'.backup.disk, p, i) <==> Differs(s.primary.disk, s.backup.disk, p, i))
  {
    var s' := AfterWrite(s, id, ps, fault);
    if ps == [] || Stageable(s.primary.disk, ps) < |ps| {
      FailedWrite(s, id, ps, fault);
      hide AfterWrite, PiecesOk, Shape, Unnamed, SameBlocks;
      SameBytesDiffer(s, s', p, i);
    } else {
      hide AfterWrite, Shape, Unnamed, Placed, IsId, LogsSame, PiecesOk, Differs, StateOf, BothGrow, Txn;
      CompletedWrite(s, id, ps, fault);
      UnnamedOneMore(s.primary.kv, id, ps, p);
      assert forall j :: 0 <= j < |ps| ==> ps[j].path != p by {
        assert forall j :: 0 <= j < |ps| ==> Paths(ps)[j] == ps[j].path;
      }
      SameDifference(s.primary.disk, s.backup.disk, s'.primary.disk, s'.backup.disk, ps, RenamedThere(s, ps, fault), p, i);
    }
  }

  lemma {:induction false} RecoveryLeavesApart(s: Sys, ids: seq<string>, order: seq<string>, beyond: nat -> Bytes, steps: nat,
                                               p: string, i: nat)
    requires Shape(s) && RecoveryRun(s.backup, s.primary, ids, order) && Unnamed(s.primary.kv, p)
    ensures var s' := AfterRecovery(s, ids, order, beyond, steps);
            s'.primary == s.primary
            && (Differs(s'.primary.disk, s'.backup.disk, p, i) <==> Differs(s.primary.disk, s.backup.disk, p, i))
  {
    RecoveryKeepsShape(s, ids, order, beyond, steps);
    hide AfterRecovery, Sane, BackupLog, KvOk, TempsSmall, Short, OwedByte, RecoverOps, ByteAt, Unnamed;
    UnnamedIsNotOwed(s.primary.kv, s.backup.log, p, i);
    assert !Differs(AfterRecovery(s, ids, order, beyond, steps).backup.disk, s.backup.disk, p, i);
  }

  /** A byte of a file that no transaction of the table names, and no event writes. */
  lemma {:induction false} StaysApart(s: Sys, e: Event, p: string, i: nat)
    requires Shape(s) && Possible(s, e) && Unnamed(s.primary.kv, p) && LeavesAlone(e, p)
    ensures var s' := Step(s, e);
            && Shape(s') && Unnamed(s'.primary.kv, p)
            && (Differs(s'.primary.disk, s'.backup.disk, p, i) <==> Differs(s.primary.disk, s.backup.disk, p, i))
  {
    StepKeepsShape(s, e);
    match e
    case ClientWrite(id, address, buffer, fault) =>
      PiecesAreClean(address, buffer);
      hide AfterWrite, PiecesOf, Shape, Unnamed, IsId, Differs;
      WriteLeavesApart(s, id, PiecesOf(address, buffer), fault, p, i);
    case BackupCrash =>
      hide Shape, Unnamed, Differs;
    case BackupRecover(ids, order, beyond, steps) =>
      hide AfterRecovery, Shape, Unnamed, Differs;
      RecoveryLeavesApart(s, ids, order, beyond, steps, p, i);
  }

  lemma {:induction false} RunStaysApart(s: Sys, es: seq<Event>, p: string, i: nat)
    requires Shape(s) && PossibleRun(s, es) && Unnamed(s.primary.kv, p) && forall k :: 0 <= k < |es| ==> LeavesAlone(es[k], p)
    ensures var t := RunEvents(s, es);
            && Shape(t) && Unnamed(t.primary.kv, p)
            && (Differs(t.primary.disk, t.backup.disk, p, i) <==> Differs(s.primary.disk, s.backup.disk, p, i))
  {
    hide Shape, Step, Possible, Differs, Unnamed, LeavesAlone;
    if es != [] {
      var init := es[..|es| - 1];
      assert forall k :: 0 <= k < |init| ==> init[..k] == es[..k];
      RunStaysApart(s, init, p, i);
      StaysApart(RunEvents(s, init), es[|es| - 1], p, i);
    }
  }

  /** Once the primary has started anew, no recovery of the backup brings it what it lacks: a byte that differs does so
      over every later run, until a client writes to its block again. */
  lemma {:induction false} ForgottenForGood(s: Sys, es: seq<Event>, p: string, i: nat)
    requires Shape(s) && PossibleRun(Restarted(s), es) && forall k :: 0 <= k < |es| ==> LeavesAlone(es[k], p)
    ensures var t := RunEvents(Restarted(s), es);
            Differs(t.primary.disk, t.backup.disk, p, i) <==> Differs(s.primary.disk, s.backup.disk, p, i)
  {
    hide RunEvents, PossibleRun, LeavesAlone, Differs;
    RunStaysApart(Restarted(s), es, p, i);
  }
}
