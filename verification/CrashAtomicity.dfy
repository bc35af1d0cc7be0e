/** Cut at any step, a server's block files are each entirely old or entirely new. */
module CrashAtomicity {
  import opened Storage
  import opened WriteAheadLog
  import opened Nodes
  import opened Effects

  lemma {:induction false} ExecPrefix(n: Node, a: seq<Op>, b: seq<Op>, k: nat)
    requires k <= |a + b|
    ensures Exec(n, (a + b)[..k]) == if k <= |a| then Exec(n, a[..k]) else Exec(Exec(n, a), b[..k - |a|])
  {
    if k <= |a| {
      assert (a + b)[..k] == a[..k];
    } else {
      assert (a + b)[..k] == a + b[..k - |a|];
      ExecConcat(n, a, b[..k - |a|]);
    }
  }

  lemma {:induction false} QuietPrefix(n: Node, ops: seq<Op>, k: nat)
    requires NoneTouchesABlock(ops) && k <= |ops|
    ensures SameBlocks(Exec(n, ops[..k]).disk, n.disk)
  {
    forall p | IsBlockName(p)
      ensures NoneTouches(ops[..k], p)
    {
      assert NoneTouches(ops, p);
    }
    QuietOpsKeepBlocks(n, ops[..k]);
  }

  lemma {:induction false} SameBlocksTrans(a: Disk, b: Disk, c: Disk)
    requires SameBlocks(a, b) && SameBlocks(b, c)
    ensures SameBlocks(a, c)
  {
  }

  /** `Prepare`, cut anywhere, changes no block. */
  lemma {:induction false} PreparePrefix(n: Node, id: string, ps: seq<Piece>, k: nat)
    requires k <= |PrepareOps(id, ps)|
    ensures |PrepareOps(id, ps)| == 3 * |ps| + 2
    ensures SameBlocks(Exec(n, PrepareOps(id, ps)[..k]).disk, n.disk)
  {
    hide Exec, Apply;
    var a, b := StageOps(ps), [Append(Start(id, Movs(ps))), KvAdd(id, Txn(ps))];
    StageOpsTouchTemps(ps);
    ExecPrefix(n, a, b, k);
    if k <= |a| {
      StagingKeepsBlocks(n, ps, k);
    } else {
      assert a[..|a|] == a;
      StagingKeepsBlocks(n, ps, |a|);
      QuietPrefix(Exec(n, a), b, k - |a|);
      SameBlocksTrans(Exec(n, PrepareOps(id, ps)[..k]).disk, Exec(n, a).disk, n.disk);
    }
  }

  /** A server that holds a transaction's new contents in its temp files. */
  ghost predicate Prepared(d: Disk, d0: Disk, ps: seq<Piece>)
    requires Present(d0, ps)
  {
    SameBlocks(d, d0) && forall i :: 0 <= i < |ps| ==> StagedAt(d, d0, ps[i])
  }

  lemma {:induction false} PrepareStages(n: Node, id: string, ps: seq<Piece>)
    requires PiecesOk(ps) && Present(n.disk, ps) && Reusable(n.disk, ps)
    ensures Prepared(Exec(n, PrepareOps(id, ps)).disk, n.disk, ps)
    ensures Exec(n, PrepareOps(id, ps)).disk == Exec(n, StageOps(ps)).disk
  {
    hide Exec, Apply, SameBlocks, StagedAt, Reusable;
    var a := StageOps(ps);
    RecordKeepsDisk(n, a, Start(id, Movs(ps)), KvAdd(id, Txn(ps)));
    forall i | 0 <= i < |ps|
      ensures StagedAt(Exec(n, a).disk, n.disk, ps[i])
    {
      StagedTemps(n, ps, i);
    }
    assert a[..|a|] == a;
    StagingKeepsBlocks(n, ps, |a|);
  }

  lemma {:induction false} TempsAreGone(n: Node, ps: seq<Piece>)
    requires PiecesOk(ps) && forall i :: 0 <= i < |ps| ==> Tmp(ps[i].path) in n.disk
    ensures forall i :: 0 <= i < |ps| ==> Tmp(ps[i].path) !in Exec(n, MoveOps(Paths(ps))).disk
  {
    var moves := MoveOps(Paths(ps));
    assert moves[..|ps|] == moves;
    forall i | 0 <= i < |ps|
      ensures Tmp(ps[i].path) !in Exec(n, moves).disk
    {
      MovesAt(n, ps, |ps|, i);
    }
  }

  lemma {:induction false} RecordKeepsDisk(n: Node, ops: seq<Op>, record: Record, last: Op)
    requires last.KvAdd? || last.KvSet? || last.KvDrop?
    ensures Exec(n, ops + [Append(record), last]).disk == Exec(n, ops).disk
  {
    assert ops + [Append(record), last] == ops + [Append(record)] + [last];
    ExecAppend(n, ops, Append(record));
    ExecAppend(n, ops + [Append(record)], last);
  }

  lemma {:induction false} PendingOpsAgain(n: Node, id: string, ps: seq<Piece>, k: nat)
    requires PiecesOk(ps) && forall i :: 0 <= i < |ps| ==> Tmp(ps[i].path) !in n.disk
    requires k <= |PendingOps(id, ps)|
    ensures SameBlocks(Exec(n, PendingOps(id, ps)[..k]).disk, n.disk)
  {
    hide Exec, Apply;
    var a, b := MoveOps(Paths(ps)), [Append(Pending(id)), KvSet(id, PENDING_REPLICATION)];
    ExecPrefix(n, a, b, k);
    MovesWithoutTemps(n, ps, Min(k, |ps|));
    if k > |a| {
      assert a[..|a|] == a;
      assert NoneTouchesABlock(b);
      QuietPrefix(Exec(n, a), b, k - |a|);
    }
  }

  /** Whatever `Commit` returned, `Write` changes no block after its renames. */
  lemma {:induction false} AfterCommitPrefix(n: Node, id: string, ps: seq<Piece>, commit: Status, k: nat)
    requires PiecesOk(ps) && forall i :: 0 <= i < |ps| ==> Tmp(ps[i].path) !in n.disk
    requires k <= |AfterCommit(id, ps, commit)|
    ensures SameBlocks(Exec(n, AfterCommit(id, ps, commit)[..k]).disk, n.disk)
  {
    hide Exec, Apply, PendingOps;
    if commit == UNAVAILABLE {
      PendingOpsAgain(n, id, ps, k);
    } else {
      QuietPrefix(n, AfterCommit(id, ps, commit), k);
    }
  }

  /** Pieces whose rename is among the first `k` steps of `Write`. */
  function Installed(m: nat, prepare: Status, k: nat): (r: nat)
    ensures r <= m
  {
    if k <= 3 * m + 2 || prepare == OTHER then 0 else Min(k - (3 * m + 2), m)
  }

  lemma {:induction false} InstallNothing(d: Disk, ps: seq<Piece>)
    ensures Install(d, ps[..0]) == d
  {
  }

  // ----- Renames, cut anywhere -----

  ghost predicate HasTemps(d: Disk, ps: seq<Piece>) {
    forall i :: 0 <= i < |ps| ==> Tmp(ps[i].path) in d
  }

  /** The first `r` of the temp files in `d0` are in place in `d`; any other block is as it was. */
  ghost predicate InPlace(d0: Disk, d: Disk, ps: seq<Piece>, r: nat, q: string) {
    && (forall i :: 0 <= i < Min(r, |ps|) && ps[i].path == q ==> Tmp(q) in d0 && q in d && d[q] == d0[Tmp(q)])
    && ((forall i :: 0 <= i < Min(r, |ps|) ==> ps[i].path != q) ==> SameAt(d, d0, q))
  }

  lemma {:induction false} InPlaceAlike(d0: Disk, d: Disk, e: Disk, ps: seq<Piece>, r: nat, q: string)
    requires InPlace(d0, d, ps, r, q) && SameBlocks(e, d) && IsBlockName(q)
    ensures InPlace(d0, e, ps, r, q)
  {
    assert SameAt(e, d, q);
  }

  lemma {:induction false} MovesInPlace(n: Node, ps: seq<Piece>, k: nat, q: string)
    requires PiecesOk(ps) && HasTemps(n.disk, ps) && k <= |ps| && IsBlockName(q)
    ensures InPlace(n.disk, Exec(n, MoveOps(Paths(ps))[..k]).disk, ps, k, q)
  {
    hide Exec, MoveOps;
    if i :| 0 <= i < |ps| && ps[i].path == q {
      MovesAt(n, ps, k, i);
    } else {
      forall i | 0 <= i < |Paths(ps)|
        ensures q != Tmp(Paths(ps)[i])
      {
        TmpIsNotABlock(Paths(ps)[i]);
      }
      MovesElsewhere(n, Paths(ps), k, q);
    }
  }

  lemma {:induction false} MovesThenQuiet(n: Node, ps: seq<Piece>, tail: seq<Op>, k: nat, q: string)
    requires PiecesOk(ps) && HasTemps(n.disk, ps) && NoneTouchesABlock(tail) && k <= |ps| + |tail| && IsBlockName(q)
    ensures InPlace(n.disk, Exec(n, (MoveOps(Paths(ps)) + tail)[..k]).disk, ps, k, q)
  {
    hide Exec, HasTemps, PiecesOk;
    var moves := MoveOps(Paths(ps));
    ExecPrefix(n, moves, tail, k);
    MovesInPlace(n, ps, Min(k, |ps|), q);
    if k > |ps| {
      assert moves[..|moves|] == moves;
      QuietPrefix(Exec(n, moves), tail, k - |moves|);
      InPlaceAlike(n.disk, Exec(n, moves).disk, Exec(n, (moves + tail)[..k]).disk, ps, |ps|, q);
    }
  }

  /** `Commit`, cut anywhere, puts a prefix of the staged files in place. */
  lemma {:induction false} CommitPrefix(n: Node, id: string, ps: seq<Piece>, k: nat, q: string)
    requires PiecesOk(ps) && HasTemps(n.disk, ps) && k <= |CommitOps(id, Paths(ps))| && IsBlockName(q)
    ensures InPlace(n.disk, Exec(n, CommitOps(id, Paths(ps))[..k]).disk, ps, k, q)
  {
    hide HasTemps, PiecesOk, InPlace, Exec;
    MovesThenQuiet(n, ps, [Append(Commit(id)), KvDrop(id)], k, q);
  }

  lemma {:induction false} InstallOpsEffect(n: Node, id: string, ps: seq<Piece>, q: string)
    requires PiecesOk(ps) && HasTemps(n.disk, ps) && IsBlockName(q)
    ensures InPlace(n.disk, Exec(n, InstallOps(id, ps)).disk, ps, |ps|, q)
    ensures forall i :: 0 <= i < |ps| ==> Tmp(ps[i].path) !in Exec(n, InstallOps(id, ps)).disk
  {
    hide Exec, Apply, InPlace, MoveOps, Paths;
    RecordKeepsDisk(n, MoveOps(Paths(ps)), ReplInit(id), KvSet(id, RPC_INIT));
    AllMoves(ps);
    MovesInPlace(n, ps, |ps|, q);
    TempsAreGone(n, ps);
  }

  lemma {:induction false} AllMoves(ps: seq<Piece>)
    ensures MoveOps(Paths(ps))[..|ps|] == MoveOps(Paths(ps))
  {
  }

  lemma {:induction false} AfterPreparePrefix(n: Node, id: string, ps: seq<Piece>, prepare: Status, commit: Status, k: nat, q: string)
    requires PiecesOk(ps) && HasTemps(n.disk, ps) && k <= |AfterPrepare(id, ps, prepare, commit)| && IsBlockName(q)
    ensures InPlace(n.disk, Exec(n, AfterPrepare(id, ps, prepare, commit)[..k]).disk, ps, if prepare == OTHER then 0 else k, q)
  {
    hide Exec, Apply, SameBlocks, HasTemps, InPlace, PiecesOk;
    match prepare
    case UNAVAILABLE =>
      MovesThenQuiet(n, ps, [Append(Pending(id)), KvSet(id, PENDING_REPLICATION)], k, q);
    case OTHER =>
      QuietPrefix(n, AfterPrepare(id, ps, prepare, commit), k);
      NothingInPlace(n.disk, ps, q);
      InPlaceAlike(n.disk, n.disk, Exec(n, AfterPrepare(id, ps, prepare, commit)[..k]).disk, ps, 0, q);
    case OK =>
      var a, b := InstallOps(id, ps), AfterCommit(id, ps, commit);
      ExecPrefix(n, a, b, k);
      if k <= |a| {
        MovesThenQuiet(n, ps, [Append(ReplInit(id)), KvSet(id, RPC_INIT)], k, q);
      } else {
        InstallOpsEffect(n, id, ps, q);
        AfterCommitPrefix(Exec(n, a), id, ps, commit, k - |a|);
        InPlaceAlike(n.disk, Exec(n, a).disk, Exec(n, (a + b)[..k]).disk, ps, |ps|, q);
        AllInPlace(n.disk, Exec(n, (a + b)[..k]).disk, ps, k, q);
      }
  }

  lemma {:induction false} NothingInPlace(d: Disk, ps: seq<Piece>, q: string)
    ensures InPlace(d, d, ps, 0, q)
  {
  }

  lemma {:induction false} AllInPlace(d0: Disk, d: Disk, ps: seq<Piece>, k: nat, q: string)
    requires InPlace(d0, d, ps, |ps|, q) && k >= |ps|
    ensures InPlace(d0, d, ps, k, q)
  {
  }

  // ----- Handlers, cut anywhere -----

  /** The first `r` files hold what was staged for them, old leftovers included; any other block is as it was. */
  ghost predicate OldOrStaged(d0: Disk, d: Disk, ps: seq<Piece>, r: nat, q: string) {
    && (forall i :: 0 <= i < Min(r, |ps|) && ps[i].path == q ==>
          q in d0 && q in d && d[q] == StagedContent(d0, ps[i]))
    && ((forall i :: 0 <= i < Min(r, |ps|) ==> ps[i].path != q) ==> SameAt(d, d0, q))
  }

  lemma {:induction false} PrepareLeavesTemps(n: Node, id: string, ps: seq<Piece>)
    requires PiecesOk(ps) && Present(n.disk, ps)
    ensures var d := Exec(n, PrepareOps(id, ps)).disk;
            && SameBlocks(d, n.disk) && HasTemps(d, ps)
            && forall i :: 0 <= i < |ps| ==> Tmp(ps[i].path) in d && d[Tmp(ps[i].path)] == StagedContent(n.disk, ps[i])
  {
    hide Exec, SameBlocks, StagedContent;
    var a := StageOps(ps);
    RecordKeepsDisk(n, a, Start(id, Movs(ps)), KvAdd(id, Txn(ps)));
    forall i | 0 <= i < |ps|
      ensures Tmp(ps[i].path) in Exec(n, a).disk
      ensures Exec(n, a).disk[Tmp(ps[i].path)] == StagedContent(n.disk, ps[i])
    {
      StagedFromLeftovers(n, ps, i);
    }
    assert a[..|a|] == a;
    StagingKeepsBlocks(n, ps, |a|);
  }

  lemma {:induction false} InPlaceIsStaged(n: Node, id: string, ps: seq<Piece>, d: Disk, r: nat, q: string)
    requires PiecesOk(ps) && Present(n.disk, ps) && IsBlockName(q)
    requires InPlace(Exec(n, PrepareOps(id, ps)).disk, d, ps, r, q)
    ensures OldOrStaged(n.disk, d, ps, r, q)
  {
    hide Exec, StagedContent;
    PrepareLeavesTemps(n, id, ps);
    assert SameAt(Exec(n, PrepareOps(id, ps)).disk, n.disk, q);
  }

  lemma {:induction false} QuietIsOld(d0: Disk, d: Disk, ps: seq<Piece>, q: string)
    requires SameBlocks(d, d0) && IsBlockName(q)
    ensures OldOrStaged(d0, d, ps, 0, q)
  {
    assert SameAt(d, d0, q);
  }

  /** The files that `Write` has in place after `k` steps: none of them when one does not exist. */
  function FilesInPlace(d: Disk, ps: seq<Piece>, prepare: Status, k: nat): nat {
    if Stageable(d, ps) < |ps| then 0 else Installed(|ps|, prepare, k)
  }

  /** A crash after any number of `Write`'s steps: whatever the temp files held and whichever files exist, each block
      is entirely what was staged for it, or entirely old. */
  lemma {:induction false} WriteCrashExactly(n: Node, id: string, ps: seq<Piece>, prepare: Status, commit: Status, k: nat, q: string)
    requires PiecesOk(ps) && k <= |WriteOps(n.disk, id, ps, prepare, commit)| && IsBlockName(q)
    ensures OldOrStaged(n.disk, Exec(n, WriteOps(n.disk, id, ps, prepare, commit)[..k]).disk, ps, FilesInPlace(n.disk, ps, prepare, k), q)
  {
    hide Exec, SameBlocks, AfterPrepare, OldOrStaged, InPlace, HasTemps;
    var s := Stageable(n.disk, ps);
    if s < |ps| {
      StagingKeepsBlocks(n, ps[..s], k);
      QuietIsOld(n.disk, Exec(n, StageOps(ps[..s])[..k]).disk, ps, q);
    } else {
      var a, b := PrepareOps(id, ps), AfterPrepare(id, ps, prepare, commit);
      PreparePrefix(n, id, ps, Min(k, |a|));
      ExecPrefix(n, a, b, k);
      if k <= |a| {
        QuietIsOld(n.disk, Exec(n, a[..k]).disk, ps, q);
      } else {
        PrepareLeavesTemps(n, id, ps);
        AfterPreparePrefix(Exec(n, a), id, ps, prepare, commit, k - |a|, q);
        var r := if prepare == OTHER then 0 else k - |a|;
        InPlaceIsStaged(n, id, ps, Exec(n, (a + b)[..k]).disk, r, q);
        SameCount(n.disk, Exec(n, (a + b)[..k]).disk, ps, r, FilesInPlace(n.disk, ps, prepare, k), q);
      }
    }
  }

  lemma {:induction false} SameCount(d0: Disk, d: Disk, ps: seq<Piece>, r: nat, s: nat, q: string)
    requires OldOrStaged(d0, d, ps, r, q) && Min(r, |ps|) == Min(s, |ps|)
    ensures OldOrStaged(d0, d, ps, s, q)
  {
  }

  /** What the backup does for a write: `Prepare`, and `Commit` unless a file was missing. */
  function ReplicaOps(d: Disk, id: string, ps: seq<Piece>): seq<Op> {
    var s := Stageable(d, ps);
    if s < |ps| then StageOps(ps[..s]) else PrepareOps(id, ps) + CommitOps(id, Paths(ps))
  }

  /** The same for the backup, cut anywhere. */
  lemma {:induction false} BackupCrashExactly(n: Node, id: string, ps: seq<Piece>, k: nat, q: string)
    requires PiecesOk(ps) && k <= |ReplicaOps(n.disk, id, ps)| && IsBlockName(q)
    ensures OldOrStaged(n.disk, Exec(n, ReplicaOps(n.disk, id, ps)[..k]).disk, ps, FilesInPlace(n.disk, ps, OK, k), q)
  {
    hide Exec, SameBlocks, CommitOps, OldOrStaged, InPlace, HasTemps;
    var s := Stageable(n.disk, ps);
    if s < |ps| {
      StagingKeepsBlocks(n, ps[..s], k);
      QuietIsOld(n.disk, Exec(n, StageOps(ps[..s])[..k]).disk, ps, q);
    } else {
      var a, b := PrepareOps(id, ps), CommitOps(id, Paths(ps));
      PreparePrefix(n, id, ps, Min(k, |a|));
      ExecPrefix(n, a, b, k);
      if k <= |a| {
        QuietIsOld(n.disk, Exec(n, a[..k]).disk, ps, q);
      } else {
        PrepareLeavesTemps(n, id, ps);
        CommitPrefix(Exec(n, a), id, ps, k - |a|, q);
        InPlaceIsStaged(n, id, ps, Exec(n, (a + b)[..k]).disk, k - |a|, q);
        SameCount(n.disk, Exec(n, (a + b)[..k]).disk, ps, k - |a|, FilesInPlace(n.disk, ps, OK, k), q);
      }
    }
  }

  // ----- When no leftover shows through -----

  lemma {:induction false} StagedIsNew(d: Disk, p: Piece)
    requires p.path in d && |d[p.path]| <= BLOCK_SIZE && p.data != []
    requires !StaleShowsThrough(StaleOf(d, p.path), d[p.path], p.data, p.off)
    ensures StagedContent(d, p) == Overwrite(d[p.path], p.data, p.off)
  {
    hide Staged, StaleShowsThrough, Overwrite;
    StagedExact(StaleOf(d, p.path), d[p.path], p.data, p.off);
  }

  lemma {:induction false} StagedIsInstalled(d0: Disk, d: Disk, ps: seq<Piece>, r: nat, q: string)
    requires PiecesOk(ps) && Present(d0, ps) && Reusable(d0, ps) && r <= |ps| && OldOrStaged(d0, d, ps, r, q)
    ensures SameAt(d, Install(d0, ps[..r]), q)
  {
    hide StagedContent, Overwrite, Install, StaleShowsThrough;
    if i :| 0 <= i < r && ps[i].path == q {
      StagedIsNew(d0, ps[i]);
      assert ps[..r][i] == ps[i];
      InstallHere(d0, ps[..r], i);
    } else {
      InstallElsewhere(d0, ps[..r], q);
    }
  }

  /** A crash after any number of `Write`'s steps leaves a prefix of its pieces installed, and nothing else changed. */
  lemma {:induction false} WriteCrashAtomic(n: Node, id: string, ps: seq<Piece>, prepare: Status, commit: Status, k: nat)
    requires PiecesOk(ps) && Present(n.disk, ps) && Reusable(n.disk, ps)
    requires k <= |WriteOps(n.disk, id, ps, prepare, commit)|
    ensures SameBlocks(Exec(n, WriteOps(n.disk, id, ps, prepare, commit)[..k]).disk,
                       Install(n.disk, ps[..Installed(|ps|, prepare, k)]))
  {
    hide Exec, WriteOps, OldOrStaged, Install, Reusable, PiecesOk;
    var r := Installed(|ps|, prepare, k);
    assert FilesInPlace(n.disk, ps, prepare, k) == r;
    forall q | IsBlockName(q)
      ensures SameAt(Exec(n, WriteOps(n.disk, id, ps, prepare, commit)[..k]).disk, Install(n.disk, ps[..r]), q)
    {
      WriteCrashExactly(n, id, ps, prepare, commit, k, q);
      StagedIsInstalled(n.disk, Exec(n, WriteOps(n.disk, id, ps, prepare, commit)[..k]).disk, ps, r, q);
    }
  }

  /** The same for the backup, cut anywhere in `Prepare` followed by `Commit`. */
  lemma {:induction false} BackupCrashAtomic(n: Node, id: string, ps: seq<Piece>, k: nat)
    requires PiecesOk(ps) && Present(n.disk, ps) && Reusable(n.disk, ps)
    requires k <= |PrepareOps(id, ps) + CommitOps(id, Paths(ps))|
    ensures SameBlocks(Exec(n, (PrepareOps(id, ps) + CommitOps(id, Paths(ps)))[..k]).disk,
                       Install(n.disk, ps[..Installed(|ps|, OK, k)]))
  {
    hide Exec, PrepareOps, CommitOps, OldOrStaged, Install, Reusable, PiecesOk;
    var r, ops := Installed(|ps|, OK, k), PrepareOps(id, ps) + CommitOps(id, Paths(ps));
    assert FilesInPlace(n.disk, ps, OK, k) == r && ReplicaOps(n.disk, id, ps) == ops;
    forall q | IsBlockName(q)
      ensures SameAt(Exec(n, ops[..k]).disk, Install(n.disk, ps[..r]), q)
    {
      BackupCrashExactly(n, id, ps, k, q);
      StagedIsInstalled(n.disk, Exec(n, ops[..k]).disk, ps, r, q);
    }
  }

  /** Read block by block: every file holds its complete old or its complete new contents, and when a
      write spans two blocks the only mixture is the first new and the second old. */
  lemma {:induction false} EveryBlockOldOrNew(d: Disk, ps: seq<Piece>, r: nat, e: Disk, p: string)
    requires PiecesOk(ps) && Present(d, ps) && r <= |ps| && SameBlocks(e, Install(d, ps[..r]))
    requires IsBlockName(p)
    ensures SameAt(e, d, p) || SameAt(e, Install(d, ps), p)
    ensures forall i :: 0 <= i < |ps| && ps[i].path == p ==>
              SameAt(e, if i < r then Install(d, ps) else d, p)
  {
    assert SameAt(e, Install(d, ps[..r]), p);
    if i :| 0 <= i < |ps| && ps[i].path == p {
      InstallHere(d, ps, i);
      if i < r {
        assert ps[..r][i] == ps[i];
        InstallHere(d, ps[..r], i);
      } else {
        InstallElsewhere(d, ps[..r], p);
      }
    } else {
      InstallElsewhere(d, ps[..r], p);
    }
  }
}
