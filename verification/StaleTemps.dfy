/** A write that nothing disturbs, on replicas that agree: leftovers in temp files decide whether they still do. */
module StaleTemps {
  import opened Storage
  import opened WriteAheadLog
  import opened Nodes
  import opened Effects
  import opened CrashAtomicity
  import opened BlockServer
  import opened PrimaryRecovery
  import opened Divergence
  import opened FlatMemory

  /** Staging and renaming: each file ends with what was staged for it, the others are as before. */
  lemma {:induction false} RenamedFromLeftovers(n: Node, id: string, ps: seq<Piece>, p: string)
    requires PiecesOk(ps) && Present(n.disk, ps) && IsBlockName(p)
    ensures var d := Exec(Exec(n, PrepareOps(id, ps)), MoveOps(Paths(ps))).disk;
            && (forall i :: 0 <= i < |ps| && ps[i].path == p ==> p in d && d[p] == StagedContent(n.disk, ps[i]))
            && ((forall i :: 0 <= i < |ps| ==> ps[i].path != p) ==> SameAt(d, n.disk, p))
    ensures forall i :: 0 <= i < |ps| ==> Tmp(ps[i].path) in Exec(n, PrepareOps(id, ps)).disk
  {
    hide Exec, StageOps, MoveOps, StagedContent, Overwrite;
    var n1, moves := Exec(n, PrepareOps(id, ps)), MoveOps(Paths(ps));
    RecordKeepsDisk(n, StageOps(ps), Start(id, Movs(ps)), KvAdd(id, Txn(ps)));
    WholeOps(StageOps(ps));
    MovesLength(ps);
    WholeOps(moves);
    StagingKeepsBlocks(n, ps, |StageOps(ps)|);
    forall i | 0 <= i < |ps|
      ensures Tmp(ps[i].path) in n1.disk
      ensures ps[i].path == p ==> p in Exec(n1, moves).disk && Exec(n1, moves).disk[p] == StagedContent(n.disk, ps[i])
    {
      StagedFromLeftovers(n, ps, i);
      MovesAt(n1, ps, |ps|, i);
    }
    if forall i :: 0 <= i < |ps| ==> ps[i].path != p {
      forall i | 0 <= i < |ps|
        ensures p != Tmp(Paths(ps)[i])
      {
        TmpIsNotABlock(ps[i].path);
      }
      MovesElsewhere(n1, Paths(ps), |ps|, p);
      assert SameAt(n1.disk, n.disk, p);
    }
  }

  /** Both servers' files after the write. */
  lemma {:induction false} UndisturbedDisks(s: Sys, id: string, ps: seq<Piece>)
    requires s.up && ps != [] && PiecesOk(ps) && Present(s.primary.disk, ps) && Present(s.backup.disk, ps)
    ensures var t := AfterWrite(s, id, ps, NoFault);
            && t.primary.disk == Exec(Exec(s.primary, PrepareOps(id, ps)), MoveOps(Paths(ps))).disk
            && t.backup.disk == Exec(Exec(s.backup, PrepareOps(id, ps)), MoveOps(Paths(ps))).disk
            && t.primary == Exec(s.primary, WriteOps(s.primary.disk, id, ps, OK, OK))
  {
    var p, b := s.primary, s.backup;
    UndisturbedStep(s, id, ps);
    hide *;
    RenamedFromLeftovers(p, id, ps, ps[0].path);
    ExecConcat(p, PrepareOps(id, ps), AfterPrepare(id, ps, OK, OK));
    NoTrouble();
    DiskAfterSuccess(Exec(p, PrepareOps(id, ps)), id, ps, OK, OK);
    DiskAfterCommit(Exec(b, PrepareOps(id, ps)), id, Paths(ps));
  }

  lemma {:induction false} NoTrouble()
    ensures Succeeds(OK, OK)
  {
  }

  lemma {:induction false} UndisturbedStep(s: Sys, id: string, ps: seq<Piece>)
    requires s.up && ps != [] && PiecesOk(ps) && Present(s.primary.disk, ps) && Present(s.backup.disk, ps)
    ensures IsBlockName(ps[0].path)
    ensures WriteOps(s.primary.disk, id, ps, OK, OK) == PrepareOps(id, ps) + AfterPrepare(id, ps, OK, OK)
    ensures var t := AfterWrite(s, id, ps, NoFault);
            && t.primary == Exec(s.primary, WriteOps(s.primary.disk, id, ps, OK, OK))
            && t.backup == Exec(Exec(s.backup, PrepareOps(id, ps)), CommitOps(id, Paths(ps)))
  {
    StageableAll(s.primary.disk, ps);
    StageableAll(s.backup.disk, ps);
    StagingOfBlocks(s.backup.disk, ps);
    hide Exec, PrepareOps, CommitOps, AfterPrepare, Paths, Stageable, Staging;
  }

  lemma {:induction false} UndisturbedByStaged(s: Sys, id: string, ps: seq<Piece>)
    requires s.up && ps != [] && PiecesOk(ps) && Present(s.primary.disk, ps) && Present(s.backup.disk, ps)
    requires SameBlocks(s.primary.disk, s.backup.disk)
    ensures var t := AfterWrite(s, id, ps, NoFault);
            SameBlocks(t.primary.disk, t.backup.disk)
            <==> forall i :: 0 <= i < |ps| ==> StagedContent(s.primary.disk, ps[i]) == StagedContent(s.backup.disk, ps[i])
  {
    hide AfterWrite, Exec, PrepareOps, MoveOps, Paths, StagedContent;
    UndisturbedDisks(s, id, ps);
    var t := AfterWrite(s, id, ps, NoFault);
    forall i | 0 <= i < |ps|
      ensures SameAt(t.primary.disk, t.backup.disk, ps[i].path)
              <==> StagedContent(s.primary.disk, ps[i]) == StagedContent(s.backup.disk, ps[i])
    {
      RenamedFromLeftovers(s.primary, id, ps, ps[i].path);
      RenamedFromLeftovers(s.backup, id, ps, ps[i].path);
    }
    forall p | IsBlockName(p) && forall i :: 0 <= i < |ps| ==> ps[i].path != p
      ensures SameAt(t.primary.disk, t.backup.disk, p)
    {
      RenamedFromLeftovers(s.primary, id, ps, p);
      RenamedFromLeftovers(s.backup, id, ps, p);
      assert SameAt(s.primary.disk, s.backup.disk, p);
    }
  }

  // ----- In terms of the leftovers -----

  /** Two leftovers that a write cannot tell apart: neither reaches further than the other past what is laid over
      them, and where they show through they hold the same bytes. */
  ghost predicate ShowAlike(a: Bytes, b: Bytes, original: Bytes, data: Bytes, off: nat) {
    var copied := Min(|original|, BLOCK_SIZE);
    && Max(|a|, Max(copied, off + |data|)) == Max(|b|, Max(copied, off + |data|))
    && forall i :: copied <= i && !(off <= i < off + |data|) ==> ByteAt(a, i) == ByteAt(b, i)
  }

  lemma {:induction false} StagedAlike(a: Bytes, b: Bytes, original: Bytes, data: Bytes, off: nat)
    requires data != []
    ensures Staged(a, original, data, off) == Staged(b, original, data, off) <==> ShowAlike(a, b, original, data, off)
  {
    var x, y := Staged(a, original, data, off), Staged(b, original, data, off);
    hide Staged, ByteAt;
    StagedLength(a, original, data, off);
    StagedLength(b, original, data, off);
    forall i: nat
      ensures ByteAt(x, i) == ByteAt(y, i)
              <==> (Min(|original|, BLOCK_SIZE) <= i && !(off <= i < off + |data|) ==> ByteAt(a, i) == ByteAt(b, i))
    {
      StagedByte(a, original, data, off, i);
      StagedByte(b, original, data, off, i);
    }
    if ShowAlike(a, b, original, data, off) {
      SameBytes(x, y);
    }
    if x == y {
      assert forall i: nat :: ByteAt(x, i) == ByteAt(y, i);
    }
  }

  /** The leftovers of a piece's temp file on both servers are alike to it. */
  ghost predicate LeftoversAlike(d: Disk, e: Disk, p: Piece)
    requires p.path in d
  {
    ShowAlike(StaleOf(d, p.path), StaleOf(e, p.path), d[p.path], p.data, p.off)
  }

  /** Replicas that agree still do after a write that nothing disturbs, exactly when no leftover shows through on one
      and not, or with other bytes, on the other. */
  lemma {:induction false} UndisturbedWriteExactly(s: Sys, id: string, ps: seq<Piece>)
    requires s.up && ps != [] && PiecesOk(ps) && Present(s.primary.disk, ps) && Present(s.backup.disk, ps)
    requires SameBlocks(s.primary.disk, s.backup.disk)
    ensures var t := AfterWrite(s, id, ps, NoFault);
            SameBlocks(t.primary.disk, t.backup.disk)
            <==> forall i :: 0 <= i < |ps| ==> LeftoversAlike(s.primary.disk, s.backup.disk, ps[i])
  {
    hide AfterWrite, Staged, ShowAlike, StaleOf, IsBlockName;
    UndisturbedByStaged(s, id, ps);
    forall i | 0 <= i < |ps|
      ensures StagedContent(s.primary.disk, ps[i]) == StagedContent(s.backup.disk, ps[i])
              <==> LeftoversAlike(s.primary.disk, s.backup.disk, ps[i])
    {
      var d, e, p := s.primary.disk, s.backup.disk, ps[i];
      assert SameAt(d, e, p.path);
      StagedAlike(StaleOf(d, p.path), StaleOf(e, p.path), d[p.path], p.data, p.off);
    }
  }
}
