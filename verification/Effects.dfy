/** What step sequences do to the files, to the log and to the table. */
module Effects {
  import opened Storage
  import opened Nodes

  predicate Touches(op: Op, p: string) {
    match op
    case OpenTemp(path) => path == p
    case CopyInto(path, _) => path == p
    case PWrite(path, _, _) => path == p
    case Move(src, dst) => src == p || dst == p
    case Delete(path) => path == p
    case _ => false
  }

  ghost predicate NoneTouches(ops: seq<Op>, p: string) {
    forall i :: 0 <= i < |ops| ==> !Touches(ops[i], p)
  }

  ghost predicate NoneTouchesABlock(ops: seq<Op>) {
    forall p :: IsBlockName(p) ==> NoneTouches(ops, p)
  }

  lemma {:induction false} ExecConcat(n: Node, a: seq<Op>, b: seq<Op>)
    ensures Exec(n, a + b) == Exec(Exec(n, a), b)
  {
    if b == [] {
      assert a + b == a;
    } else {
      assert (a + b)[..|a + b| - 1] == a + b[..|b| - 1];
      ExecConcat(n, a, b[..|b| - 1]);
    }
  }

  lemma {:induction false} ExecOne(n: Node, op: Op)
    ensures Exec(n, [op]) == Apply(n, op)
  {
  }

  lemma {:induction false} ExecAppend(n: Node, ops: seq<Op>, op: Op)
    ensures Exec(n, ops + [op]) == Apply(Exec(n, ops), op)
  {
  }

  lemma {:induction false} ExecFrame(n: Node, ops: seq<Op>, p: string)
    requires NoneTouches(ops, p)
    ensures SameAt(Exec(n, ops).disk, n.disk, p)
  {
    if ops != [] {
      assert !Touches(ops[|ops| - 1], p);
      ExecFrame(n, ops[..|ops| - 1], p);
    }
  }

  lemma {:induction false} QuietOpsKeepBlocks(n: Node, ops: seq<Op>)
    requires NoneTouchesABlock(ops)
    ensures SameBlocks(Exec(n, ops).disk, n.disk)
  {
    forall p | IsBlockName(p)
      ensures SameAt(Exec(n, ops).disk, n.disk, p)
    {
      ExecFrame(n, ops, p);
    }
  }

  // ----- Pieces -----

  ghost predicate PiecesOk(ps: seq<Piece>) {
    && (forall i :: 0 <= i < |ps| ==> IsBlockName(ps[i].path) && ps[i].data != [])
    && (forall i :: 0 <= i < |ps| ==> ps[i].off + |ps[i].data| <= BLOCK_SIZE)
    && (forall i, j :: 0 <= i < j < |ps| ==> ps[i].path != ps[j].path)
  }

  ghost predicate Present(d: Disk, ps: seq<Piece>) {
    forall i :: 0 <= i < |ps| ==> ps[i].path in d
  }

  /** Whatever the temp files hold, none of it shows through: each is overwritten as far as it goes. */
  ghost predicate Reusable(d: Disk, ps: seq<Piece>) {
    forall i :: 0 <= i < |ps| && ps[i].path in d ==>
      |d[ps[i].path]| <= BLOCK_SIZE
      && !StaleShowsThrough(StaleOf(d, ps[i].path), d[ps[i].path], ps[i].data, ps[i].off)
  }

  /** A write as its effect on the blocks alone: splice each piece in place. */
  function Install(d: Disk, ps: seq<Piece>): Disk {
    if ps == [] then d
    else
      var e, p := Install(d, ps[..|ps| - 1]), ps[|ps| - 1];
      if p.path in e then e[p.path := Overwrite(e[p.path], p.data, p.off)] else e
  }

  lemma {:induction false} InstallElsewhere(d: Disk, ps: seq<Piece>, p: string)
    requires forall i :: 0 <= i < |ps| ==> ps[i].path != p
    ensures SameAt(Install(d, ps), d, p)
  {
    if ps != [] {
      InstallElsewhere(d, ps[..|ps| - 1], p);
    }
  }

  lemma {:induction false} InstallHere(d: Disk, ps: seq<Piece>, i: nat)
    requires i < |ps| && PiecesOk(ps) && ps[i].path in d
    ensures ps[i].path in Install(d, ps)
    ensures Install(d, ps)[ps[i].path] == Overwrite(d[ps[i].path], ps[i].data, ps[i].off)
  {
    var init := ps[..|ps| - 1];
    if i == |ps| - 1 {
      InstallElsewhere(d, init, ps[i].path);
    } else {
      InstallHere(d, init, i);
      assert init[i] == ps[i] && ps[|ps| - 1].path != ps[i].path;
    }
  }

  // ----- Staging -----

  predicate IsTempOf(path: string, ps: seq<Piece>) {
    exists i :: 0 <= i < |ps| && path == Tmp(ps[i].path)
  }

  predicate OnlyTouchesTemps(op: Op, ps: seq<Piece>) {
    (op.OpenTemp? || op.CopyInto? || op.PWrite?) && IsTempOf(op.path, ps)
  }

  lemma {:induction false} MoreTemps(path: string, ps: seq<Piece>)
    requires ps != [] && IsTempOf(path, ps[..|ps| - 1])
    ensures IsTempOf(path, ps)
  {
  }

  lemma {:induction false} StageOpsTouchTemps(ps: seq<Piece>)
    ensures |StageOps(ps)| == 3 * |ps|
    ensures forall k :: 0 <= k < |StageOps(ps)| ==> OnlyTouchesTemps(StageOps(ps)[k], ps)
  {
    hide IsTempOf;
    if ps != [] {
      var init, last := ps[..|ps| - 1], ps[|ps| - 1];
      StageOpsTouchTemps(init);
      assert IsTempOf(Tmp(last.path), ps) by {
        LastTemp(ps);
      }
      forall k | 0 <= k < |StageOps(ps)|
        ensures OnlyTouchesTemps(StageOps(ps)[k], ps)
      {
        if k < |StageOps(init)| {
          assert OnlyTouchesTemps(StageOps(init)[k], init);
          MoreTemps(StageOps(init)[k].path, ps);
        } else {
          assert StageOps(ps)[k] == StageOne(last)[k - |StageOps(init)|];
        }
      }
    }
  }

  lemma {:induction false} LastTemp(ps: seq<Piece>)
    requires ps != []
    ensures IsTempOf(Tmp(ps[|ps| - 1].path), ps)
  {
  }

  lemma {:induction false} StagingLeaves(n: Node, ps: seq<Piece>, k: nat, p: string)
    requires k <= |StageOps(ps)| && forall i :: 0 <= i < |ps| ==> p != Tmp(ps[i].path)
    ensures SameAt(Exec(n, StageOps(ps)[..k]).disk, n.disk, p)
  {
    StageOpsTouchTemps(ps);
    forall i | 0 <= i < k
      ensures !Touches(StageOps(ps)[..k][i], p)
    {
      assert OnlyTouchesTemps(StageOps(ps)[i], ps);
    }
    ExecFrame(n, StageOps(ps)[..k], p);
  }

  lemma {:induction false} StagingKeepsBlocks(n: Node, ps: seq<Piece>, k: nat)
    requires k <= |StageOps(ps)|
    ensures SameBlocks(Exec(n, StageOps(ps)[..k]).disk, n.disk)
  {
    forall p | IsBlockName(p)
      ensures SameAt(Exec(n, StageOps(ps)[..k]).disk, n.disk, p)
    {
      forall i | 0 <= i < |ps|
        ensures p != Tmp(ps[i].path)
      {
        TmpIsNotABlock(ps[i].path);
      }
      StagingLeaves(n, ps, k, p);
    }
  }

  lemma {:induction false} StageOneEffect(n: Node, p: Piece)
    requires p.path in n.disk && p.path != Tmp(p.path)
    ensures var t := Tmp(p.path);
            var stale := StaleOf(n.disk, p.path);
            && t in Exec(n, StageOne(p)).disk
            && Exec(n, StageOne(p)).disk[t] == Staged(stale, n.disk[p.path], p.data, p.off)
  {
    var a, b, c := StageOne(p)[0], StageOne(p)[1], StageOne(p)[2];
    ExecOne(n, a);
    ExecAppend(n, [a], b);
    ExecAppend(n, [a] + [b], c);
    assert StageOne(p) == [a] + [b] + [c];
  }

  lemma {:induction false} TempsDiffer(ps: seq<Piece>, i: nat, j: nat)
    requires i < j < |ps| && PiecesOk(ps)
    ensures Tmp(ps[i].path) != Tmp(ps[j].path)
  {
    if Tmp(ps[i].path) == Tmp(ps[j].path) {
      TmpInjective(ps[i].path, ps[j].path);
    }
  }

  ghost predicate StagedAt(d: Disk, d0: Disk, p: Piece)
    requires p.path in d0
  {
    Tmp(p.path) in d && d[Tmp(p.path)] == Overwrite(d0[p.path], p.data, p.off)
  }

  /** What a server stages for a piece, leftovers of the temp file included. */
  function StagedContent(d: Disk, p: Piece): Bytes
    requires p.path in d
  {
    Staged(StaleOf(d, p.path), d[p.path], p.data, p.off)
  }

  lemma {:induction false} LastTempIsStaged(n: Node, ps: seq<Piece>)
    requires ps != [] && PiecesOk(ps) && Present(n.disk, ps)
    ensures var d, p := Exec(n, StageOps(ps)).disk, ps[|ps| - 1];
            Tmp(p.path) in d && d[Tmp(p.path)] == StagedContent(n.disk, p)
  {
    var init, last := ps[..|ps| - 1], ps[|ps| - 1];
    var ops := StageOps(init);
    var n1 := Exec(n, ops);
    ExecConcat(n, ops, StageOne(last));
    assert ops[..|ops|] == ops;
    forall j | 0 <= j < |init|
      ensures Tmp(last.path) != Tmp(init[j].path)
    {
      TempsDiffer(ps, j, |ps| - 1);
    }
    StagingLeaves(n, init, |ops|, Tmp(last.path));
    StagingKeepsBlocks(n, init, |ops|);
    assert SameAt(n1.disk, n.disk, last.path);
    TmpIsNotABlock(last.path);
    StageOneEffect(n1, last);
  }

  /** After staging, every temp file holds what was staged for its piece. */
  lemma {:induction false} StagedFromLeftovers(n: Node, ps: seq<Piece>, i: nat)
    requires i < |ps| && PiecesOk(ps) && Present(n.disk, ps)
    ensures var d, p := Exec(n, StageOps(ps)).disk, ps[i];
            Tmp(p.path) in d && d[Tmp(p.path)] == StagedContent(n.disk, p)
  {
    hide StagedContent;
    if i == |ps| - 1 {
      LastTempIsStaged(n, ps);
    } else {
      var init, last := ps[..|ps| - 1], ps[|ps| - 1];
      StagedFromLeftovers(n, init, i);
      assert init[i] == ps[i];
      TempsDiffer(ps, i, |ps| - 1);
      assert NoneTouches(StageOne(last), Tmp(ps[i].path));
      ExecFrame(Exec(n, StageOps(init)), StageOne(last), Tmp(ps[i].path));
      ExecConcat(n, StageOps(init), StageOne(last));
    }
  }

  /** When no leftover shows through, that is the block with the piece spliced in. */
  lemma {:induction false} StagedTemps(n: Node, ps: seq<Piece>, i: nat)
    requires i < |ps| && PiecesOk(ps) && Present(n.disk, ps) && Reusable(n.disk, ps)
    ensures StagedAt(Exec(n, StageOps(ps)).disk, n.disk, ps[i])
  {
    hide Exec, StageOps, Staged, StaleShowsThrough;
    var p := ps[i];
    StagedFromLeftovers(n, ps, i);
    StagedExact(StaleOf(n.disk, p.path), n.disk[p.path], p.data, p.off);
  }

  // ----- Renames -----

  lemma {:induction false} LastMove(n: Node, names: seq<string>, k: nat)
    requires 0 < k <= |names|
    ensures Exec(n, MoveOps(names)[..k])
            == Apply(Exec(n, MoveOps(names)[..k - 1]), Move(Tmp(names[k - 1]), names[k - 1]))
  {
    var moves := MoveOps(names);
    assert moves[..k][..k - 1] == moves[..k - 1] && moves[..k][k - 1] == moves[k - 1];
  }

  lemma {:induction false} MovesAt(n: Node, ps: seq<Piece>, k: nat, i: nat)
    requires k <= |ps| && i < |ps| && PiecesOk(ps)
    ensures var d := Exec(n, MoveOps(Paths(ps))[..k]).disk;
            if i < k && Tmp(ps[i].path) in n.disk
            then ps[i].path in d && d[ps[i].path] == n.disk[Tmp(ps[i].path)] && Tmp(ps[i].path) !in d
            else SameAt(d, n.disk, ps[i].path) && SameAt(d, n.disk, Tmp(ps[i].path))
  {
    hide Exec, MoveOps, Tmp;
    if k == 0 {
      ExecNothing(n, MoveOps(Paths(ps))[..0]);
    } else {
      LastMove(n, Paths(ps), k);
      MovesAt(n, ps, k - 1, i);
      TmpIsNotABlock(ps[k - 1].path);
      TmpIsNotABlock(ps[i].path);
      if i < k - 1 {
        TempsDiffer(ps, i, k - 1);
      } else if k - 1 < i {
        TempsDiffer(ps, k - 1, i);
      }
    }
  }

  lemma {:induction false} ExecNothing(n: Node, ops: seq<Op>)
    requires ops == []
    ensures Exec(n, ops) == n
  {
  }

  lemma {:induction false} MovesElsewhere(n: Node, names: seq<string>, k: nat, p: string)
    requires k <= |names| && forall i :: 0 <= i < |names| ==> p != names[i] && p != Tmp(names[i])
    ensures SameAt(Exec(n, MoveOps(names)[..k]).disk, n.disk, p)
  {
    ExecFrame(n, MoveOps(names)[..k], p);
  }

  lemma {:induction false} MoveInstalls(d0: Disk, n: Node, ps: seq<Piece>, k: nat, i: nat)
    requires i < |ps| && k <= |ps| && PiecesOk(ps) && Present(d0, ps)
    requires SameAt(n.disk, d0, ps[i].path) && StagedAt(n.disk, d0, ps[i])
    ensures SameAt(Exec(n, MoveOps(Paths(ps))[..k]).disk, Install(d0, ps[..k]), ps[i].path)
  {
    hide Exec, Overwrite, MoveOps;
    MovesAt(n, ps, k, i);
    if i < k {
      assert PiecesOk(ps[..k]) && ps[..k][i] == ps[i];
      InstallHere(d0, ps[..k], i);
    } else {
      InstallElsewhere(d0, ps[..k], ps[i].path);
    }
  }

  lemma {:induction false} MovesSpare(d0: Disk, n: Node, ps: seq<Piece>, k: nat, p: string)
    requires k <= |ps| && IsBlockName(p) && SameAt(n.disk, d0, p)
    requires forall i :: 0 <= i < |ps| ==> ps[i].path != p
    ensures SameAt(Exec(n, MoveOps(Paths(ps))[..k]).disk, Install(d0, ps[..k]), p)
  {
    hide Exec, Overwrite, MoveOps;
    forall i | 0 <= i < |Paths(ps)|
      ensures p != Tmp(Paths(ps)[i])
    {
      TmpIsNotABlock(Paths(ps)[i]);
    }
    MovesElsewhere(n, Paths(ps), k, p);
    InstallElsewhere(d0, ps[..k], p);
  }

  /** Renaming the first `k` staged pieces installs exactly those. */
  lemma {:induction false} MovesInstall(d0: Disk, n: Node, ps: seq<Piece>, k: nat)
    requires k <= |ps| && PiecesOk(ps) && Present(d0, ps) && SameBlocks(n.disk, d0)
    requires forall i :: 0 <= i < |ps| ==> StagedAt(n.disk, d0, ps[i])
    ensures SameBlocks(Exec(n, MoveOps(Paths(ps))[..k]).disk, Install(d0, ps[..k]))
  {
    hide Exec, Install, MoveOps, StagedAt;
    forall p | IsBlockName(p)
      ensures SameAt(Exec(n, MoveOps(Paths(ps))[..k]).disk, Install(d0, ps[..k]), p)
    {
      assert SameAt(n.disk, d0, p);
      if i :| 0 <= i < |ps| && ps[i].path == p {
        MoveInstalls(d0, n, ps, k, i);
      } else {
        MovesSpare(d0, n, ps, k, p);
      }
    }
  }

  /** Renaming again, after the temps are gone, changes no block. */
  lemma {:induction false} MovesWithoutTemps(n: Node, ps: seq<Piece>, k: nat)
    requires k <= |ps| && PiecesOk(ps) && forall i :: 0 <= i < |ps| ==> Tmp(ps[i].path) !in n.disk
    ensures Exec(n, MoveOps(Paths(ps))[..k]).disk == n.disk
  {
    if k > 0 {
      LastMove(n, Paths(ps), k);
      MovesWithoutTemps(n, ps, k - 1);
    }
  }
}
