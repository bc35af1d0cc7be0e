/** Recovery that is cut short any number of times. */
module Interruptions {
  import opened Storage
  import opened WriteAheadLog
  import opened LogParser
  import opened KeyValueStore
  import opened Nodes
  import opened CrashAtomicity
  import opened BlockServer
  import opened Recovery
  import opened RecoverySafety
  import opened PeerCommits
  import opened PrimaryRecovery
  import opened Divergence
  import opened CatchUp
  import opened Idempotence

  /** A run that is cut short: the order of its repairs, the memory behind what it receives, its steps. */
  datatype CutRun = CutRun(order: seq<string>, beyond: nat -> Bytes, steps: nat)

  function AfterCut(n: Node, peer: Node, ids: seq<string>, c: CutRun): Pair {
    Interrupted(n, peer, ids, c.order, c.beyond, c.steps)
  }

  /** One run after another is cut short; the last one is not. */
  function Repeatedly(n: Node, peer: Node, ids: seq<string>, cuts: seq<CutRun>, order: seq<string>, beyond: nat -> Bytes): Pair
    decreases |cuts|
  {
    if cuts == [] then Recovered(n, peer, ids, order, beyond)
    else
      var s := AfterCut(n, peer, ids, cuts[0]);
      Repeatedly(s.self, s.peer, ids, cuts[1..], order, beyond)
  }

  /** Each run parses the same log, in some order, and its memory does not matter. */
  ghost predicate Runs(n: Node, peer: Node, ids: seq<string>, cuts: seq<CutRun>, beyond: nat -> Bytes) {
    forall i :: 0 <= i < |cuts| ==>
      Lists(cuts[i].order, ParsedLog(n).Keys) && SameBeyond(n, peer, ids, cuts[i].beyond, beyond)
  }

  // ----- What a cut leaves as it was -----

  lemma {:induction false} SafeRepairsKeepSane(n: Node, ops: seq<Op>)
    requires AllSafe(ops) && Sane(n.disk)
    ensures Sane(Exec(n, ops).disk)
  {
    if ops != [] {
      SafeRepairsKeepSane(n, ops[..|ops| - 1]);
      assert SafeRepair(ops[|ops| - 1]);
    }
  }

  lemma {:induction false} SelfStaysSane(n: Node, pull: seq<Op>, repairs: seq<Op>, h: nat)
    requires Forced(pull) && AllSafe(repairs) && Sane(n.disk) && h <= |pull + repairs|
    ensures Sane(Exec(n, (pull + repairs)[..h]).disk)
  {
    hide Exec, Forced, SafeRepair, Sane;
    ExecPrefix(n, pull, repairs, h);
    ForcedKeepsSane(n, pull, Min(h, |pull|));
    if h > |pull| {
      assert pull[..|pull|] == pull;
      assert AllSafe(repairs[..h - |pull|]);
      SafeRepairsKeepSane(Exec(n, pull), repairs[..h - |pull|]);
    }
  }

  /** One block on the other server: its temp file is there no more, or nothing has happened to either. */
  lemma {:induction false} PeerCell(n: Node, peer: Node, ids: seq<string>, order: seq<string>, again: seq<string>, j: nat, p: string)
    requires AboutToRecover(n, peer, ids, order, again) && j <= |CommitsSent(n, peer.kv, ids, order)| && IsBlockName(p)
    ensures var peer1 := Exec(peer, CommitsSent(n, peer.kv, ids, order)[..j]);
            Sane(peer1.disk) && (Tmp(p) in peer1.disk ==> Untouched(peer.disk, peer1.disk, p))
  {
    var ops := CommitsSent(n, peer.kv, ids, order);
    hide CommitsSent, Exec, CommitLike, Sane, LogOk, PendingOk, MovesFile, SameAt;
    SentIsCommitLike(n, peer.kv, ids, order);
    assert AllCommitLike(peer.kv, ops[..j]);
    CommitCell(peer.kv, peer, ops[..j], p);
  }

  lemma {:induction false} SteadyFileStays(n: Node, peer: Node, peer1: Node, ids: seq<string>, f: string, size: nat, off: nat)
    requires SteadyFile(n, peer, ids, f, size, off) && Reduced(peer.kv, peer1.kv)
    requires Tmp(f) in peer1.disk ==> Untouched(peer.disk, peer1.disk, f)
    ensures SteadyFile(n, peer1, ids, f, size, off)
  {
    RenamesAlike(peer.kv, peer1.kv, Marked(Summary(n.log), ids), f);
    hide Summary, Marked, Renames;
  }

  lemma {:induction false} SteadyStays(n: Node, peer: Node, ids: seq<string>, order: seq<string>, again: seq<string>, j: nat)
    requires AboutToRecover(n, peer, ids, order, again) && j <= |CommitsSent(n, peer.kv, ids, order)| && Steady(n, peer, ids)
    ensures Steady(n, Exec(peer, CommitsSent(n, peer.kv, ids, order)[..j]), ids)
  {
    var peer1 := Exec(peer, CommitsSent(n, peer.kv, ids, order)[..j]);
    PeerHalfway(n, peer, ids, order, again, j);
    hide CommitsSent, Exec, Sane, Summary, ParsedLog, LogOk, CommitLike, SteadyFile, Requested, Untouched;
    forall z, k | z in Streamed(n.log, ids) && z in peer1.kv && 0 <= k < |peer1.kv[z].originalFiles| && TxnShape(peer1.kv[z])
      ensures SteadyFile(n, peer1, ids, peer1.kv[z].originalFiles[k], peer1.kv[z].sizes[k], peer1.kv[z].offsets[k])
    {
      FirstIsPending(Summary(n.log), peer.kv, ids);
      assert z in PendingIds(peer.kv) && peer1.kv[z] == peer.kv[z] && TxnOk(peer.kv[z]);
      var txn := peer.kv[z];
      PeerCell(n, peer, ids, order, again, j, txn.originalFiles[k]);
      assert SteadyFile(n, peer, ids, txn.originalFiles[k], txn.sizes[k], txn.offsets[k]);
      SteadyFileStays(n, peer, peer1, ids, txn.originalFiles[k], txn.sizes[k], txn.offsets[k]);
    }
  }

  lemma {:induction false} WholeString(c: Bytes, d: Bytes, off: nat, size: nat)
    requires CString(Window(c, off, size)) == CString(Window(d, off, size)) && 0 !in Window(d, off, size)
    ensures 0 !in Window(c, off, size)
  {
  }

  lemma {:induction false} StreamableStays(n: Node, peer: Node, ids: seq<string>, order: seq<string>, again: seq<string>, j: nat)
    requires AboutToRecover(n, peer, ids, order, again) && j <= |CommitsSent(n, peer.kv, ids, order)| && Steady(n, peer, ids)
    requires forall z :: z in Streamed(n.log, ids) && z in peer.kv ==> Streamable(peer.disk, peer.kv[z])
    ensures var peer1 := Exec(peer, CommitsSent(n, peer.kv, ids, order)[..j]);
            forall z :: z in Streamed(n.log, ids) && z in peer1.kv ==> Streamable(peer1.disk, peer1.kv[z])
  {
    var peer1 := Exec(peer, CommitsSent(n, peer.kv, ids, order)[..j]);
    PeerHalfway(n, peer, ids, order, again, j);
    hide CommitsSent, Exec, Sane, Summary, ParsedLog, LogOk, CommitLike, SteadyFile, Requested, Renames, CString, Window;
    forall z | z in Streamed(n.log, ids) && z in peer1.kv
      ensures Streamable(peer1.disk, peer1.kv[z])
    {
      FirstIsPending(Summary(n.log), peer.kv, ids);
      var txn := peer.kv[z];
      assert peer1.kv[z] == txn && Streamable(peer.disk, txn) && TxnOk(txn);
      forall k | 0 <= k < |txn.originalFiles|
        ensures txn.originalFiles[k] in peer1.disk
                && 0 !in Window(peer1.disk[txn.originalFiles[k]], txn.offsets[k], txn.sizes[k])
      {
        var f := txn.originalFiles[k];
        PeerTwice(n, peer, ids, order, again, j, f);
        assert SteadyFile(n, peer, ids, f, txn.sizes[k], txn.offsets[k]);
        SameData(n, peer, ids, peer1, f, txn.sizes[k], txn.offsets[k]);
        WholeString(peer1.disk[f], peer.disk[f], txn.offsets[k], txn.sizes[k]);
      }
    }
  }

  /** After a cut, everything that the next run relies on is as before. */
  lemma {:induction false} ReadyAgain(n: Node, peer: Node, ids: seq<string>, order: seq<string>, c: CutRun)
    requires AboutToRecover(n, peer, ids, c.order, order) && Steady(n, peer, ids)
    ensures var s := AfterCut(n, peer, ids, c);
            && AboutToRecover(s.self, s.peer, ids, order, order) && Steady(s.self, s.peer, ids)
            && ParsedLog(s.self) == ParsedLog(n)
            && forall b, b' :: SameBeyond(n, peer, ids, b, b') ==> SameBeyond(s.self, s.peer, ids, b, b')
  {
    var s := AfterCut(n, peer, ids, c);
    hide *;
    AboutParts(n, peer, ids, c.order, order);
    CutIs(n, peer, ids, c);
    var repairs, h, j, repairs' := RepeatedParts(n, peer, ids, c.order, order, c.beyond, c.beyond, c.steps);
    SelfStaysSane(n, PullOps(Summary(n.log), peer, ids, c.beyond), repairs, h);
    SameLogThen(n, PullOps(Summary(n.log), peer, ids, c.beyond), repairs, h);
    CrashedIs(Exec(n, (PullOps(Summary(n.log), peer, ids, c.beyond) + repairs)[..h]));
    ParsedAlike(n, s.self);
    AnyBlockName();
    PeerCell(n, peer, ids, c.order, order, j, "/0");
    PeerHalfway(n, peer, ids, c.order, order, j);
    PendingStaysOk(peer.kv, s.peer.kv);
    SteadyStays(n, peer, ids, c.order, order, j);
    SteadyByLog(n, s.self, s.peer, ids);
    AboutFrom(s.self, s.peer, ids, order);
    forall b, b' | SameBeyond(n, peer, ids, b, b')
      ensures SameBeyond(s.self, s.peer, ids, b, b')
    {
      if b != b' {
        BeyondMatters(n, peer, ids, b, b');
        StreamableStays(n, peer, ids, c.order, order, j);
      }
      BeyondFrom(n, s.self, s.peer, ids, b, b');
    }
  }

  lemma {:induction false} CutIs(n: Node, peer: Node, ids: seq<string>, c: CutRun)
    ensures AfterCut(n, peer, ids, c) == Interrupted(n, peer, ids, c.order, c.beyond, c.steps)
  {
  }

  lemma {:induction false} AnyBlockName()
    ensures IsBlockName("/0")
  {
  }

  lemma {:induction false} PendingStaysOk(kv: Kv, kv': Kv)
    requires Reduced(kv, kv') && PendingIds(kv') == PendingIds(kv) && PendingOk(kv)
    ensures PendingOk(kv')
  {
    hide TxnOk;
  }

  lemma {:induction false} SteadyByLog(n: Node, n1: Node, peer: Node, ids: seq<string>)
    requires n1.log == n.log && Steady(n, peer, ids)
    ensures Steady(n1, peer, ids)
  {
    hide SteadyFile;
    forall f, size, off
      ensures SteadyFile(n1, peer, ids, f, size, off) <==> SteadyFile(n, peer, ids, f, size, off)
    {
      SteadyFileByLog(n, n1, peer, ids, f, size, off);
    }
  }

  lemma {:induction false} SteadyFileByLog(n: Node, n1: Node, peer: Node, ids: seq<string>, f: string, size: nat, off: nat)
    requires n1.log == n.log
    ensures SteadyFile(n1, peer, ids, f, size, off) <==> SteadyFile(n, peer, ids, f, size, off)
  {
  }

  lemma {:induction false} AboutFrom(n: Node, peer: Node, ids: seq<string>, order: seq<string>)
    requires LogOk(n.log) && Sane(n.disk) && Sane(peer.disk) && PendingOk(peer.kv) && RecoveryRun(n, peer, ids, order)
    ensures AboutToRecover(n, peer, ids, order, order)
  {
    hide LogOk, Sane, PendingOk, ParsedLog;
  }

  lemma {:induction false} BeyondMatters(n: Node, peer: Node, ids: seq<string>, b: nat -> Bytes, b': nat -> Bytes)
    requires SameBeyond(n, peer, ids, b, b') && b != b'
    ensures forall z :: z in Streamed(n.log, ids) && z in peer.kv ==> Streamable(peer.disk, peer.kv[z])
  {
  }

  lemma {:induction false} BeyondFrom(n: Node, n1: Node, peer: Node, ids: seq<string>, b: nat -> Bytes, b': nat -> Bytes)
    requires n1.log == n.log
    requires b == b' || forall z :: z in Streamed(n.log, ids) && z in peer.kv ==> Streamable(peer.disk, peer.kv[z])
    ensures SameBeyond(n1, peer, ids, b, b')
  {
  }

  // ----- Any number of cuts -----

  lemma {:induction false} OutcomeTrans(a: Pair, b: Pair, c: Pair)
    requires SameOutcome(a, b) && SameOutcome(b, c)
    ensures SameOutcome(a, c) && SameOutcome(b, a)
  {
  }

  lemma {:induction false} CutAtOnce(n: Node, peer: Node, ids: seq<string>, order: seq<string>, again: seq<string>,
                                     beyond: nat -> Bytes, beyond': nat -> Bytes)
    ensures Repeated(n, peer, ids, order, again, beyond, beyond', 0) == Recovered(Crashed(n), peer, ids, again, beyond')
  {
    hide Recovered, RepairSteps;
  }

  /** One run's outcome does not depend on the order of its repairs. */
  lemma {:induction false} AnyOrder(n: Node, peer: Node, ids: seq<string>, order: seq<string>, order': seq<string>,
                                    beyond: nat -> Bytes, beyond': nat -> Bytes)
    requires AboutToRecover(n, peer, ids, order, order') && Steady(n, peer, ids) && SameBeyond(n, peer, ids, beyond, beyond')
    ensures SameOutcome(Recovered(n, peer, ids, order, beyond), Recovered(n, peer, ids, order', beyond'))
  {
    var r := Recovered(Crashed(n), peer, ids, order', beyond');
    OtherOrder(n, peer, ids, order, order', beyond');
    hide *;
    CutAtOnce(n, peer, ids, order, order', beyond, beyond');
    CutAtOnce(n, peer, ids, order', order', beyond', beyond');
    RecoveryIsIdempotent(n, peer, ids, order, order', beyond, beyond', 0);
    RecoveryIsIdempotent(n, peer, ids, order', order', beyond', beyond', 0);
    OutcomeTrans(r, Recovered(n, peer, ids, order, beyond), r);
    OutcomeTrans(Recovered(n, peer, ids, order, beyond), r, Recovered(n, peer, ids, order', beyond'));
  }

  lemma {:induction false} OtherOrder(n: Node, peer: Node, ids: seq<string>, order: seq<string>, order': seq<string>, b: nat -> Bytes)
    requires AboutToRecover(n, peer, ids, order, order')
    ensures AboutToRecover(n, peer, ids, order', order') && AboutToRecover(n, peer, ids, order', order) && SameBeyond(n, peer, ids, b, b)
  {
    hide LogOk, Sane, PendingOk, ParsedLog;
  }

  lemma {:induction false} OutcomeRefl(s: Pair)
    ensures SameOutcome(s, s)
  {
  }

  /** However often recovery is cut short before its log is truncated, once it gets through, both servers hold
      the blocks of a single uninterrupted run. */
  lemma {:induction false} ManyInterruptions(n: Node, peer: Node, ids: seq<string>, cuts: seq<CutRun>, order: seq<string>, beyond: nat -> Bytes)
    requires AboutToRecover(n, peer, ids, order, order) && Steady(n, peer, ids) && Runs(n, peer, ids, cuts, beyond)
    ensures SameOutcome(Repeatedly(n, peer, ids, cuts, order, beyond), Recovered(n, peer, ids, order, beyond))
    decreases |cuts|
  {
    if cuts == [] {
      OutcomeRefl(Recovered(n, peer, ids, order, beyond));
    } else {
      var c, s := cuts[0], AfterCut(n, peer, ids, cuts[0]);
      FirstRun(n, peer, ids, cuts, order, beyond);
      hide *;
      ReadyAgain(n, peer, ids, order, c);
      LaterRuns(n, peer, s.self, s.peer, ids, cuts, beyond);
      ManyInterruptions(s.self, s.peer, ids, cuts[1..], order, beyond);
      CutIs(n, peer, ids, c);
      RepeatedIs(n, peer, ids, c.order, order, c.beyond, beyond, c.steps);
      RecoveryIsIdempotent(n, peer, ids, c.order, order, c.beyond, beyond, c.steps);
      AnyOrder(n, peer, ids, c.order, order, c.beyond, beyond);
      CutOff(n, peer, ids, cuts, order, beyond);
      OutcomeTrans(Repeatedly(n, peer, ids, cuts, order, beyond), Recovered(s.self, s.peer, ids, order, beyond),
                   Recovered(n, peer, ids, c.order, c.beyond));
      OutcomeTrans(Repeatedly(n, peer, ids, cuts, order, beyond), Recovered(n, peer, ids, c.order, c.beyond),
                   Recovered(n, peer, ids, order, beyond));
    }
  }

  lemma {:induction false} CutOff(n: Node, peer: Node, ids: seq<string>, cuts: seq<CutRun>, order: seq<string>, beyond: nat -> Bytes)
    requires cuts != []
    ensures var s := AfterCut(n, peer, ids, cuts[0]);
            Repeatedly(n, peer, ids, cuts, order, beyond) == Repeatedly(s.self, s.peer, ids, cuts[1..], order, beyond)
  {
  }

  lemma {:induction false} FirstRun(n: Node, peer: Node, ids: seq<string>, cuts: seq<CutRun>, order: seq<string>, beyond: nat -> Bytes)
    requires AboutToRecover(n, peer, ids, order, order) && Runs(n, peer, ids, cuts, beyond) && cuts != []
    ensures AboutToRecover(n, peer, ids, cuts[0].order, order) && SameBeyond(n, peer, ids, cuts[0].beyond, beyond)
  {
    hide LogOk, Sane, PendingOk, ParsedLog;
  }

  lemma {:induction false} LaterRuns(n: Node, peer: Node, n1: Node, peer1: Node, ids: seq<string>, cuts: seq<CutRun>, beyond: nat -> Bytes)
    requires Runs(n, peer, ids, cuts, beyond) && cuts != [] && ParsedLog(n1) == ParsedLog(n)
    requires forall b, b' :: SameBeyond(n, peer, ids, b, b') ==> SameBeyond(n1, peer1, ids, b, b')
    ensures Runs(n1, peer1, ids, cuts[1..], beyond)
  {
    hide ParsedLog, SameBeyond;
  }
}
