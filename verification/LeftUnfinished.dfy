/** Which writes a log leaves at REPL_INIT, so that the next recovery sends their commits again. */
module LeftUnfinished {
  import opened Storage
  import opened WriteAheadLog
  import opened LogParser
  import opened Nodes
  import opened RecoverySafety
  import opened WriteAheadAgreement
  import opened PrimaryRecovery

  predicate Finished(id: string, t: InFlight) {
    t.taken == |Program(id, t)|
  }

  /** All staged and prepared on both servers, and then not committed on the backup, for whatever reason. */
  predicate CommitFailed(t: InFlight) {
    Stageable(t.d, t.ps) == |t.ps| && t.prepare == OK && t.commit != OK
  }

  lemma {:induction false} StateByRecords(log: seq<Record>, id: string)
    ensures StateOf(log, id) == StateOf(RecordsOf(log, id), id)
  {
    if log != [] {
      var init, r := log[..|log| - 1], log[|log| - 1];
      StateByRecords(init, id);
      OneMoreOwn(log, id);
      if r.id == id {
        MoreRecordsEntry(RecordsOf(init, id), r, id);
      }
    }
  }

  lemma {:induction false} NamesByRecords(log: seq<Record>, id: string)
    ensures NamesOf(log, id) == NamesOf(RecordsOf(log, id), id)
    ensures id in Ids(log) <==> RecordsOf(log, id) != []
  {
    if log != [] {
      var init, r := log[..|log| - 1], log[|log| - 1];
      NamesByRecords(init, id);
      OneMoreOwn(log, id);
      OneMoreId(log);
      if r.id == id {
        MoreRecordsEntry(RecordsOf(init, id), r, id);
      }
      hide RecordsOf, Ids, NamesIn;
    }
  }

  lemma {:induction false} OneMoreOwn(log: seq<Record>, id: string)
    requires log != []
    ensures var init, r := log[..|log| - 1], log[|log| - 1];
            RecordsOf(log, id) == if r.id == id then RecordsOf(init, id) + [r] else RecordsOf(init, id)
  {
  }

  lemma {:induction false} OneMoreId(log: seq<Record>)
    requires log != []
    ensures Ids(log) == Ids(log[..|log| - 1]) + {log[|log| - 1].id}
  {
    assert log == log[..|log| - 1] + [log[|log| - 1]];
  }

  /** An id's entry in the parsed log depends on its own records only. */
  lemma {:induction false} OwnRecordsDecide(log: seq<Record>, id: string)
    ensures StateOf(log, id) == StateOf(RecordsOf(log, id), id) && NamesOf(log, id) == NamesOf(RecordsOf(log, id), id)
    ensures id in Ids(log) <==> RecordsOf(log, id) != []
  {
    StateByRecords(log, id);
    NamesByRecords(log, id);
  }

  function FinalRecords(id: string, t: InFlight): seq<Record> {
    var s, i := Start(id, Movs(t.ps)), ReplInit(id);
    if Stageable(t.d, t.ps) < |t.ps| then []
    else match t.prepare
         case UNAVAILABLE => [s, Pending(id)]
         case OTHER => [s, Abort(id)]
         case OK =>
           match t.commit
           case OK => [s, i, Commit(id)]
           case UNAVAILABLE => [s, i, Pending(id)]
           case OTHER => [s, i]
  }

  lemma {:induction false} ViewWhenFinished(s: Busy, id: string)
    requires Tracked(s, id) && id in s.inFlight && Finished(id, s.inFlight[id])
    ensures ViewOf(s.node, id) == RunView(UNKNOWN, Core(Program(id, s.inFlight[id])))
  {
    var t := s.inFlight[id];
    var ops := Program(id, t);
    assert ops[..|ops|] == ops;
    hide WriteOps, RunView, Core, WriteCore;
    CoreOfWrite(t.d, id, t.ps, t.prepare, t.commit);
    CoreDecidesView(UNKNOWN, ops);
  }

  lemma {:induction false} RecordsWhenFinished(s: Busy, id: string)
    requires Tracked(s, id) && id in s.inFlight && Finished(id, s.inFlight[id])
    ensures RecordsOf(s.node.log, id) == FinalRecords(id, s.inFlight[id])
  {
    var t := s.inFlight[id];
    ViewWhenFinished(s, id);
    CoreOfWrite(t.d, id, t.ps, t.prepare, t.commit);
    if Stageable(t.d, t.ps) < |t.ps| {
      hide WriteOps, Core, WriteCore, Tracked, Finished, Stageable;
    } else {
      hide WriteOps, RunView, Core, Movs, ViewAfter, WriteCore, FinalRecords, Tracked, Finished, Stageable;
      var core := WriteCore(id, t.ps, t.prepare, t.commit);
      assert core[..|core|] == core;
      ViewOfCore(id, t.ps, t.prepare, t.commit, |core|);
      ViewAtEnd(id, t);
    }
  }

  lemma {:induction false} ViewAtEnd(id: string, t: InFlight)
    requires Stageable(t.d, t.ps) == |t.ps|
    ensures var core := WriteCore(id, t.ps, t.prepare, t.commit);
            ViewAfter(id, Movs(t.ps), t.prepare, t.commit, |core|).records == FinalRecords(id, t)
  {
    hide Movs, Txn;
  }

  lemma {:induction false} OneRecordEntry(r: Record, id: string)
    requires r.id == id
    ensures StateOf([r], id) == if r.Pending? then START else StateIn(r)
    ensures NamesOf([r], id) == NamesIn(r)
  {
    assert [r][..0] == [];
  }

  lemma {:induction false} MoreRecordsEntry(rs: seq<Record>, r: Record, id: string)
    requires r.id == id
    ensures StateOf(rs + [r], id) == if r.Pending? then StateOf(rs, id) else StateIn(r)
    ensures NamesOf(rs + [r], id) == NamesOf(rs, id) + NamesIn(r)
  {
    assert (rs + [r])[..|rs|] == rs;
  }

  lemma {:induction false} FinalEntry(id: string, t: InFlight)
    ensures StateOf(FinalRecords(id, t), id) == RPC_INIT <==> CommitFailed(t)
    ensures CommitFailed(t) ==>
              NamesOf(FinalRecords(id, t), id)
              == Flatten(Movs(t.ps)) + if t.commit == UNAVAILABLE then [id, STATE_PENDING_REPLICATION] else []
  {
    var s, i := Start(id, Movs(t.ps)), ReplInit(id);
    hide StateOf, NamesOf, Movs, Flatten;
    if Stageable(t.d, t.ps) == |t.ps| {
      assert [s] + [i] == [s, i];
      OneRecordEntry(s, id);
      MoreRecordsEntry([s], i, id);
      MoreRecordsEntry([s], Pending(id), id);
      MoreRecordsEntry([s], Abort(id), id);
      MoreRecordsEntry([s, i], Commit(id), id);
      MoreRecordsEntry([s, i], Pending(id), id);
      ByCases(id, t);
    } else {
      NoEntry(id);
    }
  }

  lemma {:induction false} NoEntry(id: string)
    ensures StateOf([], id) == START
  {
  }

  lemma {:induction false} ByCases(id: string, t: InFlight)
    requires Stageable(t.d, t.ps) == |t.ps|
    ensures var s, i := Start(id, Movs(t.ps)), ReplInit(id);
            FinalRecords(id, t)
            == match t.prepare
               case UNAVAILABLE => [s] + [Pending(id)]
               case OTHER => [s] + [Abort(id)]
               case OK =>
                 match t.commit
                 case OK => [s, i] + [Commit(id)]
                 case UNAVAILABLE => [s, i] + [Pending(id)]
                 case OTHER => [s] + [i]
  {
  }

  /** Over every interleaving of writes since the log was truncated: a finished write is left at REPL_INIT exactly
      when the backup prepared it and its commit failed. */
  lemma {:induction false} LeftAtReplInit(s: Busy, actions: seq<Action>, id: string)
    requires Fresh(s) && id in RunActions(s, actions).inFlight
    requires Finished(id, RunActions(s, actions).inFlight[id])
    ensures var t := RunActions(s, actions);
            StateOf(t.node.log, id) == RPC_INIT <==> CommitFailed(t.inFlight[id])
  {
    var t := RunActions(s, actions);
    FreshIsTracked(s);
    RunKeepsBooks(s, actions);
    assert Tracked(t, id);
    hide RunActions, Tracked, StateOf, FinalRecords, Finished, CommitFailed;
    RecordsWhenFinished(t, id);
    OwnRecordsDecide(t.node.log, id);
    FinalEntry(id, t.inFlight[id]);
  }

  ghost predicate Names(t: InFlight, q: string) {
    exists i :: 0 <= i < |t.ps| && t.ps[i].path == q
  }

  lemma {:induction false} NamesOfPending(id: string, t: InFlight, q: string)
    requires IsId(id) && IsBlockName(q)
    ensures q in Flatten(Movs(t.ps)) <==> Names(t, q)
    ensures q in Flatten(Movs(t.ps)) + [id, STATE_PENDING_REPLICATION] <==> Names(t, q)
  {
    OwnNames(t.ps, q);
    IdIsClean(id);
    hide Flatten, Movs;
  }

  lemma {:induction false} LeavesName(s: Busy, id: string, q: string)
    requires Tracked(s, id) && id in s.inFlight && Finished(id, s.inFlight[id]) && IsId(id) && IsBlockName(q)
    ensures id in Ids(s.node.log) && StateOf(s.node.log, id) == RPC_INIT && q in NamesOf(s.node.log, id)
            <==> CommitFailed(s.inFlight[id]) && Names(s.inFlight[id], q)
  {
    var t := s.inFlight[id];
    RecordsWhenFinished(s, id);
    OwnRecordsDecide(s.node.log, id);
    FinalEntry(id, t);
    NamesOfPending(id, t, q);
    hide Tracked, StateOf, NamesOf, Finished, Flatten, Movs, Names, Ids, RecordsOf;
    assert CommitFailed(t) ==> FinalRecords(id, t) != [];
  }

  lemma {:induction false} CalledState(rs: seq<Record>, id: string)
    requires forall i :: 0 <= i < |rs| ==> rs[i].Start? || rs[i].Commit?
    ensures StateOf(rs, id) != RPC_INIT
  {
    if rs != [] {
      CalledState(rs[..|rs| - 1], id);
    }
  }

  lemma {:induction false} OnlyCalled(s: Busy, id: string)
    requires Tracked(s, id) && id !in s.inFlight
    ensures StateOf(s.node.log, id) != RPC_INIT
  {
    OwnRecordsDecide(s.node.log, id);
    hide StateOf;
    CalledState(RecordsOf(s.node.log, id), id);
  }

  /** So, when no write is under way, recovery will send a commit that renames the temp file of a block exactly when
      since the last truncation some write to that block was prepared on the backup and its commit failed. */
  lemma {:induction false} UnfinishedExactly(s: Busy, actions: seq<Action>, q: string)
    requires Fresh(s) && Quiescent(RunActions(s, actions)) && IsBlockName(q)
    requires forall id :: id in RunActions(s, actions).inFlight ==> IsId(id)
    ensures var t := RunActions(s, actions);
            Unfinished(t.node.log, q)
            <==> exists id :: id in t.inFlight && CommitFailed(t.inFlight[id]) && Names(t.inFlight[id], q)
  {
    var t := RunActions(s, actions);
    FreshIsTracked(s);
    RunKeepsBooks(s, actions);
    hide RunActions, StateOf, NamesOf, Names, Ids, CommitFailed, IsId, RecordsOf, RunView;
    forall id
      ensures id in Ids(t.node.log) && StateOf(t.node.log, id) == RPC_INIT && q in NamesOf(t.node.log, id)
              <==> id in t.inFlight && CommitFailed(t.inFlight[id]) && Names(t.inFlight[id], q)
    {
      assert Tracked(t, id);
      if id in t.inFlight {
        LeavesName(t, id, q);
      } else {
        OnlyCalled(t, id);
      }
    }
    if id :| id in t.inFlight && CommitFailed(t.inFlight[id]) && Names(t.inFlight[id], q) {
      assert id in Ids(t.node.log) && StateOf(t.node.log, id) == RPC_INIT && q in NamesOf(t.node.log, id);
    }
  }
}
