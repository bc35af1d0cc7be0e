/** Waiting, failing and finishing among concurrent reads and writes of blocks. */
module Progress {
  import opened Storage
  import opened Concurrency
  import opened Linearizability

  // ----- Readers and writers exclude each other -----

  /** The read has the lock of its block. */
  predicate Shares(r: Reader) {
    r.side == Primary && (r.pc == ReadInode || r.pc == ReleaseShared)
  }

  /** The lock table says exactly which reads share a lock, and none of them shares a held one. */
  ghost predicate Sharers(s: System) {
    && (forall i :: 0 <= i < |s.readers| && Shares(s.readers[i]) ==> (s.readers[i].path, i) in s.sharing)
    && (forall x :: x in s.sharing ==>
          x.1 < |s.readers| && x.0 == s.readers[x.1].path && Shares(s.readers[x.1]) && x.0 !in s.holder)
  }

  lemma {:induction false} WriterKeepsSharers(s: System, i: nat)
    requires Sharers(s) && i < |s.writers|
    ensures Sharers(StepWriter(s, i))
  {
    OnlyThatWriter(s, i);
    WriterLocks(s, i);
    hide StepWriter;
  }

  /** What the step of a writer does to the lock table. */
  lemma {:induction false} WriterLocks(s: System, i: nat)
    requires i < |s.writers|
    ensures var s', w := StepWriter(s, i), s.writers[i];
            && s'.sharing == s.sharing
            && (s'.holder.Keys <= s.holder.Keys || (s'.holder == s.holder[w.path := i] && Unshared(s, w.path)))
  {
    hide Unshared, Opened, Written, RenamedTo, VolumeOn;
  }

  lemma {:induction false} ReaderKeepsSharers(s: System, i: nat)
    requires Sharers(s) && i < |s.readers|
    ensures Sharers(StepReader(s, i))
  {
    ReaderFrame(s, i);
    var s', r := StepReader(s, i), s.readers[i];
    forall x | x in s'.sharing
      ensures x.1 < |s'.readers| && x.0 == s'.readers[x.1].path && Shares(s'.readers[x.1]) && x.0 !in s'.holder
    {
      if x in s.sharing && x.1 != i {
        assert s'.readers[x.1] == s.readers[x.1];
      }
    }
  }

  lemma {:induction false} RunKeepsSharers(s: System, cs: seq<Choice>)
    requires Sharers(s)
    ensures Sharers(RunSystem(s, cs))
  {
    hide Sharers, StepWriter, StepReader;
    if cs != [] {
      var t := RunSystem(s, cs[..|cs| - 1]);
      RunKeepsSharers(s, cs[..|cs| - 1]);
      match cs[|cs| - 1]
      case OfWriter(i) =>
        if i < |t.writers| {
          WriterKeepsSharers(t, i);
        }
      case OfReader(i) =>
        if i < |t.readers| {
          ReaderKeepsSharers(t, i);
        }
    }
  }

  lemma {:induction false} LocksReached(s: System, cs: seq<Choice>)
    requires Initial(s)
    ensures LocksHeld(RunSystem(s, cs)) && Sharers(RunSystem(s, cs))
  {
    hide *;
    InitialInv(s);
    RunKeepsSystem(s, cs, Contents(s.primary), Contents(s.backup));
    InvLocks(RunSystem(s, cs), Contents(s.primary), Contents(s.backup));
    NobodyShares(s);
    RunKeepsSharers(s, cs);
  }

  lemma {:induction false} NobodyShares(s: System)
    requires Initial(s)
    ensures Sharers(s)
  {
    hide VolumeOk, IsBlockName;
  }

  lemma {:induction false} InvLocks(s: System, p0: map<string, Bytes>, b0: map<string, Bytes>)
    requires SystemInv(s, p0, b0)
    ensures LocksHeld(s) && SideInv(s, Primary, p0) && SideInv(s, Backup, b0)
  {
    hide LocksHeld, SideInv;
  }

  lemma {:induction false} SideVolume(s: System, side: Side, initial: map<string, Bytes>)
    requires SideInv(s, side, initial)
    ensures VolumeOk(VolumeOn(s, side))
  {
    hide VolumeOk, WriterOk, ReaderOk, Legal, Registers;
  }

  /** While a read of the primary holds the lock of its block, no write to that block is between lock and unlock. */
  lemma {:induction false} ReadersExcludeWriters(s: System, cs: seq<Choice>, i: nat, j: nat)
    requires Initial(s)
    requires var t := RunSystem(s, cs);
             && i < |t.readers| && j < |t.writers| && t.readers[i].path == t.writers[j].path
             && t.readers[i].side == Primary && (t.readers[i].pc == ReadInode || t.readers[i].pc == ReleaseShared)
    ensures var pc := RunSystem(s, cs).writers[j].pc; pc == Acquire || pc == Finished || pc == Failed
  {
    LocksReached(s, cs);
    hide RunSystem;
  }

  // ----- Who fails -----

  /** Operations fail only for want of a block, and pass only where it is. */
  ghost predicate FailuresExplained(s: System, primary: set<string>, backup: set<string>) {
    && (forall i :: 0 <= i < |s.writers| && s.writers[i].pc == Failed ==>
          s.writers[i].path !in primary || s.writers[i].path !in backup)
    && (forall i :: 0 <= i < |s.writers| && s.writers[i].pc == Finished ==>
          s.writers[i].path in primary && s.writers[i].path in backup)
    && (forall i :: 0 <= i < |s.readers| ==>
          var names := if s.readers[i].side == Primary then primary else backup;
          && IsBlockName(s.readers[i].path)
          && (s.readers[i].pc == NotThere ==> s.readers[i].path !in names)
          && (s.readers[i].pc != NotThere && s.readers[i].pc != OpenToRead ==> s.readers[i].path in names))
  }

  lemma {:induction false} WriterEnds(s: System, i: nat)
    requires i < |s.writers|
    ensures var s', w := StepWriter(s, i), s.writers[i];
            && i < |s'.writers|
            && (s'.writers[i].pc == Failed ==>
                  w.pc == Failed || w.path !in s.primary.names || w.path !in s.backup.names)
            && (s'.writers[i].pc == Finished ==> w.pc == Finished || w.pc == Unlock)
  {
    hide Unshared, Opened, Written, RenamedTo;
  }

  lemma {:induction false} NamesAt(s: System, side: Side, names: set<string>, p: string)
    requires NamesKept(s, side, names) && IsBlockName(p)
    ensures p in VolumeOn(s, side).names <==> p in names
  {
  }

  lemma {:induction false} PassedIn(s: System, side: Side, names: set<string>, i: nat)
    requires NamesKept(s, side, names) && i < |s.writers|
    ensures IsBlockName(s.writers[i].path) && (PassedOpen(side, s.writers[i].pc) ==> s.writers[i].path in names)
  {
  }

  lemma {:induction false} WriterExplained(s: System, i: nat, primary: set<string>, backup: set<string>)
    requires FailuresExplained(s, primary, backup) && i < |s.writers|
    requires NamesKept(s, Primary, primary) && NamesKept(s, Backup, backup)
    ensures FailuresExplained(StepWriter(s, i), primary, backup)
  {
    var s', p := StepWriter(s, i), s.writers[i].path;
    OnlyThatWriter(s, i);
    ThatWriter(s, i);
    WriterEnds(s, i);
    PassedIn(s, Primary, primary, i);
    PassedIn(s, Backup, backup, i);
    NamesAt(s, Primary, primary, p);
    NamesAt(s, Backup, backup, p);
    hide StepWriter, NamesKept, IsBlockName;
    forall j | 0 <= j < |s'.writers| && j != i
      ensures s'.writers[j] == s.writers[j]
    {
    }
  }

  lemma {:induction false} ReaderEnds(s: System, i: nat)
    requires i < |s.readers| && VolumeOk(VolumeOn(s, s.readers[i].side))
    ensures var s', r := StepReader(s, i), s.readers[i];
            var names := VolumeOn(s, r.side).names;
            && i < |s'.readers|
            && (s'.readers[i].pc == NotThere ==> r.pc == NotThere || (r.pc == OpenToRead && r.path !in names))
            && (s'.readers[i].pc != NotThere && s'.readers[i].pc != OpenToRead ==>
                  (r.pc != NotThere && r.pc != OpenToRead) || (r.pc == OpenToRead && r.path in names))
  {
  }

  lemma {:induction false} ReaderExplained(s: System, i: nat, primary: set<string>, backup: set<string>)
    requires FailuresExplained(s, primary, backup) && i < |s.readers| && VolumeOk(s.primary) && VolumeOk(s.backup)
    requires NamesKept(s, Primary, primary) && NamesKept(s, Backup, backup)
    ensures FailuresExplained(StepReader(s, i), primary, backup)
  {
    var s', p := StepReader(s, i), s.readers[i].path;
    ReaderFrame(s, i);
    ReaderEnds(s, i);
    NamesAt(s, Primary, primary, p);
    NamesAt(s, Backup, backup, p);
    hide StepReader, NamesKept, IsBlockName, VolumeOk;
  }

  lemma {:induction false} RunExplains(s: System, cs: seq<Choice>)
    requires Initial(s)
    ensures FailuresExplained(RunSystem(s, cs), s.primary.names.Keys, s.backup.names.Keys)
    ensures NamesKept(RunSystem(s, cs), Primary, s.primary.names.Keys)
    ensures NamesKept(RunSystem(s, cs), Backup, s.backup.names.Keys)
  {
    RunKeepsNames(s, cs, Primary, s.primary.names.Keys);
    RunKeepsNames(s, cs, Backup, s.backup.names.Keys);
    hide NamesKept, StepWriter, StepReader;
    if cs != [] {
      var t := RunSystem(s, cs[..|cs| - 1]);
      RunExplains(s, cs[..|cs| - 1]);
      VolumesReached(s, cs[..|cs| - 1]);
      hide FailuresExplained, VolumeOk, Initial;
      match cs[|cs| - 1]
      case OfWriter(i) =>
        if i < |t.writers| {
          WriterExplained(t, i, s.primary.names.Keys, s.backup.names.Keys);
        }
      case OfReader(i) =>
        if i < |t.readers| {
          ReaderExplained(t, i, s.primary.names.Keys, s.backup.names.Keys);
        }
    }
  }

  lemma {:induction false} VolumesReached(s: System, cs: seq<Choice>)
    requires Initial(s)
    ensures VolumeOk(RunSystem(s, cs).primary) && VolumeOk(RunSystem(s, cs).backup)
  {
    InitialInv(s);
    RunKeepsSystem(s, cs, Contents(s.primary), Contents(s.backup));
    hide RunSystem, VolumeOk, LocksHeld, SideInv, SystemInv;
    InvLocks(RunSystem(s, cs), Contents(s.primary), Contents(s.backup));
    SideVolume(RunSystem(s, cs), Primary, Contents(s.primary));
    SideVolume(RunSystem(s, cs), Backup, Contents(s.backup));
  }

  /** A write that has come to its end has finished if both servers have its block, and failed if not; a read that
      has come to its end has returned if its server has the block. */
  lemma {:induction false} EndsExactly(s: System, cs: seq<Choice>)
    requires Initial(s)
    ensures var t := RunSystem(s, cs);
            && |t.writers| == |s.writers| && |t.readers| == |s.readers|
            && (forall i :: 0 <= i < |s.writers| && (t.writers[i].pc == Finished || t.writers[i].pc == Failed) ==>
                  (t.writers[i].pc == Finished <==>
                   s.writers[i].path in s.primary.names && s.writers[i].path in s.backup.names))
            && (forall i :: 0 <= i < |s.readers| && (t.readers[i].pc == Returned || t.readers[i].pc == NotThere) ==>
                  (t.readers[i].pc == Returned <==>
                   s.readers[i].path in if s.readers[i].side == Primary then s.primary.names else s.backup.names))
  {
    InitialRecorded(s, Primary);
    RunRecords(s, cs, Primary);
    RunExplains(s, cs);
    hide RunSystem, Recorded, NamesKept, Initial;
  }

  // ----- Everybody ends -----

  function WriterLeft(pc: WriterPc): nat {
    match pc
    case Acquire => 14
    case OpenBlock(side) => if side == Primary then 13 else 8
    case OpenTempFile(side) => if side == Primary then 12 else 7
    case ReadBlock(side) => if side == Primary then 11 else 6
    case WriteCopy(side) => if side == Primary then 10 else 5
    case Splice(side) => if side == Primary then 9 else 4
    case RenameTemp(side) => if side == Primary then 3 else 2
    case Unlock => 1
    case Finished => 0
    case Failed => 0
  }

  function ReaderLeft(pc: ReaderPc): nat {
    match pc
    case OpenToRead => 4
    case AcquireShared => 3
    case ReadInode => 2
    case ReleaseShared => 1
    case Returned => 0
    case NotThere => 0
  }

  function WritersLeft(ws: seq<Writer>): nat {
    if ws == [] then 0 else WritersLeft(ws[..|ws| - 1]) + WriterLeft(ws[|ws| - 1].pc)
  }

  function ReadersLeft(rs: seq<Reader>): nat {
    if rs == [] then 0 else ReadersLeft(rs[..|rs| - 1]) + ReaderLeft(rs[|rs| - 1].pc)
  }

  /** An upper bound for the steps that are still to come. */
  function StepsLeft(s: System): nat {
    WritersLeft(s.writers) + ReadersLeft(s.readers)
  }

  lemma {:induction false} OneWriterFewer(ws: seq<Writer>, i: nat, w: Writer)
    requires i < |ws| && WriterLeft(w.pc) < WriterLeft(ws[i].pc)
    ensures WritersLeft(ws[i := w]) < WritersLeft(ws)
  {
    hide WriterLeft;
    var init, last := ws[..|ws| - 1], |ws| - 1;
    if i < last {
      OneWriterFewer(init, i, w);
      assert ws[i := w][..last] == init[i := w];
    } else {
      assert ws[i := w][..last] == init;
    }
  }

  lemma {:induction false} OneReaderFewer(rs: seq<Reader>, i: nat, r: Reader)
    requires i < |rs| && ReaderLeft(r.pc) < ReaderLeft(rs[i].pc)
    ensures ReadersLeft(rs[i := r]) < ReadersLeft(rs)
  {
    hide ReaderLeft;
    var init, last := rs[..|rs| - 1], |rs| - 1;
    if i < last {
      OneReaderFewer(init, i, r);
      assert rs[i := r][..last] == init[i := r];
    } else {
      assert rs[i := r][..last] == init;
    }
  }

  lemma {:induction false} WriterAdvances(s: System, i: nat)
    requires i < |s.writers|
    ensures var s', w := StepWriter(s, i), s.writers[i];
            && i < |s'.writers|
            && (s' != s ==> WriterLeft(s'.writers[i].pc) < WriterLeft(w.pc))
            && (Active(w.pc) || (w.pc == Acquire && w.path !in s.holder && Unshared(s, w.path)) ==> s' != s)
  {
    hide Unshared, Opened, Written, RenamedTo, VolumeOn;
    assert WriterLeft(StepWriter(s, i).writers[i].pc) < WriterLeft(s.writers[i].pc) || StepWriter(s, i) == s;
  }

  lemma {:induction false} ReaderAdvances(s: System, i: nat)
    requires i < |s.readers|
    ensures var s', r := StepReader(s, i), s.readers[i];
            && i < |s'.readers| && s'.readers == s.readers[i := s'.readers[i]] && s'.writers == s.writers
            && (s' != s ==> ReaderLeft(s'.readers[i].pc) < ReaderLeft(r.pc))
            && (r.pc != Returned && r.pc != NotThere && (r.pc == AcquireShared && r.side == Primary ==> r.path !in s.holder) ==>
                  s' != s)
  {
    assert ReaderLeft(StepReader(s, i).readers[i].pc) < ReaderLeft(s.readers[i].pc) || StepReader(s, i) == s;
    assert s.readers[i := s.readers[i]] == s.readers;
  }

  /** A step changes nothing, or leaves fewer to come. */
  lemma {:induction false} StepsEnd(s: System, c: Choice)
    ensures AfterChoice(s, c) == s || StepsLeft(AfterChoice(s, c)) < StepsLeft(s)
  {
    hide StepWriter, StepReader, WriterLeft, ReaderLeft, WritersLeft, ReadersLeft;
    match c
    case OfWriter(i) =>
      if i < |s.writers| && StepWriter(s, i) != s {
        WriterAdvances(s, i);
        OnlyThatWriter(s, i);
        OneWriterFewer(s.writers, i, StepWriter(s, i).writers[i]);
      }
    case OfReader(i) =>
      if i < |s.readers| && StepReader(s, i) != s {
        ReaderAdvances(s, i);
        OneReaderFewer(s.readers, i, StepReader(s, i).readers[i]);
      }
  }

  predicate AllEnded(s: System) {
    && (forall i :: 0 <= i < |s.writers| ==> s.writers[i].pc == Finished || s.writers[i].pc == Failed)
    && (forall i :: 0 <= i < |s.readers| ==> s.readers[i].pc == Returned || s.readers[i].pc == NotThere)
  }

  ghost predicate CanAdvance(s: System) {
    exists c :: AfterChoice(s, c) != s
  }

  lemma {:induction false} WriterCan(s: System, i: nat)
    requires i < |s.writers| && StepWriter(s, i) != s
    ensures CanAdvance(s)
  {
    assert AfterChoice(s, OfWriter(i)) != s;
  }

  lemma {:induction false} ReaderCan(s: System, i: nat)
    requires i < |s.readers| && StepReader(s, i) != s
    ensures CanAdvance(s)
  {
    assert AfterChoice(s, OfReader(i)) != s;
  }

  /** Nobody waits for ever: as long as an operation has not come to its end, some operation can go on, and every
      step leaves fewer to come. */
  lemma {:induction false} SomebodyCanGoOn(s: System, cs: seq<Choice>)
    requires Initial(s)
    ensures CanAdvance(RunSystem(s, cs)) <==> !AllEnded(RunSystem(s, cs))
  {
    var t := RunSystem(s, cs);
    LocksReached(s, cs);
    hide RunSystem, CanAdvance, StepWriter, StepReader, Initial;
    if !AllEnded(t) {
      AdvancesUnlessEnded(t);
    } else {
      hide Sharers, LocksHeld;
      NothingAfterTheEnd(t);
    }
  }

  lemma {:induction false} NothingAfterTheEnd(t: System)
    requires AllEnded(t)
    ensures !CanAdvance(t)
  {
  }

  lemma {:induction false} AdvancesUnlessEnded(t: System)
    requires LocksHeld(t) && Sharers(t) && !AllEnded(t)
    ensures CanAdvance(t)
  {
    hide CanAdvance, StepWriter, StepReader;
    if i :| 0 <= i < |t.writers| && Active(t.writers[i].pc) {
      WriterAdvances(t, i);
      WriterCan(t, i);
    } else {
      assert t.holder == map[];
      if i :| 0 <= i < |t.readers| && t.readers[i].pc != Returned && t.readers[i].pc != NotThere {
        ReaderAdvances(t, i);
        ReaderCan(t, i);
      } else {
        var i :| 0 <= i < |t.writers| && t.writers[i].pc == Acquire;
        WriterAdvances(t, i);
        assert Unshared(t, t.writers[i].path);
        WriterCan(t, i);
      }
    }
  }
}
