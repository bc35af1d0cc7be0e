/** What the interleavings of block-aligned reads and writes amount to: one register per block on either server. */
module Linearizability {
  import opened Storage
  import opened Concurrency

  // ----- Operations and their events -----

  datatype Actor = TheWriter(i: nat) | TheReader(i: nat)

  function ActorOf(e: Event): Actor {
    match e
    case Wrote(i, _, _) => TheWriter(i)
    case WasRead(i, _, _) => TheReader(i)
  }

  function EventCount(h: seq<Event>, a: Actor): nat {
    if h == [] then 0 else EventCount(h[..|h| - 1], a) + if ActorOf(h[|h| - 1]) == a then 1 else 0
  }

  predicate PastRename(side: Side, pc: WriterPc) {
    pc == Unlock || pc == Finished || (side == Primary && pc == RenameTemp(Backup))
  }

  /** The operation has taken effect on this server: a write has renamed there, a read has opened its block. */
  predicate HasHappened(s: System, side: Side, a: Actor) {
    match a
    case TheWriter(i) => i < |s.writers| && PastRename(side, s.writers[i].pc)
    case TheReader(i) =>
      i < |s.readers| && s.readers[i].side == side && s.readers[i].pc != OpenToRead && s.readers[i].pc != NotThere
  }

  /** The event is one of a real operation: its own block, and for a write its own data. */
  predicate Genuine(s: System, side: Side, e: Event) {
    match e
    case Wrote(i, path, data) => i < |s.writers| && path == s.writers[i].path && data == s.writers[i].data
    case WasRead(i, path, _) => i < |s.readers| && s.readers[i].side == side && path == s.readers[i].path
  }

  /** Each operation that has taken effect has one event, the others have none, and there are no other events. */
  ghost predicate Recorded(s: System, side: Side) {
    && (forall a :: EventCount(HistoryOn(s, side), a) == if HasHappened(s, side, a) then 1 else 0)
    && (forall k :: 0 <= k < |HistoryOn(s, side)| ==> Genuine(s, side, HistoryOn(s, side)[k]))
  }

  lemma {:induction false} CountGrows(h: seq<Event>, e: Event, a: Actor)
    ensures EventCount(h + [e], a) == EventCount(h, a) + if ActorOf(e) == a then 1 else 0
  {
    assert (h + [e])[..|h|] == h;
  }

  lemma {:induction false} CountedOnce(h: seq<Event>, a: Actor, i: nat, j: nat)
    requires i < |h| && j < |h| && ActorOf(h[i]) == a && ActorOf(h[j]) == a
    ensures EventCount(h, a) >= if i == j then 1 else 2
  {
    var init, last := h[..|h| - 1], |h| - 1;
    if i < last && j < last {
      CountedOnce(init, a, i, j);
    } else if i < last {
      CountedOnce(init, a, i, i);
    } else if j < last {
      CountedOnce(init, a, j, j);
    }
  }

  lemma {:induction false} CountedSomewhere(h: seq<Event>, a: Actor) returns (i: nat)
    requires EventCount(h, a) > 0
    ensures i < |h| && ActorOf(h[i]) == a
  {
    if ActorOf(h[|h| - 1]) == a {
      i := |h| - 1;
    } else {
      i := CountedSomewhere(h[..|h| - 1], a);
    }
  }

  // ----- Every step records what it does -----

  /** Paths, data and sides never change. */
  ghost predicate SameOperations(s: System, s': System) {
    && |s'.writers| == |s.writers| && |s'.readers| == |s.readers|
    && (forall i :: 0 <= i < |s.writers| ==>
          s'.writers[i].path == s.writers[i].path && s'.writers[i].data == s.writers[i].data)
    && (forall i :: 0 <= i < |s.readers| ==>
          s'.readers[i].path == s.readers[i].path && s'.readers[i].side == s.readers[i].side)
  }

  /** The step records one event and its operation takes effect, or it does neither. */
  ghost predicate RecordsStep(s: System, s': System, side: Side) {
    var h, h' := HistoryOn(s, side), HistoryOn(s', side);
    || (h' == h && forall a :: HasHappened(s', side, a) == HasHappened(s, side, a))
    || (|h'| == |h| + 1 && h' == h + [h'[|h|]] && Genuine(s, side, h'[|h|])
        && (forall a :: HasHappened(s', side, a) <==> HasHappened(s, side, a) || a == ActorOf(h'[|h|]))
        && !HasHappened(s, side, ActorOf(h'[|h|])))
  }

  lemma {:induction false} OnlyThatWriter(s: System, i: nat)
    requires i < |s.writers|
    ensures var s' := StepWriter(s, i);
            s'.readers == s.readers && |s'.writers| == |s.writers| && s'.writers == s.writers[i := s'.writers[i]]
  {
    hide Unshared, Opened, Written, RenamedTo;
    assert s.writers[i := s.writers[i]] == s.writers;
  }

  lemma {:induction false} ThatWriter(s: System, i: nat)
    requires i < |s.writers|
    ensures var s', w := StepWriter(s, i), s.writers[i];
            i < |s'.writers| && s'.writers[i].path == w.path && s'.writers[i].data == w.data
  {
    hide Unshared, Opened, Written, RenamedTo, VolumeOn;
    match s.writers[i].pc
    case Acquire =>
    case OpenBlock(_) =>
    case OpenTempFile(_) =>
    case ReadBlock(_) =>
    case WriteCopy(_) =>
    case Splice(_) =>
    case _ =>
  }

  lemma {:induction false} ThatWriterPc(s: System, i: nat, side: Side)
    requires i < |s.writers|
    ensures var s', w := StepWriter(s, i), s.writers[i];
            && i < |s'.writers|
            && (PastRename(side, s'.writers[i].pc) <==> PastRename(side, w.pc) || w.pc == RenameTemp(side))
  {
    hide Unshared, Opened, Written, RenamedTo, VolumeOn;
    match s.writers[i].pc
    case Acquire =>
    case OpenBlock(_) =>
    case OpenTempFile(_) =>
    case ReadBlock(_) =>
    case WriteCopy(_) =>
    case Splice(_) =>
    case _ =>
  }

  lemma {:induction false} ThatWriterEvent(s: System, i: nat, side: Side)
    requires i < |s.writers|
    ensures var s', w := StepWriter(s, i), s.writers[i];
            HistoryOn(s', side) == HistoryOn(s, side) + if w.pc == RenameTemp(side) then [Wrote(i, w.path, w.data)] else []
  {
    hide Unshared, Opened, Written, RenamedTo;
    assert HistoryOn(s, side) + [] == HistoryOn(s, side);
  }

  /** The step of a writer, seen from the records. */
  lemma {:induction false} WriterFrame(s: System, i: nat, side: Side)
    requires i < |s.writers|
    ensures var s', w := StepWriter(s, i), s.writers[i];
            && s'.readers == s.readers && |s'.writers| == |s.writers|
            && (forall j :: 0 <= j < |s.writers| && j != i && j < |s'.writers| ==> s'.writers[j] == s.writers[j])
            && i < |s'.writers| && s'.writers[i].path == w.path && s'.writers[i].data == w.data
            && (PastRename(side, s'.writers[i].pc) <==> PastRename(side, w.pc) || w.pc == RenameTemp(side))
            && HistoryOn(s', side) == HistoryOn(s, side) + if w.pc == RenameTemp(side) then [Wrote(i, w.path, w.data)] else []
  {
    hide StepWriter, HistoryOn, PastRename;
    OnlyThatWriter(s, i);
    ThatWriter(s, i);
    ThatWriterPc(s, i, side);
    ThatWriterEvent(s, i, side);
  }

  lemma {:induction false} WriterRecords(s: System, i: nat, side: Side)
    requires i < |s.writers|
    ensures SameOperations(s, StepWriter(s, i)) && RecordsStep(s, StepWriter(s, i), side)
  {
    hide StepWriter, HistoryOn;
    WriterFrame(s, i, side);
    var s' := StepWriter(s, i);
    assert HistoryOn(s, side) + [] == HistoryOn(s, side);
    forall a
      ensures HasHappened(s', side, a) <==> HasHappened(s, side, a) || (s.writers[i].pc == RenameTemp(side) && a == TheWriter(i))
    {
      if a != TheWriter(i) && a.TheWriter? && a.i < |s.writers| {
        assert s'.writers[a.i] == s.writers[a.i];
      }
    }
  }

  lemma {:induction false} ReaderRecords(s: System, i: nat, side: Side)
    requires i < |s.readers|
    ensures SameOperations(s, StepReader(s, i)) && RecordsStep(s, StepReader(s, i), side)
  {
    ReaderFrame(s, i);
    var s', r := StepReader(s, i), s.readers[i];
    var v := VolumeOn(s, r.side);
    if r.pc == OpenToRead && r.path in v.names && v.names[r.path] < |v.files| && r.side == side {
      var e := WasRead(i, r.path, v.files[v.names[r.path]]);
      assert HistoryOn(s', side) == HistoryOn(s, side) + [e];
    }
  }

  lemma {:induction false} ChoiceRecords(s: System, c: Choice, side: Side)
    ensures SameOperations(s, AfterChoice(s, c)) && RecordsStep(s, AfterChoice(s, c), side)
  {
    hide StepWriter, StepReader, RecordsStep;
    match c
    case OfWriter(i) =>
      if i < |s.writers| {
        WriterRecords(s, i, side);
      } else {
        NothingRecorded(s, side);
      }
    case OfReader(i) =>
      if i < |s.readers| {
        ReaderRecords(s, i, side);
      } else {
        NothingRecorded(s, side);
      }
  }

  lemma {:induction false} NothingRecorded(s: System, side: Side)
    ensures RecordsStep(s, s, side)
  {
  }

  lemma {:induction false} StepKeepsRecorded(s: System, s': System, side: Side)
    requires Recorded(s, side) && SameOperations(s, s') && RecordsStep(s, s', side)
    ensures Recorded(s', side)
    ensures HistoryOn(s, side) <= HistoryOn(s', side)
  {
    hide HistoryOn, EventCount, HasHappened;
    var h, h' := HistoryOn(s, side), HistoryOn(s', side);
    if h' != h {
      forall a
        ensures EventCount(h', a) == if HasHappened(s', side, a) then 1 else 0
      {
        CountGrows(h, h'[|h|], a);
      }
    }
  }

  lemma {:induction false} RunRecords(s: System, cs: seq<Choice>, side: Side)
    requires Recorded(s, side)
    ensures Recorded(RunSystem(s, cs), side) && SameOperations(s, RunSystem(s, cs))
    ensures HistoryOn(s, side) <= HistoryOn(RunSystem(s, cs), side)
  {
    hide Recorded, AfterChoice, RecordsStep, HistoryOn;
    if cs != [] {
      var init, c := cs[..|cs| - 1], cs[|cs| - 1];
      RunRecords(s, init, side);
      ChoiceRecords(RunSystem(s, init), c, side);
      StepKeepsRecorded(RunSystem(s, init), AfterChoice(RunSystem(s, init), c), side);
    }
  }

  lemma {:induction false} InitialRecorded(s: System, side: Side)
    requires Initial(s)
    ensures Recorded(s, side)
  {
    hide VolumeOk, Blocks;
  }

  lemma {:induction false} RunSplits(s: System, a: seq<Choice>, b: seq<Choice>)
    ensures RunSystem(s, a + b) == RunSystem(RunSystem(s, a), b)
  {
    hide AfterChoice;
    if b == [] {
      assert a + b == a;
    } else {
      assert (a + b)[..|a + b| - 1] == a + b[..|b| - 1];
      RunSplits(s, a, b[..|b| - 1]);
    }
  }

  // ----- Linearizability -----

  predicate Completed(s: System, side: Side, a: Actor) {
    match a
    case TheWriter(i) => i < |s.writers| && s.writers[i].pc == Finished
    case TheReader(i) => i < |s.readers| && s.readers[i].side == side && s.readers[i].pc == Returned
  }

  predicate NotBegun(s: System, a: Actor) {
    match a
    case TheWriter(i) => i < |s.writers| ==> s.writers[i].pc == Acquire
    case TheReader(i) => i < |s.readers| ==> s.readers[i].pc == OpenToRead
  }

  /** What a returned read says is what its event says. */
  ghost predicate ReadsReturnTheirEvent(s: System, side: Side) {
    forall i :: 0 <= i < |s.readers| && s.readers[i].side == side && s.readers[i].pc == Returned ==>
      WasRead(i, s.readers[i].path, s.readers[i].value) in HistoryOn(s, side)
  }

  /** Each server's history of renames and opens has exactly one event for every operation that took effect and no
      other, it is legal for one register per block, every read returns the value of its event, and the files hold
      what the registers hold: a write takes effect at its rename, a read at its open. */
  lemma {:induction false} BlocksAreRegisters(s: System, cs: seq<Choice>, side: Side)
    requires Initial(s)
    ensures var t := RunSystem(s, cs);
            var v, h, initial := VolumeOn(t, side), HistoryOn(t, side), Contents(VolumeOn(s, side));
            && Recorded(t, side) && SameOperations(s, t)
            && Legal(h, initial) && ReadsReturnTheirEvent(t, side) && Registers(v, h, initial)
  {
    InitialInv(s);
    InitialRecorded(s, side);
    RunRecords(s, cs, side);
    RunKeepsSystem(s, cs, Contents(s.primary), Contents(s.backup));
    var t := RunSystem(s, cs);
    hide RunSystem, Legal, Registers, WriterOk, VolumeOk, Recorded, SameOperations;
    forall i | 0 <= i < |t.readers| && t.readers[i].side == side && t.readers[i].pc == Returned
      ensures WasRead(i, t.readers[i].path, t.readers[i].value) in HistoryOn(t, side)
    {
      assert ReaderOk(VolumeOn(t, side), HistoryOn(t, side), i, t.readers[i]);
    }
  }

  /** Effects keep their order: what has happened at some point comes before what has not. */
  lemma {:induction false} EffectsInOrder(s: System, cs: seq<Choice>, k: nat, side: Side, x: Actor, y: Actor, i: nat, j: nat)
    requires Initial(s) && k <= |cs|
    requires HasHappened(RunSystem(s, cs[..k]), side, x) && !HasHappened(RunSystem(s, cs[..k]), side, y)
    requires var h := HistoryOn(RunSystem(s, cs), side);
             i < |h| && j < |h| && ActorOf(h[i]) == x && ActorOf(h[j]) == y
    ensures i < j
  {
    hide RunSystem, HistoryOn, HasHappened, EventCount, SameOperations, Genuine;
    InitialRecorded(s, side);
    RunRecords(s, cs[..k], side);
    RunRecords(s, cs, side);
    var t := RunSystem(s, cs[..k]);
    RunRecords(t, cs[k..], side);
    RunSplits(s, cs[..k], cs[k..]);
    assert cs[..k] + cs[k..] == cs;
    var early, late := HistoryOn(t, side), HistoryOn(RunSystem(s, cs), side);
    assert EventCount(early, x) == 1 && EventCount(early, y) == 0 && EventCount(late, x) <= 1;
    var a := CountedSomewhere(early, x);
    assert late[a] == early[a];
    CountedOnce(late, x, a, i);
    if j < |early| {
      assert late[j] == early[j];
      CountedOnce(early, y, j, j);
    }
  }

  /** Real-time order: an operation that has completed precedes every operation that has not begun. */
  lemma {:induction false} RealTimeOrder(s: System, cs: seq<Choice>, k: nat, side: Side, x: Actor, y: Actor, i: nat, j: nat)
    requires Initial(s) && k <= |cs|
    requires Completed(RunSystem(s, cs[..k]), side, x) && NotBegun(RunSystem(s, cs[..k]), y)
    requires var h := HistoryOn(RunSystem(s, cs), side);
             i < |h| && j < |h| && ActorOf(h[i]) == x && ActorOf(h[j]) == y
    ensures i < j
  {
    var t := RunSystem(s, cs[..k]);
    assert HasHappened(t, side, x) && !HasHappened(t, side, y);
    hide RunSystem, HistoryOn;
    EffectsInOrder(s, cs, k, side, x, y, i, j);
  }

  // ----- Whose data a register holds -----

  lemma {:induction false} LastApplied(s: System, side: Side, h: seq<Event>, initial: map<string, Bytes>, p: string)
    requires forall k :: 0 <= k < |h| ==> Genuine(s, side, h[k])
    ensures var ws := Applied(h, p);
            if ws == [] then LastWritten(h, initial, p) == if p in initial then initial[p] else []
            else
              && ws[|ws| - 1] < |s.writers| && s.writers[ws[|ws| - 1]].path == p
              && LastWritten(h, initial, p) == s.writers[ws[|ws| - 1]].data
              && Wrote(ws[|ws| - 1], p, LastWritten(h, initial, p)) in h
  {
    hide Applied, LastWritten;
    if h == [] {
      EmptyHistory(initial, p);
    } else {
      var init, e := h[..|h| - 1], h[|h| - 1];
      LastApplied(s, side, init, initial, p);
      assert init + [e] == h && Genuine(s, side, e);
      HistoryGrows(init, e, initial, p);
    }
  }

  lemma {:induction false} EmptyHistory(initial: map<string, Bytes>, p: string)
    ensures Applied([], p) == [] && LastWritten([], initial, p) == if p in initial then initial[p] else []
  {
  }

  /** A register holds the initial block or one write's data, whole: so no read returns a mixture. */
  lemma {:induction false} RegisterIsOneWrite(s: System, cs: seq<Choice>, side: Side, k: nat, path: string)
    requires Initial(s) && k <= |HistoryOn(RunSystem(s, cs), side)|
    ensures var t, initial := RunSystem(s, cs), Contents(VolumeOn(s, side));
            var value := LastWritten(HistoryOn(t, side)[..k], initial, path);
            || value == (if path in initial then initial[path] else [])
            || exists i :: 0 <= i < |t.writers| && t.writers[i].path == path && t.writers[i].data == value
                           && Wrote(i, path, value) in HistoryOn(t, side)[..k]
  {
    hide RunSystem, LastWritten, Applied, HistoryOn, EventCount, HasHappened;
    InitialRecorded(s, side);
    RunRecords(s, cs, side);
    var t := RunSystem(s, cs);
    LastApplied(t, side, HistoryOn(t, side)[..k], Contents(VolumeOn(s, side)), path);
  }

  // ----- Both servers -----

  /** On this side the writer has found its block. */
  predicate PassedOpen(side: Side, pc: WriterPc) {
    match pc
    case Acquire => false
    case OpenBlock(s) => side == Primary && s == Backup
    case OpenTempFile(s) => s == side || side == Primary
    case ReadBlock(s) => s == side || side == Primary
    case WriteCopy(s) => s == side || side == Primary
    case Splice(s) => s == side || side == Primary
    case RenameTemp(_) => true
    case Unlock => true
    case _ => false
  }

  ghost predicate NamesKept(s: System, side: Side, names: set<string>) {
    && (forall p :: IsBlockName(p) ==> (p in VolumeOn(s, side).names <==> p in names))
    && (forall i :: 0 <= i < |s.writers| ==>
          IsBlockName(s.writers[i].path)
          && (PassedOpen(side, s.writers[i].pc) ==> s.writers[i].path in VolumeOn(s, side).names))
  }

  lemma {:induction false} VolumeNames(v: Volume, q: string, p: string)
    requires IsBlockName(q) && IsBlockName(p)
    ensures p in Opened(v, Tmp(q)).names <==> p in v.names
    ensures q in v.names ==> (p in RenamedTo(v, Tmp(q), q).names <==> p in v.names)
    ensures forall ino: nat, data :: Written(v, ino, data).names == v.names
  {
    TmpIsNotABlock(q);
  }

  lemma {:induction false} WriterKeepsNames(s: System, i: nat, side: Side, names: set<string>)
    requires NamesKept(s, side, names) && i < |s.writers|
    ensures NamesKept(StepWriter(s, i), side, names)
  {
    hide StepWriter, IsBlockName, VolumeOn, PassedOpen;
    var s', w := StepWriter(s, i), s.writers[i];
    WriterFrame(s, i, side);
    WriterVolume(s, i, side);
    forall j | 0 <= j < |s'.writers|
      ensures IsBlockName(s'.writers[j].path)
      ensures PassedOpen(side, s'.writers[j].pc) ==> s'.writers[j].path in VolumeOn(s', side).names
    {
      if j != i {
        assert s'.writers[j] == s.writers[j];
      }
    }
  }

  /** The step of a writer, seen from the names of one volume. */
  lemma {:induction false} WriterVolume(s: System, i: nat, side: Side)
    requires i < |s.writers| && IsBlockName(s.writers[i].path)
    requires PassedOpen(side, s.writers[i].pc) ==> s.writers[i].path in VolumeOn(s, side).names
    ensures var s', w := StepWriter(s, i), s.writers[i];
            && (forall p :: IsBlockName(p) ==> (p in VolumeOn(s', side).names <==> p in VolumeOn(s, side).names))
            && i < |s'.writers| && (PassedOpen(side, s'.writers[i].pc) ==> w.path in VolumeOn(s', side).names)
  {
    hide Unshared, Opened, Written, RenamedTo, Tmp, IsBlockName;
    forall p | IsBlockName(p)
      ensures p in VolumeOn(StepWriter(s, i), side).names <==> p in VolumeOn(s, side).names
    {
      VolumeNames(VolumeOn(s, side), s.writers[i].path, p);
    }
  }

  lemma {:induction false} ReaderKeepsNames(s: System, i: nat, side: Side, names: set<string>)
    requires NamesKept(s, side, names) && i < |s.readers|
    ensures NamesKept(StepReader(s, i), side, names)
  {
    ReaderFrame(s, i);
    hide StepReader;
  }

  lemma {:induction false} RunKeepsNames(s: System, cs: seq<Choice>, side: Side, names: set<string>)
    requires NamesKept(s, side, names)
    ensures NamesKept(RunSystem(s, cs), side, names)
  {
    hide NamesKept, StepWriter, StepReader;
    if cs != [] {
      var t := RunSystem(s, cs[..|cs| - 1]);
      RunKeepsNames(s, cs[..|cs| - 1], side, names);
      match cs[|cs| - 1]
      case OfWriter(i) =>
        if i < |t.writers| {
          WriterKeepsNames(t, i, side, names);
        }
      case OfReader(i) =>
        if i < |t.readers| {
          ReaderKeepsNames(t, i, side, names);
        }
    }
  }

  /** The blocks of a server are those it had. */
  lemma {:induction false} BlocksStay(s: System, cs: seq<Choice>, side: Side, p: string)
    requires Initial(s) && IsBlockName(p)
    ensures p in VolumeOn(RunSystem(s, cs), side).names <==> p in VolumeOn(s, side).names
  {
    hide RunSystem, VolumeOk, VolumeOn;
    var names := VolumeOn(s, side).names.Keys;
    RunKeepsNames(s, cs, side, names);
  }

  ghost predicate SameBlockContents(v: Volume, w: Volume) {
    forall p :: IsBlockName(p) ==>
      && (p in v.names <==> p in w.names)
      && (p in v.names ==> v.names[p] < |v.files| && w.names[p] < |w.files|
                           && v.files[v.names[p]] == w.files[w.names[p]])
  }

  lemma {:induction false} RegisterAt(v: Volume, h: seq<Event>, initial: map<string, Bytes>, p: string)
    requires Registers(v, h, initial) && IsBlockName(p) && p in v.names
    ensures v.names[p] < |v.files| && v.files[v.names[p]] == LastWritten(h, initial, p)
  {
  }

  lemma {:induction false} ContentsAt(v: Volume, w: Volume, p: string)
    requires VolumeOk(v) && VolumeOk(w) && SameBlockContents(v, w) && IsBlockName(p)
    ensures p in Contents(v) <==> p in Contents(w)
    ensures p in Contents(v) ==> Contents(v)[p] == Contents(w)[p]
  {
  }

  lemma {:induction false} RegistersAgree(s: System, cs: seq<Choice>, p: string)
    requires Initial(s) && SameBlockContents(s.primary, s.backup) && IsBlockName(p)
    requires Lag(RunSystem(s, cs), p) == []
    ensures var t := RunSystem(s, cs);
            LastWritten(t.primaryHistory, Contents(s.primary), p) == LastWritten(t.backupHistory, Contents(s.backup), p)
  {
    var t := RunSystem(s, cs);
    InitialRecorded(s, Primary);
    InitialRecorded(s, Backup);
    RunRecords(s, cs, Primary);
    RunRecords(s, cs, Backup);
    ContentsAt(s.primary, s.backup, p);
    hide RunSystem, Applied, LastWritten, EventCount, HasHappened, SameOperations, VolumeOk, Genuine, Contents, SameBlockContents, Lag;
    SameOrderOnBoth(s, cs, p);
    LastApplied(t, Primary, t.primaryHistory, Contents(s.primary), p);
    LastApplied(t, Backup, t.backupHistory, Contents(s.backup), p);
  }

  lemma {:induction false} NoLag(t: System, p: string)
    requires forall i :: 0 <= i < |t.writers| ==> t.writers[i].pc != RenameTemp(Backup)
    ensures Lag(t, p) == []
  {
  }

  /** From equal blocks, both servers hold equal blocks again whenever no write is between its two renames. */
  lemma {:induction false} ServersAgree(s: System, cs: seq<Choice>)
    requires Initial(s) && SameBlockContents(s.primary, s.backup)
    requires forall i :: 0 <= i < |RunSystem(s, cs).writers| ==> RunSystem(s, cs).writers[i].pc != RenameTemp(Backup)
    ensures SameBlockContents(RunSystem(s, cs).primary, RunSystem(s, cs).backup)
  {
    var t := RunSystem(s, cs);
    BlocksAreRegisters(s, cs, Primary);
    BlocksAreRegisters(s, cs, Backup);
    hide RunSystem, Applied, LastWritten, Legal, ReadsReturnTheirEvent, Recorded, SameOperations, Registers, Initial, Lag, Contents;
    forall p | IsBlockName(p)
      ensures p in t.primary.names <==> p in t.backup.names
      ensures p in t.primary.names ==> t.primary.names[p] < |t.primary.files| && t.backup.names[p] < |t.backup.files|
      ensures p in t.primary.names ==> t.primary.files[t.primary.names[p]] == t.backup.files[t.backup.names[p]]
    {
      BlocksStay(s, cs, Primary, p);
      BlocksStay(s, cs, Backup, p);
      NoLag(t, p);
      RegistersAgree(s, cs, p);
      if p in t.primary.names {
        RegisterAt(t.primary, t.primaryHistory, Contents(s.primary), p);
        RegisterAt(t.backup, t.backupHistory, Contents(s.backup), p);
      }
    }
  }
}
