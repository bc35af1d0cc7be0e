/** Any number of concurrent block-aligned writes and reads, with the backup up, step by step on inodes. */
module Concurrency {
  import opened Storage

  // ----- Volumes: names lead to inodes, inodes hold bytes -----

  datatype Side = Primary | Backup

  datatype Volume = Volume(names: map<string, nat>, files: seq<Bytes>)

  ghost predicate VolumeOk(v: Volume) {
    && (forall x :: x in v.names ==> v.names[x] < |v.files|)
    && (forall x, y :: x in v.names && y in v.names && v.names[x] == v.names[y] ==> x == y)
    && (forall ino :: 0 <= ino < |v.files| ==> |v.files[ino]| <= BLOCK_SIZE)
  }

  /** open(O_CREAT): the inode of the name, new and empty if there was none. */
  function Opened(v: Volume, name: string): Volume {
    if name in v.names then v else Volume(v.names[name := |v.files|], v.files + [[]])
  }

  /** A write through a descriptor, that is, to an inode, whatever its name is by now. */
  function Written(v: Volume, ino: nat, data: Bytes): Volume {
    if ino < |v.files| then v.(files := v.files[ino := Overwrite(v.files[ino], data, 0)]) else v
  }

  function RenamedTo(v: Volume, src: string, dst: string): Volume {
    if src in v.names then v.(names := (v.names - {src})[dst := v.names[src]]) else v
  }

  // ----- Threads -----

  /** The next step of a write: lock, stage on the primary, stage on the backup (`Prepare`), rename on the
      primary, rename on the backup (`Commit`), unlock. */
  datatype WriterPc =
    | Acquire
    | OpenBlock(side: Side) | OpenTempFile(side: Side) | ReadBlock(side: Side) | WriteCopy(side: Side) | Splice(side: Side)
    | RenameTemp(side: Side)
    | Unlock
    | Finished
    | Failed

  datatype Writer = Writer(path: string, data: Bytes, pc: WriterPc, src: nat, dst: nat, buf: Bytes)

  /** A read opens its block before it takes the lock. */
  datatype ReaderPc = OpenToRead | AcquireShared | ReadInode | ReleaseShared | Returned | NotThere

  datatype Reader = Reader(side: Side, path: string, pc: ReaderPc, ino: nat, value: Bytes)

  datatype Event = Wrote(writer: nat, path: string, data: Bytes) | WasRead(reader: nat, path: string, value: Bytes)

  /** `holder` and `sharing` are the primary's lock table; the backup's handlers take no file lock. */
  datatype System = System(
    primary: Volume, backup: Volume,
    holder: map<string, nat>, sharing: set<(string, nat)>,
    writers: seq<Writer>, readers: seq<Reader>,
    primaryHistory: seq<Event>, backupHistory: seq<Event>)

  function VolumeOn(s: System, side: Side): Volume {
    if side == Primary then s.primary else s.backup
  }

  function HistoryOn(s: System, side: Side): seq<Event> {
    if side == Primary then s.primaryHistory else s.backupHistory
  }

  function WithVolume(s: System, side: Side, v: Volume): System {
    if side == Primary then s.(primary := v) else s.(backup := v)
  }

  function WithEvent(s: System, side: Side, e: Event): System {
    if side == Primary then s.(primaryHistory := s.primaryHistory + [e]) else s.(backupHistory := s.backupHistory + [e])
  }

  function WithWriter(s: System, i: nat, w: Writer): System
    requires i < |s.writers|
  {
    s.(writers := s.writers[i := w])
  }

  function WithReader(s: System, i: nat, r: Reader): System
    requires i < |s.readers|
  {
    s.(readers := s.readers[i := r])
  }

  /** No reader shares the lock of the path. */
  ghost predicate Unshared(s: System, path: string) {
    forall i :: (path, i) !in s.sharing
  }

  function AfterSplice(side: Side): WriterPc {
    if side == Primary then OpenBlock(Backup) else RenameTemp(Primary)
  }

  ghost function StepWriter(s: System, i: nat): System
    requires i < |s.writers|
  {
    var w := s.writers[i];
    match w.pc
    case Acquire =>
      if w.path in s.holder || !Unshared(s, w.path) then s
      else WithWriter(s.(holder := s.holder[w.path := i]), i, w.(pc := OpenBlock(Primary)))
    case OpenBlock(side) =>
      var v := VolumeOn(s, side);
      if w.path in v.names then WithWriter(s, i, w.(src := v.names[w.path], pc := OpenTempFile(side)))
      else WithWriter(s.(holder := s.holder - {w.path}), i, w.(pc := Failed))
    case OpenTempFile(side) =>
      var v := Opened(VolumeOn(s, side), Tmp(w.path));
      WithWriter(WithVolume(s, side, v), i, w.(dst := v.names[Tmp(w.path)], pc := ReadBlock(side)))
    case ReadBlock(side) =>
      var v := VolumeOn(s, side);
      WithWriter(s, i, w.(buf := if w.src < |v.files| then FirstBlock(v.files[w.src]) else [], pc := WriteCopy(side)))
    case WriteCopy(side) =>
      WithWriter(WithVolume(s, side, Written(VolumeOn(s, side), w.dst, w.buf)), i, w.(pc := Splice(side)))
    case Splice(side) =>
      WithWriter(WithVolume(s, side, Written(VolumeOn(s, side), w.dst, w.data)), i, w.(pc := AfterSplice(side)))
    case RenameTemp(side) =>
      var v := RenamedTo(VolumeOn(s, side), Tmp(w.path), w.path);
      WithWriter(WithEvent(WithVolume(s, side, v), side, Wrote(i, w.path, w.data)), i,
                 w.(pc := if side == Primary then RenameTemp(Backup) else Unlock))
    case Unlock =>
      WithWriter(s.(holder := s.holder - {w.path}), i, w.(pc := Finished))
    case Finished => s
    case Failed => s
  }

  function StepReader(s: System, i: nat): System
    requires i < |s.readers|
  {
    var r := s.readers[i];
    var v := VolumeOn(s, r.side);
    match r.pc
    case OpenToRead =>
      if r.path in v.names && v.names[r.path] < |v.files| then
        WithReader(WithEvent(s, r.side, WasRead(i, r.path, v.files[v.names[r.path]])), i,
                   r.(ino := v.names[r.path], pc := AcquireShared))
      else WithReader(s, i, r.(pc := NotThere))
    case AcquireShared =>
      if r.side == Primary && r.path in s.holder then s
      else WithReader(s.(sharing := s.sharing + if r.side == Primary then {(r.path, i)} else {}), i, r.(pc := ReadInode))
    case ReadInode =>
      WithReader(s, i, r.(value := if r.ino < |v.files| then v.files[r.ino] else [], pc := ReleaseShared))
    case ReleaseShared =>
      WithReader(s.(sharing := s.sharing - {(r.path, i)}), i, r.(pc := Returned))
    case Returned => s
    case NotThere => s
  }

  datatype Choice = OfWriter(i: nat) | OfReader(i: nat)

  ghost function AfterChoice(s: System, c: Choice): System {
    match c
    case OfWriter(i) => if i < |s.writers| then StepWriter(s, i) else s
    case OfReader(i) => if i < |s.readers| then StepReader(s, i) else s
  }

  ghost function RunSystem(s: System, cs: seq<Choice>): System {
    if cs == [] then s else AfterChoice(RunSystem(s, cs[..|cs| - 1]), cs[|cs| - 1])
  }

  // ----- The specification of one server's blocks: a register for each -----

  /** What a register holds after a history. */
  function LastWritten(history: seq<Event>, initial: map<string, Bytes>, path: string): Bytes {
    if history == [] then if path in initial then initial[path] else []
    else
      var e := history[|history| - 1];
      if e.Wrote? && e.path == path then e.data else LastWritten(history[..|history| - 1], initial, path)
  }

  /** Every read returns what its register holds at that point. */
  ghost predicate Legal(history: seq<Event>, initial: map<string, Bytes>) {
    forall k :: 0 <= k < |history| && history[k].WasRead? ==>
      history[k].value == LastWritten(history[..k], initial, history[k].path)
  }

  /** The writers whose data a server has put in place of a block, in order. */
  function Applied(history: seq<Event>, path: string): seq<nat> {
    if history == [] then []
    else
      var e := history[|history| - 1];
      Applied(history[..|history| - 1], path) + if e.Wrote? && e.path == path then [e.writer] else []
  }

  lemma {:induction false} HistoryGrows(history: seq<Event>, e: Event, initial: map<string, Bytes>, path: string)
    ensures LastWritten(history + [e], initial, path)
            == if e.Wrote? && e.path == path then e.data else LastWritten(history, initial, path)
    ensures Applied(history + [e], path) == Applied(history, path) + if e.Wrote? && e.path == path then [e.writer] else []
  {
  }

  lemma {:induction false} LegalGrows(history: seq<Event>, e: Event, initial: map<string, Bytes>)
    requires Legal(history, initial)
    requires e.WasRead? ==> e.value == LastWritten(history, initial, e.path)
    ensures Legal(history + [e], initial)
  {
    hide LastWritten;
    var all := history + [e];
    forall k | 0 <= k < |all| && all[k].WasRead?
      ensures all[k].value == LastWritten(all[..k], initial, all[k].path)
    {
      assert all[..k] == history[..k];
      if k == |history| {
        assert history[..k] == history;
      }
    }
  }

  // ----- Invariant -----

  predicate Active(pc: WriterPc) {
    !pc.Acquire? && !pc.Finished? && !pc.Failed?
  }

  /** The temp file on this side is the writer's own. */
  predicate OwnsTemp(side: Side, pc: WriterPc) {
    match pc
    case ReadBlock(s) => s == side || side == Primary
    case WriteCopy(s) => s == side || side == Primary
    case Splice(s) => s == side || side == Primary
    case OpenBlock(s) => side == Primary && s == Backup
    case OpenTempFile(s) => side == Primary && s == Backup
    case RenameTemp(s) => side == Backup || s == Primary
    case _ => false
  }

  /** The temp file on this side is complete. */
  predicate HasStaged(side: Side, pc: WriterPc) {
    match pc
    case ReadBlock(s) => side == Primary && s == Backup
    case WriteCopy(s) => side == Primary && s == Backup
    case Splice(s) => side == Primary && s == Backup
    case OpenBlock(s) => side == Primary && s == Backup
    case OpenTempFile(s) => side == Primary && s == Backup
    case RenameTemp(s) => side == Backup || s == Primary
    case _ => false
  }

  predicate UsesDescriptor(side: Side, pc: WriterPc) {
    match pc
    case ReadBlock(s) => s == side
    case WriteCopy(s) => s == side
    case Splice(s) => s == side
    case _ => false
  }

  ghost predicate WriterOk(v: Volume, side: Side, w: Writer) {
    && (OwnsTemp(side, w.pc) ==> Tmp(w.path) in v.names)
    && (UsesDescriptor(side, w.pc) ==> Tmp(w.path) in v.names && w.dst == v.names[Tmp(w.path)])
    && (HasStaged(side, w.pc) ==>
          Tmp(w.path) in v.names && v.names[Tmp(w.path)] < |v.files| && v.files[v.names[Tmp(w.path)]] == w.data)
    && |w.buf| <= BLOCK_SIZE
  }

  /** Only block names lead to the inode: nobody will write to it again. */
  ghost predicate Published(v: Volume, ino: nat) {
    ino < |v.files| && forall x :: x in v.names && v.names[x] == ino ==> IsBlockName(x)
  }

  ghost predicate ReaderOk(v: Volume, history: seq<Event>, i: nat, r: Reader) {
    match r.pc
    case OpenToRead => true
    case NotThere => true
    case AcquireShared => Published(v, r.ino) && WasRead(i, r.path, v.files[r.ino]) in history
    case ReadInode => Published(v, r.ino) && WasRead(i, r.path, v.files[r.ino]) in history
    case _ => WasRead(i, r.path, r.value) in history
  }

  ghost predicate Registers(v: Volume, history: seq<Event>, initial: map<string, Bytes>) {
    forall p :: IsBlockName(p) && p in v.names ==>
      v.names[p] < |v.files| && v.files[v.names[p]] == LastWritten(history, initial, p)
  }

  ghost predicate SideInv(s: System, side: Side, initial: map<string, Bytes>) {
    var v := VolumeOn(s, side);
    var h := HistoryOn(s, side);
    && VolumeOk(v) && Registers(v, h, initial) && Legal(h, initial)
    && (forall i :: 0 <= i < |s.writers| ==> WriterOk(v, side, s.writers[i]))
    && (forall i :: 0 <= i < |s.readers| && s.readers[i].side == side ==> ReaderOk(v, h, i, s.readers[i]))
  }

  ghost predicate LocksHeld(s: System) {
    && (forall i :: 0 <= i < |s.writers| ==>
          IsBlockName(s.writers[i].path) && |s.writers[i].data| == BLOCK_SIZE
          && (Active(s.writers[i].pc) ==> s.writers[i].path in s.holder && s.holder[s.writers[i].path] == i))
    && (forall p :: p in s.holder ==>
          s.holder[p] < |s.writers| && s.writers[s.holder[p]].path == p && Active(s.writers[s.holder[p]].pc))
  }

  /** The writer that has renamed on the primary and not yet on the backup. */
  function Lag(s: System, p: string): seq<nat> {
    if p in s.holder && s.holder[p] < |s.writers| && s.writers[s.holder[p]].pc == RenameTemp(Backup) then [s.holder[p]] else []
  }

  ghost predicate SameOrder(s: System) {
    forall p :: Applied(s.primaryHistory, p) == Applied(s.backupHistory, p) + Lag(s, p)
  }

  ghost predicate SystemInv(s: System, p0: map<string, Bytes>, b0: map<string, Bytes>) {
    LocksHeld(s) && SameOrder(s) && SideInv(s, Primary, p0) && SideInv(s, Backup, b0)
  }

  // ----- What one step of a writer does to a volume -----

  /** Everything but the block `q` and its temp file stays; published inodes keep their bytes and stay published. */
  ghost predicate Gentle(v: Volume, v': Volume, q: string) {
    && VolumeOk(v')
    && (forall x :: x != q && x != Tmp(q) ==>
          (x in v.names <==> x in v'.names)
          && (x in v.names && v.names[x] < |v.files| ==>
                v'.names[x] == v.names[x] && v'.names[x] < |v'.files| && v'.files[v'.names[x]] == v.files[v.names[x]]))
    && (forall ino: nat :: Published(v, ino) ==> Published(v', ino) && v'.files[ino] == v.files[ino])
  }

  /** The block's own register is not affected. */
  ghost predicate SameBlock(v: Volume, v': Volume, q: string) {
    (q in v.names <==> q in v'.names)
    && (q in v.names && v.names[q] < |v.files| ==>
          v'.names[q] == v.names[q] && v'.names[q] < |v'.files| && v'.files[v'.names[q]] == v.files[v.names[q]])
  }

  lemma {:induction false} NothingIsGentle(v: Volume, q: string)
    requires VolumeOk(v)
    ensures Gentle(v, v, q) && SameBlock(v, v, q)
  {
  }

  lemma {:induction false} OpeningIsGentle(v: Volume, q: string)
    requires VolumeOk(v) && IsBlockName(q)
    ensures var v' := Opened(v, Tmp(q));
            && Gentle(v, v', q) && SameBlock(v, v', q)
            && Tmp(q) in v'.names && v'.names[Tmp(q)] < |v'.files|
  {
    hide Tmp, IsBlockName;
    TmpIsNotABlock(q);
    var v' := Opened(v, Tmp(q));
    if Tmp(q) in v.names {
      NothingIsGentle(v, q);
    } else {
      assert v' == Volume(v.names[Tmp(q) := |v.files|], v.files + [[]]);
      forall ino: nat | Published(v, ino)
        ensures Published(v', ino) && v'.files[ino] == v.files[ino]
      {
      }
    }
  }

  lemma {:induction false} WritingIsGentle(v: Volume, q: string, data: Bytes)
    requires VolumeOk(v) && IsBlockName(q) && Tmp(q) in v.names && |data| <= BLOCK_SIZE
    ensures var v' := Written(v, v.names[Tmp(q)], data);
            && Gentle(v, v', q) && SameBlock(v, v', q)
            && v'.names == v.names
            && (|data| == BLOCK_SIZE ==> v'.files[v'.names[Tmp(q)]] == data)
  {
  }

  lemma {:induction false} RenamingIsGentle(v: Volume, q: string)
    requires VolumeOk(v) && IsBlockName(q) && Tmp(q) in v.names
    ensures var v' := RenamedTo(v, Tmp(q), q);
            Gentle(v, v', q) && q in v'.names && v'.files[v'.names[q]] == v.files[v.names[Tmp(q)]]
  {
    TmpIsNotABlock(q);
    hide Tmp;
    var v' := RenamedTo(v, Tmp(q), q);
    forall k: nat | Published(v, k)
      ensures Published(v', k) && v'.files[k] == v.files[k]
    {
    }
  }

  // ----- Preservation -----

  lemma {:induction false} OtherWriterOk(s: System, v': Volume, side: Side, i: nat, j: nat)
    requires LocksHeld(s) && i < |s.writers| && j < |s.writers| && i != j && Active(s.writers[i].pc)
    requires WriterOk(VolumeOn(s, side), side, s.writers[j]) && VolumeOk(VolumeOn(s, side))
    requires Gentle(VolumeOn(s, side), v', s.writers[i].path)
    ensures WriterOk(v', side, s.writers[j])
  {
    hide Published, VolumeOk;
    var p, q := s.writers[j].path, s.writers[i].path;
    TmpIsNotABlock(p);
    if p != q && Tmp(p) == Tmp(q) {
      TmpInjective(p, q);
    }
    if OwnsTemp(side, s.writers[j].pc) || UsesDescriptor(side, s.writers[j].pc) {
      assert p != q;
      InodeExists(VolumeOn(s, side), Tmp(p));
    }
  }

  lemma {:induction false} InodeExists(v: Volume, x: string)
    requires VolumeOk(v)
    ensures x in v.names ==> v.names[x] < |v.files|
  {
  }

  lemma {:induction false} ReaderStaysOk(v: Volume, v': Volume, q: string, h: seq<Event>, h': seq<Event>, i: nat, r: Reader)
    requires ReaderOk(v, h, i, r) && Gentle(v, v', q) && forall e :: e in h ==> e in h'
    ensures ReaderOk(v', h', i, r)
  {
  }

  lemma {:induction false} RegistersAfter(v: Volume, v': Volume, q: string, h: seq<Event>, h': seq<Event>,
                                          initial: map<string, Bytes>)
    requires VolumeOk(v) && Registers(v, h, initial) && Effect(v, v', h, h', q) && IsBlockName(q)
    ensures Registers(v', h', initial)
  {
  }

  /** One side, after a step of an active writer that is gentle to the side's volume. */
  lemma {:induction false} SideKept(s: System, s': System, side: Side, initial: map<string, Bytes>, i: nat)
    requires LocksHeld(s) && SideInv(s, side, initial) && i < |s.writers| && Active(s.writers[i].pc)
    requires s'.readers == s.readers && |s'.writers| == |s.writers|
    requires forall j :: 0 <= j < |s.writers| && j != i ==> s'.writers[j] == s.writers[j]
    requires WriterOk(VolumeOn(s', side), side, s'.writers[i])
    requires Effect(VolumeOn(s, side), VolumeOn(s', side), HistoryOn(s, side), HistoryOn(s', side), s.writers[i].path)
    ensures SideInv(s', side, initial)
  {
    var v, v', h, h' := VolumeOn(s, side), VolumeOn(s', side), HistoryOn(s, side), HistoryOn(s', side);
    var q := s.writers[i].path;
    hide Gentle, Published, LastWritten, ReaderOk, WriterOk, Registers, Legal, VolumeOn, HistoryOn, SameBlock, Effect;
    RegistersAfter(v, v', q, h, h', initial);
    EffectParts(v, v', h, h', q, initial);
    forall j | 0 <= j < |s'.writers|
      ensures WriterOk(v', side, s'.writers[j])
    {
      if j != i {
        OtherWriterOk(s, v', side, i, j);
      }
    }
    forall j | 0 <= j < |s'.readers| && s'.readers[j].side == side
      ensures ReaderOk(v', h', j, s'.readers[j])
    {
      ReaderStaysOk(v, v', q, h, h', j, s.readers[j]);
    }
  }

  lemma {:induction false} EffectParts(v: Volume, v': Volume, h: seq<Event>, h': seq<Event>, q: string, initial: map<string, Bytes>)
    requires Effect(v, v', h, h', q) && Legal(h, initial)
    ensures Gentle(v, v', q) && VolumeOk(v') && Legal(h', initial) && forall e :: e in h ==> e in h'
  {
    hide LastWritten, Published, Legal, VolumeOk;
    if h' != h {
      var w, data :| h' == h + [Wrote(w, q, data)];
      LegalGrows(h, Wrote(w, q, data), initial);
    }
  }

  lemma {:induction false} GentleIsOk(v: Volume, v': Volume, q: string)
    requires Gentle(v, v', q)
    ensures VolumeOk(v')
  {
  }

  lemma {:induction false} LocksKept(s: System, s': System, i: nat)
    requires LocksHeld(s) && i < |s.writers| && s'.holder == s.holder && |s'.writers| == |s.writers|
    requires forall j :: 0 <= j < |s.writers| && j != i ==> s'.writers[j] == s.writers[j]
    requires s'.writers[i].path == s.writers[i].path && s'.writers[i].data == s.writers[i].data
    requires Active(s'.writers[i].pc) == Active(s.writers[i].pc)
    ensures LocksHeld(s')
  {
  }

  lemma {:induction false} LocksTaken(s: System, s': System, i: nat)
    requires LocksHeld(s) && i < |s.writers| && !Active(s.writers[i].pc) && s.writers[i].path !in s.holder
    requires s'.holder == s.holder[s.writers[i].path := i] && |s'.writers| == |s.writers|
    requires forall j :: 0 <= j < |s.writers| && j != i ==> s'.writers[j] == s.writers[j]
    requires s'.writers[i].path == s.writers[i].path && s'.writers[i].data == s.writers[i].data && Active(s'.writers[i].pc)
    ensures LocksHeld(s')
  {
  }

  lemma {:induction false} LocksDropped(s: System, s': System, i: nat)
    requires LocksHeld(s) && i < |s.writers| && Active(s.writers[i].pc)
    requires s'.holder == s.holder - {s.writers[i].path} && |s'.writers| == |s.writers|
    requires forall j :: 0 <= j < |s.writers| && j != i ==> s'.writers[j] == s.writers[j]
    requires s'.writers[i].path == s.writers[i].path && s'.writers[i].data == s.writers[i].data && !Active(s'.writers[i].pc)
    ensures LocksHeld(s')
  {
  }

  // ----- The order of renames -----

  lemma {:induction false} OrderKept(s: System, s': System, i: nat)
    requires LocksHeld(s) && SameOrder(s) && i < |s.writers| && |s'.writers| == |s.writers|
    requires forall j :: 0 <= j < |s.writers| && j != i ==> s'.writers[j] == s.writers[j]
    requires s.writers[i].pc != RenameTemp(Backup) && s'.writers[i].pc != RenameTemp(Backup)
    requires s'.writers[i].path == s.writers[i].path
    requires s'.holder == s.holder || (s'.holder == s.holder - {s.writers[i].path} && Active(s.writers[i].pc))
             || (s'.holder == s.holder[s.writers[i].path := i] && s.writers[i].path !in s.holder)
    requires s'.primaryHistory == s.primaryHistory && s'.backupHistory == s.backupHistory
    ensures SameOrder(s')
  {
  }

  lemma {:induction false} OrderAfterRename(s: System, s': System, side: Side, i: nat)
    requires LocksHeld(s) && SameOrder(s) && i < |s.writers| && s.writers[i].pc == RenameTemp(side)
    requires var w := s.writers[i];
             && s'.writers == s.writers[i := w.(pc := if side == Primary then RenameTemp(Backup) else Unlock)]
             && s'.holder == s.holder
             && HistoryOn(s', side) == HistoryOn(s, side) + [Wrote(i, w.path, w.data)]
             && (side == Primary ==> s'.backupHistory == s.backupHistory)
             && (side == Backup ==> s'.primaryHistory == s.primaryHistory)
    ensures SameOrder(s')
  {
    var w := s.writers[i];
    forall p
      ensures Applied(s'.primaryHistory, p) == Applied(s'.backupHistory, p) + Lag(s', p)
    {
      HistoryGrows(HistoryOn(s, side), Wrote(i, w.path, w.data), map[], p);
      hide Applied, LastWritten;
      assert Applied(s.primaryHistory, p) == Applied(s.backupHistory, p) + Lag(s, p);
      if p == w.path {
        assert Lag(s, p) == if side == Primary then [] else [i];
        assert Lag(s', p) == if side == Primary then [i] else [];
      } else {
        assert Lag(s', p) == Lag(s, p);
      }
    }
  }

  // ----- Steps -----

  lemma {:induction false} SideUnmoved(s: System, s': System, side: Side, initial: map<string, Bytes>, i: nat)
    requires SideInv(s, side, initial) && i < |s.writers| && |s'.writers| == |s.writers| && s'.readers == s.readers
    requires forall j :: 0 <= j < |s.writers| && j != i ==> s'.writers[j] == s.writers[j]
    requires VolumeOn(s', side) == VolumeOn(s, side) && HistoryOn(s', side) == HistoryOn(s, side)
    requires WriterOk(VolumeOn(s, side), side, s'.writers[i])
    ensures SideInv(s', side, initial)
  {
  }

  /** Locking, opening and reading the block, unlocking: no file changes. */
  lemma {:induction false} QuietStep(s: System, i: nat, p0: map<string, Bytes>, b0: map<string, Bytes>)
    requires SystemInv(s, p0, b0) && i < |s.writers|
    requires var pc := s.writers[i].pc; pc.Acquire? || pc.OpenBlock? || pc.ReadBlock? || pc.Unlock?
    ensures SystemInv(StepWriter(s, i), p0, b0)
  {
    var s', w := StepWriter(s, i), s.writers[i];
    hide *;
    if s' != s {
      InvParts(s, i, p0, b0);
      QuietFrame(s, i);
      QuietWriter(s, i);
      SideUnmoved(s, s', Primary, p0, i);
      SideUnmoved(s, s', Backup, b0, i);
      QuietLocks(s, i);
      InvFromSides(s', p0, b0);
    }
  }

  lemma {:induction false} QuietFrame(s: System, i: nat)
    requires i < |s.writers| && StepWriter(s, i) != s
    requires var pc := s.writers[i].pc; pc.Acquire? || pc.OpenBlock? || pc.ReadBlock? || pc.Unlock?
    ensures var s', w := StepWriter(s, i), s.writers[i];
            && s'.readers == s.readers && |s'.writers| == |s.writers|
            && (forall j :: 0 <= j < |s.writers| && j != i ==> s'.writers[j] == s.writers[j])
            && (forall side :: HistoryOn(s', side) == HistoryOn(s, side))
            && (forall side :: VolumeOn(s', side) == VolumeOn(s, side))
            && VolumeOn(s, Primary) == s.primary && VolumeOn(s, Backup) == s.backup
  {
  }

  lemma {:induction false} QuietLocks(s: System, i: nat)
    requires LocksHeld(s) && SameOrder(s) && i < |s.writers| && StepWriter(s, i) != s
    requires var pc := s.writers[i].pc; pc.Acquire? || pc.OpenBlock? || pc.ReadBlock? || pc.Unlock?
    ensures LocksHeld(StepWriter(s, i)) && SameOrder(StepWriter(s, i))
  {
    var s', w := StepWriter(s, i), s.writers[i];
    var w' := s'.writers[i];
    hide Unshared, SameOrder, LocksHeld;
    OrderKept(s, s', i);
    if w.pc.Acquire? {
      LocksTaken(s, s', i);
    } else if Active(w'.pc) {
      LocksKept(s, s', i);
    } else {
      LocksDropped(s, s', i);
    }
  }

  lemma {:induction false} QuietWriter(s: System, i: nat)
    requires i < |s.writers|
    requires var pc := s.writers[i].pc; pc.Acquire? || pc.OpenBlock? || pc.ReadBlock? || pc.Unlock?
    requires WriterOk(s.primary, Primary, s.writers[i]) && WriterOk(s.backup, Backup, s.writers[i])
    ensures WriterOk(s.primary, Primary, StepWriter(s, i).writers[i]) && WriterOk(s.backup, Backup, StepWriter(s, i).writers[i])
  {
    hide Unshared;
  }

  /** Opening the temp file and writing to it: one volume changes, gently. */
  lemma {:induction false} StagingStep(s: System, i: nat, p0: map<string, Bytes>, b0: map<string, Bytes>)
    requires SystemInv(s, p0, b0) && i < |s.writers|
    requires var pc := s.writers[i].pc; pc.OpenTempFile? || pc.WriteCopy? || pc.Splice?
    ensures SystemInv(StepWriter(s, i), p0, b0)
  {
    var s', w := StepWriter(s, i), s.writers[i];
    hide *;
    InvParts(s, i, p0, b0);
    StagingFrame(s, i);
    StagingIsGentle(s, i);
    SideKept(s, s', Primary, p0, i);
    SideKept(s, s', Backup, b0, i);
    LocksKept(s, s', i);
    OrderKept(s, s', i);
    InvFromSides(s', p0, b0);
  }

  lemma {:induction false} InvParts(s: System, i: nat, p0: map<string, Bytes>, b0: map<string, Bytes>)
    requires SystemInv(s, p0, b0) && i < |s.writers|
    ensures LocksHeld(s) && SameOrder(s) && SideInv(s, Primary, p0) && SideInv(s, Backup, b0)
    ensures VolumeOk(s.primary) && VolumeOk(s.backup)
    ensures WriterOk(s.primary, Primary, s.writers[i]) && WriterOk(s.backup, Backup, s.writers[i])
    ensures IsBlockName(s.writers[i].path) && |s.writers[i].data| == BLOCK_SIZE
  {
  }

  lemma {:induction false} InvFromSides(s: System, p0: map<string, Bytes>, b0: map<string, Bytes>)
    requires LocksHeld(s) && SameOrder(s) && SideInv(s, Primary, p0) && SideInv(s, Backup, b0)
    ensures SystemInv(s, p0, b0)
  {
  }

  lemma {:induction false} StagingFrame(s: System, i: nat)
    requires i < |s.writers|
    requires var pc := s.writers[i].pc; pc.OpenTempFile? || pc.WriteCopy? || pc.Splice?
    ensures var s', w := StepWriter(s, i), s.writers[i];
            && s'.readers == s.readers && s'.holder == s.holder && |s'.writers| == |s.writers|
            && (forall j :: 0 <= j < |s.writers| && j != i ==> s'.writers[j] == s.writers[j])
            && s'.primaryHistory == s.primaryHistory && s'.backupHistory == s.backupHistory
            && HistoryOn(s, Primary) == s.primaryHistory && HistoryOn(s, Backup) == s.backupHistory
            && HistoryOn(s', Primary) == s.primaryHistory && HistoryOn(s', Backup) == s.backupHistory
            && VolumeOn(s, Primary) == s.primary && VolumeOn(s, Backup) == s.backup
            && VolumeOn(s', Primary) == s'.primary && VolumeOn(s', Backup) == s'.backup
            && s'.writers[i].path == w.path && s'.writers[i].data == w.data
            && Active(w.pc) && Active(s'.writers[i].pc)
            && w.pc != RenameTemp(Backup) && s'.writers[i].pc != RenameTemp(Backup)
  {
    hide Unshared, Opened, Written;
  }

  lemma {:induction false} StagingIsGentle(s: System, i: nat)
    requires i < |s.writers| && IsBlockName(s.writers[i].path) && |s.writers[i].data| == BLOCK_SIZE
    requires var pc := s.writers[i].pc; pc.OpenTempFile? || pc.WriteCopy? || pc.Splice?
    requires VolumeOk(s.primary) && VolumeOk(s.backup)
    requires WriterOk(s.primary, Primary, s.writers[i]) && WriterOk(s.backup, Backup, s.writers[i])
    ensures var s', q := StepWriter(s, i), s.writers[i].path;
            && i < |s'.writers|
            && Effect(s.primary, s'.primary, s.primaryHistory, s.primaryHistory, q)
            && Effect(s.backup, s'.backup, s.backupHistory, s.backupHistory, q)
            && WriterOk(s'.primary, Primary, s'.writers[i]) && WriterOk(s'.backup, Backup, s'.writers[i])
  {
    var s', w := StepWriter(s, i), s.writers[i];
    OpenedHasName(VolumeOn(s, w.pc.side), Tmp(w.path));
    hide WriterOk, VolumeOk, Gentle, SameBlock, Opened, Written, Unshared;
    StagedGently(VolumeOn(s, w.pc.side), w, VolumeOn(s', w.pc.side), s'.writers[i]);
    OtherSideWriter(s, i);
    NothingIsGentle(s.primary, w.path);
    NothingIsGentle(s.backup, w.path);
  }

  lemma {:induction false} OpenedHasName(v: Volume, name: string)
    ensures name in Opened(v, name).names
  {
  }

  lemma {:induction false} StagedGently(v: Volume, w: Writer, v': Volume, w': Writer)
    requires VolumeOk(v) && IsBlockName(w.path) && |w.data| == BLOCK_SIZE
    requires w.pc.OpenTempFile? || w.pc.WriteCopy? || w.pc.Splice?
    requires WriterOk(v, w.pc.side, w)
    requires match w.pc
             case OpenTempFile(side) =>
               v' == Opened(v, Tmp(w.path)) && Tmp(w.path) in v'.names
               && w' == w.(dst := v'.names[Tmp(w.path)], pc := ReadBlock(side))
             case WriteCopy(side) => v' == Written(v, w.dst, w.buf) && w' == w.(pc := Splice(side))
             case _ => v' == Written(v, w.dst, w.data) && w' == w.(pc := AfterSplice(w.pc.side))
    ensures Gentle(v, v', w.path) && SameBlock(v, v', w.path) && WriterOk(v', w.pc.side, w')
  {
    hide Gentle, SameBlock, Tmp;
    match w.pc
    case OpenTempFile(_) =>
      OpeningIsGentle(v, w.path);
    case WriteCopy(_) =>
      WritingIsGentle(v, w.path, w.buf);
    case Splice(_) =>
      WritingIsGentle(v, w.path, w.data);
  }

  /** The step changes nothing on the other side, and the writer's claims there stay as they were. */
  lemma {:induction false} OtherSideWriter(s: System, i: nat)
    requires i < |s.writers|
    requires var pc := s.writers[i].pc; pc.OpenTempFile? || pc.WriteCopy? || pc.Splice?
    requires WriterOk(s.primary, Primary, s.writers[i]) && WriterOk(s.backup, Backup, s.writers[i])
    ensures s.writers[i].pc.side == Primary ==>
              StepWriter(s, i).backup == s.backup && WriterOk(s.backup, Backup, StepWriter(s, i).writers[i])
    ensures s.writers[i].pc.side == Backup ==>
              StepWriter(s, i).primary == s.primary && WriterOk(s.primary, Primary, StepWriter(s, i).writers[i])
  {
  }

  lemma {:induction false} RenameStep(s: System, i: nat, p0: map<string, Bytes>, b0: map<string, Bytes>)
    requires SystemInv(s, p0, b0) && i < |s.writers| && s.writers[i].pc.RenameTemp?
    ensures SystemInv(StepWriter(s, i), p0, b0)
  {
    var s', w := StepWriter(s, i), s.writers[i];
    hide *;
    InvParts(s, i, p0, b0);
    RenameFrame(s, i);
    RenamedWriter(s, i);
    RenameIsGentle(s, i);
    SideKept(s, s', Primary, p0, i);
    SideKept(s, s', Backup, b0, i);
    LocksKept(s, s', i);
    OrderAfterRename(s, s', w.pc.side, i);
    InvFromSides(s', p0, b0);
  }

  lemma {:induction false} RenameFrame(s: System, i: nat)
    requires i < |s.writers| && s.writers[i].pc.RenameTemp?
    ensures var s', w := StepWriter(s, i), s.writers[i];
            && s'.readers == s.readers && s'.holder == s.holder
            && s'.writers == s.writers[i := w.(pc := if w.pc.side == Primary then RenameTemp(Backup) else Unlock)]
            && VolumeOn(s, Primary) == s.primary && VolumeOn(s, Backup) == s.backup
            && VolumeOn(s', Primary) == s'.primary && VolumeOn(s', Backup) == s'.backup
            && HistoryOn(s, Primary) == s.primaryHistory && HistoryOn(s, Backup) == s.backupHistory
            && HistoryOn(s', Primary) == s'.primaryHistory && HistoryOn(s', Backup) == s'.backupHistory
            && HistoryOn(s', w.pc.side) == HistoryOn(s, w.pc.side) + [Wrote(i, w.path, w.data)]
            && (w.pc.side == Primary ==> s'.backupHistory == s.backupHistory)
            && (w.pc.side == Backup ==> s'.primaryHistory == s.primaryHistory)
            && Active(w.pc) && Active(s'.writers[i].pc)
  {
  }

  /** The block is what a rename put in place, and the history says so; or the block and the history are as before. */
  ghost predicate Effect(v: Volume, v': Volume, h: seq<Event>, h': seq<Event>, q: string) {
    && Gentle(v, v', q)
    && ((h' == h && SameBlock(v, v', q))
        || (exists w, data :: h' == h + [Wrote(w, q, data)] && q in v'.names && v'.files[v'.names[q]] == data))
  }

  lemma {:induction false} RenamedHere(v: Volume, h: seq<Event>, q: string, i: nat, data: Bytes)
    requires VolumeOk(v) && IsBlockName(q) && Tmp(q) in v.names && v.names[Tmp(q)] < |v.files|
    requires v.files[v.names[Tmp(q)]] == data
    ensures Effect(v, RenamedTo(v, Tmp(q), q), h, h + [Wrote(i, q, data)], q)
  {
    hide Gentle, SameBlock, RenamedTo, VolumeOk;
    RenamingIsGentle(v, q);
    var h' := h + [Wrote(i, q, data)];
    GentleIsOk(v, RenamedTo(v, Tmp(q), q), q);
    assert h' == h + [Wrote(i, q, data)];
  }

  lemma {:induction false} NothingRenamed(v: Volume, h: seq<Event>, q: string)
    requires VolumeOk(v)
    ensures Effect(v, v, h, h, q)
  {
  }

  lemma {:induction false} RenameIsGentle(s: System, i: nat)
    requires i < |s.writers| && s.writers[i].pc.RenameTemp? && IsBlockName(s.writers[i].path)
    requires VolumeOk(s.primary) && VolumeOk(s.backup)
    requires WriterOk(s.primary, Primary, s.writers[i]) && WriterOk(s.backup, Backup, s.writers[i])
    ensures var s', q := StepWriter(s, i), s.writers[i].path;
            && Effect(s.primary, s'.primary, s.primaryHistory, s'.primaryHistory, q)
            && Effect(s.backup, s'.backup, s.backupHistory, s'.backupHistory, q)
  {
    var w := s.writers[i];
    StagedTemp(s, i);
    hide WriterOk, Effect, RenamedTo, VolumeOk, Unshared;
    RenamedHere(VolumeOn(s, w.pc.side), HistoryOn(s, w.pc.side), w.path, i, w.data);
    NothingRenamed(s.primary, s.primaryHistory, w.path);
    NothingRenamed(s.backup, s.backupHistory, w.path);
  }

  lemma {:induction false} RenamedWriter(s: System, i: nat)
    requires i < |s.writers| && s.writers[i].pc.RenameTemp?
    requires WriterOk(s.primary, Primary, s.writers[i]) && WriterOk(s.backup, Backup, s.writers[i])
    ensures WriterOk(StepWriter(s, i).primary, Primary, StepWriter(s, i).writers[i])
    ensures WriterOk(StepWriter(s, i).backup, Backup, StepWriter(s, i).writers[i])
    ensures s.writers[i].pc.side == Primary ==> StepWriter(s, i).backup == s.backup && StepWriter(s, i).backupHistory == s.backupHistory
    ensures s.writers[i].pc.side == Backup ==> StepWriter(s, i).primary == s.primary && StepWriter(s, i).primaryHistory == s.primaryHistory
  {
  }

  lemma {:induction false} WriterKeepsInv(s: System, i: nat, p0: map<string, Bytes>, b0: map<string, Bytes>)
    requires SystemInv(s, p0, b0) && i < |s.writers|
    ensures SystemInv(StepWriter(s, i), p0, b0)
  {
    hide SystemInv;
    match s.writers[i].pc
    case OpenTempFile(_) => StagingStep(s, i, p0, b0);
    case WriteCopy(_) => StagingStep(s, i, p0, b0);
    case Splice(_) => StagingStep(s, i, p0, b0);
    case RenameTemp(_) => RenameStep(s, i, p0, b0);
    case Finished =>
    case Failed =>
    case _ => QuietStep(s, i, p0, b0);
  }

  // ----- Readers -----

  lemma {:induction false} OtherReaderOk(v: Volume, h: seq<Event>, h': seq<Event>, i: nat, r: Reader)
    requires ReaderOk(v, h, i, r) && forall e :: e in h ==> e in h'
    ensures ReaderOk(v, h', i, r)
  {
  }

  lemma {:induction false} RegistersAfterRead(v: Volume, h: seq<Event>, initial: map<string, Bytes>, e: Event)
    requires Registers(v, h, initial) && e.WasRead?
    ensures Registers(v, h + [e], initial)
  {
  }

  /** A side on which reader `i` takes a step: the volume stays, the history may have grown by its read. */
  lemma {:induction false} SideAfterRead(s: System, s': System, side: Side, initial: map<string, Bytes>, i: nat)
    requires SideInv(s, side, initial) && i < |s.readers| && s'.writers == s.writers && |s'.readers| == |s.readers|
    requires forall j :: 0 <= j < |s.readers| && j != i ==> s'.readers[j] == s.readers[j]
    requires VolumeOn(s', side) == VolumeOn(s, side) && s'.readers[i].side == s.readers[i].side
    requires HistoryOn(s', side) == HistoryOn(s, side)
             || exists e :: HistoryOn(s', side) == HistoryOn(s, side) + [e] && e.WasRead?
                            && e.value == LastWritten(HistoryOn(s, side), initial, e.path)
    requires s.readers[i].side == side ==> ReaderOk(VolumeOn(s, side), HistoryOn(s', side), i, s'.readers[i])
    ensures SideInv(s', side, initial)
  {
    var v, h, h' := VolumeOn(s, side), HistoryOn(s, side), HistoryOn(s', side);
    hide WriterOk, ReaderOk, Legal, Registers, VolumeOk, VolumeOn, HistoryOn, LastWritten;
    if h' != h {
      var e :| h' == h + [e] && e.WasRead? && e.value == LastWritten(h, initial, e.path);
      LegalGrows(h, e, initial);
      RegistersAfterRead(v, h, initial, e);
    }
    forall j | 0 <= j < |s'.readers| && s'.readers[j].side == side
      ensures ReaderOk(v, h', j, s'.readers[j])
    {
      if j != i {
        OtherReaderOk(v, h, h', j, s.readers[j]);
      }
    }
  }

  lemma {:induction false} OwnRead(v: Volume, h: seq<Event>, initial: map<string, Bytes>, p: string)
    requires VolumeOk(v) && Registers(v, h, initial) && IsBlockName(p) && p in v.names
    ensures Published(v, v.names[p]) && v.files[v.names[p]] == LastWritten(h, initial, p)
  {
  }

  lemma {:induction false} OwnReaderOk(s: System, i: nat, initial: map<string, Bytes>)
    requires i < |s.readers| && IsBlockName(s.readers[i].path) && SideInv(s, s.readers[i].side, initial)
    ensures var s', side := StepReader(s, i), s.readers[i].side;
            && ReaderOk(VolumeOn(s, side), HistoryOn(s', side), i, s'.readers[i])
            && (HistoryOn(s', side) == HistoryOn(s, side)
                || exists e :: HistoryOn(s', side) == HistoryOn(s, side) + [e] && e.WasRead?
                               && e.value == LastWritten(HistoryOn(s, side), initial, e.path))
  {
    var s', side, r := StepReader(s, i), s.readers[i].side, s.readers[i];
    var v, h := VolumeOn(s, side), HistoryOn(s, side);
    assert ReaderOk(v, h, i, r);
    hide WriterOk, Legal, LastWritten, SideInv;
    if r.pc == OpenToRead && r.path in v.names {
      OwnRead(v, h, initial, r.path);
      var e := WasRead(i, r.path, v.files[v.names[r.path]]);
      assert HistoryOn(s', side) == h + [e];
      assert e in h + [e];
    }
    hide Registers, VolumeOk;
  }

  lemma {:induction false} SharingIrrelevant(s: System, s': System)
    requires LocksHeld(s) && SameOrder(s)
    requires s'.holder == s.holder && s'.writers == s.writers
    requires forall p :: Applied(s'.primaryHistory, p) == Applied(s.primaryHistory, p)
    requires forall p :: Applied(s'.backupHistory, p) == Applied(s.backupHistory, p)
    ensures LocksHeld(s') && SameOrder(s')
  {
  }

  lemma {:induction false} ReaderFrame(s: System, i: nat)
    requires i < |s.readers|
    ensures var s', side := StepReader(s, i), s.readers[i].side;
            && s'.primary == s.primary && s'.backup == s.backup && s'.holder == s.holder && s'.writers == s.writers
            && |s'.readers| == |s.readers| && (forall j :: 0 <= j < |s.readers| && j != i ==> s'.readers[j] == s.readers[j])
            && s'.readers[i].side == side && s'.readers[i].path == s.readers[i].path
            && (side == Primary ==> s'.backupHistory == s.backupHistory)
            && (side == Backup ==> s'.primaryHistory == s.primaryHistory)
  {
  }

  lemma {:induction false} ReadsDoNotApply(h: seq<Event>, h': seq<Event>, initial: map<string, Bytes>)
    requires h' == h || exists e :: h' == h + [e] && e.WasRead? && e.value == LastWritten(h, initial, e.path)
    ensures forall p :: Applied(h', p) == Applied(h, p)
  {
  }

  lemma {:induction false} ReaderKeepsInv(s: System, i: nat, p0: map<string, Bytes>, b0: map<string, Bytes>)
    requires SystemInv(s, p0, b0) && i < |s.readers| && IsBlockName(s.readers[i].path)
    ensures SystemInv(StepReader(s, i), p0, b0)
  {
    var s', side := StepReader(s, i), s.readers[i].side;
    var initial := if side == Primary then p0 else b0;
    OwnReaderOk(s, i, initial);
    ReaderFrame(s, i);
    hide StepReader, SideInv, LastWritten, LocksHeld, SameOrder, ReaderOk;
    ReadsDoNotApply(HistoryOn(s, side), HistoryOn(s', side), initial);
    SharingIrrelevant(s, s');
    SideAfterRead(s, s', Primary, p0, i);
    SideAfterRead(s, s', Backup, b0, i);
  }

  // ----- Runs -----

  ghost predicate Blocks(s: System) {
    forall i :: 0 <= i < |s.readers| ==> IsBlockName(s.readers[i].path)
  }

  lemma {:induction false} PathsStay(s: System, c: Choice)
    requires Blocks(s)
    ensures Blocks(AfterChoice(s, c))
  {
    match c
    case OfWriter(i) =>
      if i < |s.writers| {
        assert StepWriter(s, i).readers == s.readers;
      }
    case OfReader(i) =>
      if i < |s.readers| {
        ReaderFrame(s, i);
        hide StepReader;
      }
  }

  lemma {:induction false} RunKeepsSystem(s: System, cs: seq<Choice>, p0: map<string, Bytes>, b0: map<string, Bytes>)
    requires SystemInv(s, p0, b0) && Blocks(s)
    ensures SystemInv(RunSystem(s, cs), p0, b0) && Blocks(RunSystem(s, cs))
  {
    if cs != [] {
      var init, c := cs[..|cs| - 1], cs[|cs| - 1];
      RunKeepsSystem(s, init, p0, b0);
      var t := RunSystem(s, init);
      PathsStay(t, c);
      hide SystemInv, StepWriter, StepReader;
      match c
      case OfWriter(i) =>
        if i < |t.writers| {
          WriterKeepsInv(t, i, p0, b0);
        }
      case OfReader(i) =>
        if i < |t.readers| {
          assert IsBlockName(t.readers[i].path);
          ReaderKeepsInv(t, i, p0, b0);
        }
    }
  }

  /** What each block's file holds. */
  function Contents(v: Volume): map<string, Bytes> {
    map p | p in v.names && v.names[p] < |v.files| :: v.files[v.names[p]]
  }

  /** Nothing in flight yet; temp files of earlier failures may lie about. */
  ghost predicate Initial(s: System) {
    && VolumeOk(s.primary) && VolumeOk(s.backup) && s.holder == map[] && s.sharing == {}
    && s.primaryHistory == [] && s.backupHistory == [] && Blocks(s)
    && (forall i :: 0 <= i < |s.writers| ==>
          IsBlockName(s.writers[i].path) && |s.writers[i].data| == BLOCK_SIZE && s.writers[i].pc == Acquire && s.writers[i].buf == [])
    && (forall i :: 0 <= i < |s.readers| ==> s.readers[i].pc == OpenToRead)
  }

  lemma {:induction false} InitialSide(s: System, side: Side)
    requires Initial(s)
    ensures SideInv(s, side, Contents(VolumeOn(s, side)))
  {
  }

  lemma {:induction false} InitialInv(s: System)
    requires Initial(s)
    ensures SystemInv(s, Contents(s.primary), Contents(s.backup)) && Blocks(s)
  {
    InitialSide(s, Primary);
    InitialSide(s, Backup);
    hide SideInv;
  }

  // ----- Theorems -----

  /** Two writes that are between their lock and their unlock are to different blocks, so that on either side a
      block's temp file has at most one owner. */
  lemma {:induction false} OneOwnerPerTemp(s: System, cs: seq<Choice>, i: nat, j: nat)
    requires Initial(s) && i < j < |RunSystem(s, cs).writers|
    requires Active(RunSystem(s, cs).writers[i].pc) && Active(RunSystem(s, cs).writers[j].pc)
    ensures RunSystem(s, cs).writers[i].path != RunSystem(s, cs).writers[j].path
    ensures Tmp(RunSystem(s, cs).writers[i].path) != Tmp(RunSystem(s, cs).writers[j].path)
  {
    InitialInv(s);
    RunKeepsSystem(s, cs, Contents(s.primary), Contents(s.backup));
    var t := RunSystem(s, cs);
    hide RunSystem, SideInv, SameOrder, Tmp;
    if Tmp(t.writers[i].path) == Tmp(t.writers[j].path) {
      TmpInjective(t.writers[i].path, t.writers[j].path);
    }
  }

  /** At `Commit`, as at the primary's own rename, the temp file holds exactly the bytes of the write that renames it. */
  lemma {:induction false} TempHoldsItsWrite(s: System, cs: seq<Choice>, i: nat)
    requires Initial(s) && i < |RunSystem(s, cs).writers| && RunSystem(s, cs).writers[i].pc.RenameTemp?
    ensures var t := RunSystem(s, cs);
            var w := t.writers[i];
            var v := VolumeOn(t, w.pc.side);
            Tmp(w.path) in v.names && v.names[Tmp(w.path)] < |v.files| && v.files[v.names[Tmp(w.path)]] == w.data
  {
    hide *;
    InitialInv(s);
    RunKeepsSystem(s, cs, Contents(s.primary), Contents(s.backup));
    InvParts(RunSystem(s, cs), i, Contents(s.primary), Contents(s.backup));
    StagedTemp(RunSystem(s, cs), i);
  }

  lemma {:induction false} StagedTemp(t: System, i: nat)
    requires i < |t.writers| && t.writers[i].pc.RenameTemp?
    requires WriterOk(t.primary, Primary, t.writers[i]) && WriterOk(t.backup, Backup, t.writers[i])
    ensures var w := t.writers[i];
            var v := VolumeOn(t, w.pc.side);
            Tmp(w.path) in v.names && v.names[Tmp(w.path)] < |v.files| && v.files[v.names[Tmp(w.path)]] == w.data
  {
  }

  /** Both servers put the writes of each block in place in the same order; the backup lags by at most the one
      write that is between its two renames. */
  lemma {:induction false} SameOrderOnBoth(s: System, cs: seq<Choice>, p: string)
    requires Initial(s)
    ensures var t := RunSystem(s, cs);
            && Applied(t.primaryHistory, p) == Applied(t.backupHistory, p) + Lag(t, p)
            && ((forall i :: 0 <= i < |t.writers| ==> t.writers[i].pc != RenameTemp(Backup)) ==>
                  Applied(t.primaryHistory, p) == Applied(t.backupHistory, p))
  {
    InitialInv(s);
    RunKeepsSystem(s, cs, Contents(s.primary), Contents(s.backup));
    hide RunSystem, SideInv, Applied;
  }
}
