/** One server as a flat array of 2^30 bytes: what sequential writes and reads amount to. */
module FlatMemory {
  import opened Storage
  import opened AddressTranslation
  import opened WriteAheadLog
  import opened Nodes
  import opened Effects
  import opened CrashAtomicity
  import opened BlockServer
  import opened PrimaryRecovery
  import opened Divergence

  /** Every block has its file; none is longer than a block. */
  ghost predicate Stored(d: Disk) {
    forall n: nat :: n < BLOCKS ==> BlockPath(n) in d && |d[BlockPath(n)]| <= BLOCK_SIZE
  }

  ghost predicate NoTemps(d: Disk) {
    forall p :: IsBlockName(p) ==> Tmp(p) !in d
  }

  ghost predicate Memory(d: Disk) {
    Stored(d) && Short(d) && NoTemps(d)
  }

  /** The storage as it is first created: empty files. */
  ghost predicate Created(d: Disk) {
    Memory(d) && forall n: nat :: n < BLOCKS ==> d[BlockPath(n)] == []
  }

  lemma {:induction false} NewStorageIsCreated()
    ensures Created(NewStorage())
  {
    hide BlockPath, IsStoredBlock, NewStorage;
    forall n: nat | n < BLOCKS
      ensures BlockPath(n) in NewStorage() && NewStorage()[BlockPath(n)] == []
    {
      BlockIsStored(n);
      NewStorageFiles(BlockPath(n));
    }
    forall p
      ensures p in NewStorage() ==> IsBlockName(p) && NewStorage()[p] == []
      ensures Tmp(p) !in NewStorage()
    {
      NewStorageFiles(p);
      NewStorageFiles(Tmp(p));
      TmpIsNotABlock(p);
    }
  }

  ghost function FlatByte(d: Disk, x: nat): byte
    requires Stored(d) && x < BLOCK_STORAGE_MAX_SIZE
  {
    ByteAt(d[BlockPath(x / BLOCK_SIZE)], x % BLOCK_SIZE)
  }

  /** The last address at which 4096 bytes fit. */
  predicate Fits(address: int) {
    0 <= address <= BLOCK_STORAGE_MAX_SIZE - BLOCK_SIZE
  }

  /** The pieces of a write, spelled out. */
  function PiecesAt(address: nat, buffer: Bytes): seq<Piece>
    requires |buffer| == BLOCK_SIZE
  {
    var n, o := address / BLOCK_SIZE, address % BLOCK_SIZE;
    if o == 0 then [Piece(BlockPath(n), buffer, 0)]
    else [Piece(BlockPath(n), buffer[..BLOCK_SIZE - o], o), Piece(BlockPath(n + 1), buffer[BLOCK_SIZE - o..], 0)]
  }

  lemma {:induction false} PiecesSpelledOut(address: nat, buffer: Bytes)
    requires IsValidAddress(address) && |buffer| == BLOCK_SIZE
    ensures PiecesOf(address, buffer) == PiecesAt(address, buffer)
  {
    var es := Extents(address);
    hide BlockPath;
    CutOfExtents(address, buffer);
    CutAt(es, buffer, 0);
    assert SizeBefore(es, 0) == 0;
    assert buffer[0..BLOCK_SIZE] == buffer;
    if address % BLOCK_SIZE != 0 {
      CutAt(es, buffer, 1);
      assert buffer[BLOCK_SIZE - address % BLOCK_SIZE..BLOCK_SIZE] == buffer[BLOCK_SIZE - address % BLOCK_SIZE..];
    }
  }

  lemma {:induction false} PiecesStored(d: Disk, address: int, buffer: Bytes)
    requires Stored(d) && Fits(address) && |buffer| == BLOCK_SIZE
    ensures PiecesOk(PiecesOf(address, buffer)) && PiecesOf(address, buffer) != []
    ensures Present(d, PiecesOf(address, buffer))
  {
    hide BlockPath, ByteAt;
    PiecesAreClean(address, buffer);
    PiecesSpelledOut(address, buffer);
    var n := address / BLOCK_SIZE;
    assert address % BLOCK_SIZE != 0 ==> n + 1 < BLOCKS;
    assert BlockPath(n) in d;
  }

  // ----- One write -----

  predicate Succeeds(prepare: Status, commit: Status) {
    prepare == UNAVAILABLE || (prepare == OK && commit != OTHER)
  }

  lemma {:induction false} DiskOfPending(n: Node, id: string, ps: seq<Piece>)
    ensures Exec(n, PendingOps(id, ps)).disk == Exec(n, MoveOps(Paths(ps))).disk
    ensures Exec(n, InstallOps(id, ps)).disk == Exec(n, MoveOps(Paths(ps))).disk
  {
    RecordKeepsDisk(n, MoveOps(Paths(ps)), Pending(id), KvSet(id, PENDING_REPLICATION));
    RecordKeepsDisk(n, MoveOps(Paths(ps)), ReplInit(id), KvSet(id, RPC_INIT));
  }

  /** A write that succeeds leaves the files that its staging and its first renames give. */
  lemma {:induction false} DiskAfterSuccess(n: Node, id: string, ps: seq<Piece>, prepare: Status, commit: Status)
    requires PiecesOk(ps) && forall i :: 0 <= i < |ps| ==> Tmp(ps[i].path) in n.disk
    requires Succeeds(prepare, commit)
    ensures Exec(n, AfterPrepare(id, ps, prepare, commit)).disk == Exec(n, MoveOps(Paths(ps))).disk
  {
    hide Exec, MoveOps, Paths;
    DiskOfPending(n, id, ps);
    if prepare == OK {
      var n1 := Exec(n, InstallOps(id, ps));
      TempsAreGone(n, ps);
      ExecConcat(n, InstallOps(id, ps), AfterCommit(id, ps, commit));
      if commit == OK {
        QuietDisk(n1, Commit(id), KvDrop(id));
      } else {
        DiskOfPending(n1, id, ps);
        assert MoveOps(Paths(ps))[..|ps|] == MoveOps(Paths(ps)) by {
          MovesLength(ps);
        }
        MovesWithoutTemps(n1, ps, |ps|);
      }
    }
  }

  lemma {:induction false} MovesLength(ps: seq<Piece>)
    ensures |MoveOps(Paths(ps))| == |ps|
  {
  }

  lemma {:induction false} QuietDisk(n: Node, r: Record, last: Op)
    requires last.KvDrop?
    ensures Exec(n, [Append(r), last]).disk == n.disk
  {
    TwoSteps(n, Append(r), last);
  }

  lemma {:induction false} MemoryIsReusable(d: Disk, ps: seq<Piece>)
    requires Memory(d) && PiecesOk(ps)
    ensures Reusable(d, ps)
  {
  }

  lemma {:induction false} TempsAfterPrepare(n: Node, id: string, ps: seq<Piece>, p: string)
    requires PiecesOk(ps) && Present(n.disk, ps) && Memory(n.disk) && IsBlockName(p)
    requires forall i :: 0 <= i < |ps| ==> ps[i].path != p
    ensures Tmp(p) !in Exec(n, PrepareOps(id, ps)).disk
  {
    MemoryIsReusable(n.disk, ps);
    PrepareStages(n, id, ps);
    hide Exec, PrepareOps, Prepared, Stored, Short;
    StageOpsTouchTemps(ps);
    WholeOps(StageOps(ps));
    forall i | 0 <= i < |ps|
      ensures Tmp(p) != Tmp(ps[i].path)
    {
      if Tmp(p) == Tmp(ps[i].path) {
        TmpInjective(p, ps[i].path);
      }
    }
    StagingLeaves(n, ps, |StageOps(ps)|, Tmp(p));
  }

  lemma {:induction false} InstallKeepsShort(d: Disk, ps: seq<Piece>, p: string)
    requires PiecesOk(ps) && p in d && |d[p]| <= BLOCK_SIZE
    ensures p in Install(d, ps) && |Install(d, ps)[p]| <= BLOCK_SIZE
  {
    if ps != [] {
      InstallKeepsShort(d, ps[..|ps| - 1], p);
    }
  }

  lemma {:induction false} MemoryAfterInstall(d: Disk, e: Disk, ps: seq<Piece>)
    requires Memory(d) && PiecesOk(ps) && SameBlocks(e, Install(d, ps)) && NoTemps(e)
    ensures Memory(e)
  {
    hide Install, BlockPath, Tmp;
    forall p | IsBlockName(p) && p in e
      ensures |e[p]| <= BLOCK_SIZE
    {
      assert SameAt(e, Install(d, ps), p);
      NamesOfInstall(d, ps, p);
      InstallKeepsShort(d, ps, p);
    }
    forall n: nat | n < BLOCKS
      ensures BlockPath(n) in e && |e[BlockPath(n)]| <= BLOCK_SIZE
    {
      BlockPathIsBlockName(n);
      assert SameAt(e, Install(d, ps), BlockPath(n));
      InstallKeepsShort(d, ps, BlockPath(n));
    }
  }

  lemma {:induction false} WriteInstalls(n: Node, id: string, ps: seq<Piece>, prepare: Status, commit: Status)
    requires Memory(n.disk) && PiecesOk(ps) && ps != [] && Present(n.disk, ps) && Succeeds(prepare, commit)
    ensures var d := Exec(n, ServeOps(n.disk, id, ps, prepare, commit)).disk;
            SameBlocks(d, Install(n.disk, ps)) && Memory(d)
  {
    var n1 := Exec(n, PrepareOps(id, ps));
    var moves := MoveOps(Paths(ps));
    StageableAll(n.disk, ps);
    MemoryIsReusable(n.disk, ps);
    PrepareStages(n, id, ps);
    MovesLength(ps);
    hide Exec, PrepareOps, AfterPrepare, Stored, Short, Install, MoveOps, Reusable, StagedAt, SameBlocks;
    StagedTempsExist(n1, n, ps);
    ExecConcat(n, PrepareOps(id, ps), AfterPrepare(id, ps, prepare, commit));
    DiskAfterSuccess(n1, id, ps, prepare, commit);
    WholeOps(moves);
    assert ps[..|ps|] == ps;
    MovesInstall(n.disk, n1, ps, |ps|);
    TempsAreGone(n1, ps);
    forall p | IsBlockName(p)
      ensures Tmp(p) !in Exec(n1, moves).disk
    {
      if forall i :: 0 <= i < |ps| ==> ps[i].path != p {
        TempsAfterPrepare(n, id, ps, p);
        TempStaysAbsent(n1, ps, p);
      }
    }
    MemoryAfterInstall(n.disk, Exec(n1, moves).disk, ps);
  }

  /** Pieces change their own bytes, to their own data, and no others. */
  lemma {:induction false} InstalledByte(d: Disk, ps: seq<Piece>, p: string, i: nat)
    requires PiecesOk(ps) && IsBlockName(p) && p in d
    ensures p in Install(d, ps)
    ensures !InPieces(ps, p, i) ==> ByteAt(Install(d, ps)[p], i) == ByteAt(d[p], i)
    ensures forall j :: 0 <= j < |ps| && ps[j].path == p && ps[j].off <= i < ps[j].off + |ps[j].data| ==>
              ByteAt(Install(d, ps)[p], i) == ps[j].data[i - ps[j].off]
  {
    if k :| 0 <= k < |ps| && ps[k].path == p {
      InstallHere(d, ps, k);
      assert forall j :: 0 <= j < |ps| && ps[j].path == p ==> j == k;
    } else {
      InstallElsewhere(d, ps, p);
    }
  }

  /** Of the flat array, a write's pieces change exactly the 4096 bytes at its address. */
  lemma {:induction false} InstalledFlat(d: Disk, e: Disk, address: int, buffer: Bytes, x: nat)
    requires Stored(d) && Stored(e) && Fits(address) && |buffer| == BLOCK_SIZE && x < BLOCK_STORAGE_MAX_SIZE
    requires SameBlocks(e, Install(d, PiecesOf(address, buffer)))
    ensures FlatByte(e, x) == if address <= x < address + BLOCK_SIZE then buffer[x - address] else FlatByte(d, x)
  {
    var k, i := x / BLOCK_SIZE, x % BLOCK_SIZE;
    BlockOf(x);
    hide *;
    FitsIsValid(address);
    PiecesSpelledOut(address, buffer);
    PiecesStored(d, address, buffer);
    FlatByteIs(d, x);
    FlatByteIs(e, x);
    InstalledAt(d, e, address, buffer, k, i);
  }

  lemma {:induction false} InstalledAt(d: Disk, e: Disk, address: nat, buffer: Bytes, k: nat, i: nat)
    requires |buffer| == BLOCK_SIZE && i < BLOCK_SIZE && BlockPath(k) in d && PiecesOk(PiecesAt(address, buffer))
    requires SameBlocks(e, Install(d, PiecesAt(address, buffer)))
    ensures BlockPath(k) in e
    ensures var x := k * BLOCK_SIZE + i;
            ByteAt(e[BlockPath(k)], i)
            == if address <= x < address + BLOCK_SIZE then buffer[x - address] else ByteAt(d[BlockPath(k)], i)
  {
    var ps, p := PiecesAt(address, buffer), BlockPath(k);
    hide *;
    BlockPathIsBlockName(k);
    InstalledByte(d, ps, p, i);
    SameContent(e, Install(d, ps), p);
    InPiecesExactly(address, buffer, k, i);
    if InPieces(ps, p, i) {
      PieceAt(ps, p, i);
    }
  }

  lemma {:induction false} BlockOf(x: nat)
    requires x < BLOCK_STORAGE_MAX_SIZE
    ensures x / BLOCK_SIZE < BLOCKS && x % BLOCK_SIZE < BLOCK_SIZE && x == x / BLOCK_SIZE * BLOCK_SIZE + x % BLOCK_SIZE
  {
  }

  lemma {:induction false} FitsIsValid(address: int)
    requires Fits(address)
    ensures IsValidAddress(address) && address >= 0
  {
  }

  lemma {:induction false} SameContent(d: Disk, e: Disk, p: string)
    requires SameBlocks(d, e) && IsBlockName(p) && p in d
    ensures p in e && d[p] == e[p]
  {
  }

  lemma {:induction false} FlatByteIs(d: Disk, x: nat)
    requires Stored(d) && x < BLOCK_STORAGE_MAX_SIZE
    ensures BlockPath(x / BLOCK_SIZE) in d
    ensures FlatByte(d, x) == ByteAt(d[BlockPath(x / BLOCK_SIZE)], x % BLOCK_SIZE)
  {
  }

  lemma {:induction false} PieceAt(ps: seq<Piece>, p: string, i: nat)
    requires InPieces(ps, p, i)
    ensures exists j :: 0 <= j < |ps| && ps[j].path == p && ps[j].off <= i < ps[j].off + |ps[j].data|
  {
  }

  /** A position belongs to a piece exactly when its address is in range, and the piece has the buffer's byte. */
  lemma {:induction false} InPiecesExactly(address: nat, buffer: Bytes, k: nat, i: nat)
    requires |buffer| == BLOCK_SIZE && i < BLOCK_SIZE
    ensures var ps, x := PiecesAt(address, buffer), k * BLOCK_SIZE + i;
            && (InPieces(ps, BlockPath(k), i) <==> address <= x < address + BLOCK_SIZE)
            && forall j :: 0 <= j < |ps| && ps[j].path == BlockPath(k) && ps[j].off <= i < ps[j].off + |ps[j].data| ==>
                 address <= x < address + BLOCK_SIZE && ps[j].data[i - ps[j].off] == buffer[x - address]
  {
    hide BlockPath;
    var n, o := address / BLOCK_SIZE, address % BLOCK_SIZE;
    assert address == n * 4096 + o;
    SamePath(k, n);
    SamePath(k, n + 1);
    if o == 0 {
      OnePiece(PiecesAt(address, buffer), BlockPath(k), i);
    } else {
      TwoPieces(PiecesAt(address, buffer), BlockPath(k), i);
    }
  }

  lemma {:induction false} SamePath(k: nat, n: nat)
    ensures BlockPath(k) == BlockPath(n) <==> k == n
  {
    hide BlockPath;
    if BlockPath(k) == BlockPath(n) {
      BlockPathInjective(k, n);
    }
  }

  predicate PieceHas(piece: Piece, p: string, i: nat) {
    piece.path == p && piece.off <= i < piece.off + |piece.data|
  }

  lemma {:induction false} OnePiece(ps: seq<Piece>, p: string, i: nat)
    requires |ps| == 1
    ensures InPieces(ps, p, i) <==> PieceHas(ps[0], p, i)
  {
  }

  lemma {:induction false} TwoPieces(ps: seq<Piece>, p: string, i: nat)
    requires |ps| == 2
    ensures InPieces(ps, p, i) <==> PieceHas(ps[0], p, i) || PieceHas(ps[1], p, i)
  {
  }

  /** One successful write, on the flat array. */
  lemma {:induction false} WriteIsFlat(n: Node, id: string, address: int, buffer: Bytes, prepare: Status, commit: Status, x: nat)
    requires Memory(n.disk) && Fits(address) && |buffer| == BLOCK_SIZE && Succeeds(prepare, commit)
    requires x < BLOCK_STORAGE_MAX_SIZE
    ensures var d := Exec(n, ServeOps(n.disk, id, PiecesOf(address, buffer), prepare, commit)).disk;
            && Memory(d)
            && FlatByte(d, x) == if address <= x < address + BLOCK_SIZE then buffer[x - address] else FlatByte(n.disk, x)
  {
    var ps := PiecesOf(address, buffer);
    PiecesStored(n.disk, address, buffer);
    WriteInstalls(n, id, ps, prepare, commit);
    hide Exec, ServeOps, PiecesOf, Install, BlockPath, NoTemps, Short;
    InstalledFlat(n.disk, Exec(n, ServeOps(n.disk, id, ps, prepare, commit)).disk, address, buffer, x);
  }

  // ----- One read -----

  ghost function FlatRange(d: Disk, address: nat): (r: Bytes)
    requires Stored(d) && Fits(address)
    ensures |r| == BLOCK_SIZE && forall i :: 0 <= i < BLOCK_SIZE ==> r[i] == FlatByte(d, address + i)
  {
    seq(BLOCK_SIZE, i requires 0 <= i < BLOCK_SIZE => FlatByte(d, address + i))
  }

  /** A read returns the flat bytes exactly when none of them is zero. */
  lemma {:induction false} ReadIsFlat(d: Disk, address: int)
    requires Stored(d) && Fits(address)
    ensures ExtentsPresent(d, Extents(address))
    ensures ReadAll(d, Extents(address)) == FlatRange(d, address) <==> 0 !in FlatRange(d, address)
  {
    var n, o := address / BLOCK_SIZE, address % BLOCK_SIZE;
    assert address == n * 4096 + o;
    hide BlockPath, CString, ByteAt;
    assert BlockPath(n) in d;
    if o == 0 {
      ReadAligned(d, address, n);
    } else {
      assert n + 1 < BLOCKS && BlockPath(n + 1) in d;
      ReadAcross(d, address, n, o);
    }
  }

  lemma {:induction false} ReadAligned(d: Disk, address: nat, n: nat)
    requires Stored(d) && Fits(address) && address == n * BLOCK_SIZE
    ensures ExtentsPresent(d, Extents(address))
    ensures ReadAll(d, Extents(address)) == FlatRange(d, address) <==> 0 !in FlatRange(d, address)
  {
    hide BlockPath, CString, ByteAt, FlatRange, ReadAll;
    assert BlockPath(n) in d;
    var e := PathData(BlockPath(n), 0, BLOCK_SIZE);
    assert Extents(address) == [e];
    var w := Window(d[e.path], 0, BLOCK_SIZE);
    FlatWindow(d, address, n, 0, BLOCK_SIZE, 0);
    assert FlatRange(d, address)[0..BLOCK_SIZE] == FlatRange(d, address);
    CStringWhole(w);
    ReadOne(d, e);
  }

  lemma {:induction false} ReadAcross(d: Disk, address: nat, n: nat, o: nat)
    requires Stored(d) && Fits(address) && address == n * BLOCK_SIZE + o && 0 < o < BLOCK_SIZE && n + 1 < BLOCKS
    ensures ExtentsPresent(d, Extents(address))
    ensures ReadAll(d, Extents(address)) == FlatRange(d, address) <==> 0 !in FlatRange(d, address)
  {
    hide BlockPath, CString, ByteAt, FlatRange, ReadAll;
    assert BlockPath(n) in d && BlockPath(n + 1) in d;
    var e, f := PathData(BlockPath(n), o, BLOCK_SIZE - o), PathData(BlockPath(n + 1), 0, o);
    assert Extents(address) == [e] + [f];
    var v, w := Window(d[e.path], o, BLOCK_SIZE - o), Window(d[f.path], 0, o);
    FlatWindow(d, address, n, o, BLOCK_SIZE - o, 0);
    FlatWindow(d, address, n + 1, 0, o, BLOCK_SIZE - o);
    var flat := FlatRange(d, address);
    assert flat == flat[0..BLOCK_SIZE - o] + flat[BLOCK_SIZE - o..BLOCK_SIZE];
    CStringWhole(v);
    CStringWhole(w);
    ConcatWhole(v, w);
    ReadTwo(d, e, f);
  }

  lemma {:induction false} FlatWindow(d: Disk, address: nat, k: nat, off: nat, size: nat, from: nat)
    requires Stored(d) && Fits(address) && k < BLOCKS && off + size <= BLOCK_SIZE && from + size <= BLOCK_SIZE
    requires k * BLOCK_SIZE + off == address + from
    ensures Window(d[BlockPath(k)], off, size) == FlatRange(d, address)[from..from + size]
  {
    hide BlockPath;
    var w := Window(d[BlockPath(k)], off, size);
    forall i | 0 <= i < size
      ensures w[i] == FlatRange(d, address)[from + i]
    {
      var x := address + from + i;
      assert x == k * 4096 + (off + i);
      assert x / BLOCK_SIZE == k && x % BLOCK_SIZE == off + i;
    }
  }

  lemma {:induction false} ReadOne(d: Disk, e: PathData)
    requires e.path in d
    ensures ReadAll(d, [e]) == ReadExtent(d, e)
  {
  }

  lemma {:induction false} ReadTwo(d: Disk, e: PathData, f: PathData)
    requires e.path in d && f.path in d
    ensures ReadAll(d, [e] + [f]) == ReadExtent(d, e) + ReadExtent(d, f)
  {
    assert ([e] + [f])[..1] == [e];
    ReadOne(d, e);
  }

  lemma {:induction false} ConcatWhole(v: Bytes, w: Bytes)
    ensures CString(v) + CString(w) == v + w <==> CString(v) == v && CString(w) == w
    ensures 0 !in v + w <==> 0 !in v && 0 !in w
  {
  }

  // ----- Runs -----

  datatype Request = Request(id: string, address: int, buffer: Bytes, prepare: Status, commit: Status)

  ghost predicate Served(r: Request) {
    Fits(r.address) && |r.buffer| == BLOCK_SIZE && Succeeds(r.prepare, r.commit)
  }

  function After(n: Node, rs: seq<Request>): Node {
    if rs == [] then n
    else
      var n1, r := After(n, rs[..|rs| - 1]), rs[|rs| - 1];
      Exec(n1, ServeOps(n1.disk, r.id, PiecesOf(r.address, r.buffer), r.prepare, r.commit))
  }

  /** The flat array itself: the byte of the last write that covers `x`, zero if none does. */
  ghost function FlatAfter(rs: seq<Request>, x: nat): byte
    requires forall r :: r in rs ==> Served(r)
  {
    if rs == [] then 0
    else
      var r := rs[|rs| - 1];
      assert Served(r);
      if r.address <= x < r.address + BLOCK_SIZE then r.buffer[x - r.address] else FlatAfter(rs[..|rs| - 1], x)
  }

  /** Any sequence of successful writes makes of the server's files what it makes of a flat byte array. */
  lemma {:induction false} ServerIsFlatMemory(n: Node, rs: seq<Request>, x: nat)
    requires Created(n.disk) && x < BLOCK_STORAGE_MAX_SIZE && forall r :: r in rs ==> Served(r)
    ensures Memory(After(n, rs).disk) && FlatByte(After(n, rs).disk, x) == FlatAfter(rs, x)
  {
    hide Memory, BlockPath, Exec, ServeOps, PiecesOf, NoTemps, Short, Fits, Succeeds;
    if rs == [] {
      CreatedIsMemory(n.disk, x);
    } else {
      var init, r := rs[..|rs| - 1], rs[|rs| - 1];
      assert forall q :: q in init ==> q in rs;
      ServerIsFlatMemory(n, init, x);
      assert r in rs;
      WriteIsFlat(After(n, init), r.id, r.address, r.buffer, r.prepare, r.commit, x);
    }
  }

  lemma {:induction false} CreatedIsMemory(d: Disk, x: nat)
    requires Created(d) && x < BLOCK_STORAGE_MAX_SIZE
    ensures Memory(d) && FlatByte(d, x) == 0
  {
  }

  ghost predicate WrittenTo(rs: seq<Request>, x: int) {
    exists r :: r in rs && r.address <= x < r.address + BLOCK_SIZE
  }

  lemma {:induction false} CoveredByteIsNonZero(rs: seq<Request>, x: nat)
    requires forall r :: r in rs ==> Served(r) && 0 !in r.buffer
    requires WrittenTo(rs, x)
    ensures FlatAfter(rs, x) != 0
  {
    var r := rs[|rs| - 1];
    assert r in rs;
    if r.address <= x < r.address + BLOCK_SIZE {
      assert r.buffer[x - r.address] in r.buffer;
    } else {
      var q :| q in rs && q.address <= x < q.address + BLOCK_SIZE;
      assert q in rs[..|rs| - 1];
      assert forall z :: z in rs[..|rs| - 1] ==> z in rs;
      CoveredByteIsNonZero(rs[..|rs| - 1], x);
    }
  }

  /** Reading a range that zero-free writes have covered returns exactly what was last written to each byte. */
  lemma {:induction false} ReadsWhatWasWritten(n: Node, rs: seq<Request>, address: int)
    requires Created(n.disk) && Fits(address) && forall r :: r in rs ==> Served(r) && 0 !in r.buffer
    requires forall x :: address <= x < address + BLOCK_SIZE ==> WrittenTo(rs, x)
    ensures ExtentsPresent(After(n, rs).disk, Extents(address))
    ensures var content := ReadAll(After(n, rs).disk, Extents(address));
            |content| == BLOCK_SIZE && forall i :: 0 <= i < BLOCK_SIZE ==> content[i] == FlatAfter(rs, address + i)
  {
    hide Created, After, BlockPath, Extents, ReadAll, NoTemps, Short, Stored, FlatAfter, FlatByte, CString;
    var d := After(n, rs).disk;
    ServerIsFlatMemory(n, rs, address);
    forall i | 0 <= i < BLOCK_SIZE
      ensures FlatRange(d, address)[i] == FlatAfter(rs, address + i) && FlatRange(d, address)[i] != 0
    {
      ServerIsFlatMemory(n, rs, address + i);
      CoveredByteIsNonZero(rs, address + i);
    }
    ReadIsFlat(d, address);
  }
}
