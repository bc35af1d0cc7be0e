/** One server as a flat array, over runs in which writes may fail: what the leftovers of those do to later ones. */
module FlatRuns {
  import opened Storage
  import opened AddressTranslation
  import opened Nodes
  import opened Effects
  import opened CrashAtomicity
  import opened BlockServer
  import opened Divergence
  import opened FlatMemory

  /** The write renames its files: all exist, and the other server did not refuse to prepare it. */
  predicate Takes(r: Request) {
    Fits(r.address) && r.prepare != OTHER
  }

  /** Storage in which created blocks, and no others, have grown as far as a block goes. */
  ghost predicate InUse(d: Disk) {
    && Stored(d) && Short(d) && TempsSmall(d)
    && forall p :: IsBlockName(p) && p in d ==> IsStoredBlock(p)
  }

  predicate Covers(r: Request, x: int) {
    r.address <= x < r.address + BLOCK_SIZE
  }

  /** The flat array: the byte of the last write that took effect and covers `x`, zero if none does. */
  function FlatSpec(rs: seq<Request>, x: nat): byte
    requires forall r :: r in rs ==> |r.buffer| == BLOCK_SIZE
  {
    if rs == [] then 0
    else
      var r := rs[|rs| - 1];
      assert r in rs;
      if Takes(r) && Covers(r, x) then r.buffer[x - r.address] else FlatSpec(rs[..|rs| - 1], x)
  }

  function RequestPieces(r: Request): seq<Piece> {
    PiecesOf(r.address, r.buffer)
  }

  /** No leftover shows through in the blocks of a write. */
  ghost predicate NoneShows(d: Disk, ps: seq<Piece>) {
    forall j: nat, i: nat :: j < |ps| && ps[j].path in d && i < BLOCK_SIZE && !InExtent(ps[j], i) ==>
      ShownByte(d, ps[j].path, i) == ByteAt(d[ps[j].path], i)
  }

  function AfterRequest(n: Node, r: Request): Node {
    Exec(n, ServeOps(n.disk, r.id, RequestPieces(r), r.prepare, r.commit))
  }

  // ----- One request -----

  lemma {:induction false} TakesExactly(d: Disk, r: Request)
    requires InUse(d) && |r.buffer| == BLOCK_SIZE
    ensures var ps := RequestPieces(r);
            && PiecesOk(ps) && (ps != [] <==> IsValidAddress(r.address))
            && (ps != [] ==> (Present(d, ps) <==> Fits(r.address)))
  {
    PiecesAreClean(r.address, r.buffer);
    if IsValidAddress(r.address) {
      CutOfExtents(r.address, r.buffer);
      PiecesSpelledOut(r.address, r.buffer);
      if Fits(r.address) {
        PiecesStored(d, r.address, r.buffer);
      } else {
        LastIsMissing(d, r.address, r.buffer);
      }
    }
  }

  lemma {:induction false} LastIsMissing(d: Disk, address: int, buffer: Bytes)
    requires InUse(d) && |buffer| == BLOCK_SIZE && IsValidAddress(address) && !Fits(address)
    ensures PiecesAt(address, buffer)[1].path !in d
  {
    hide BlockPath;
    assert address / BLOCK_SIZE + 1 == BLOCKS && address % BLOCK_SIZE != 0;
    BlockPathIsBlockName(BLOCKS);
    BlockIsStored(BLOCKS);
  }

  lemma {:induction false} RequestPlaces(n: Node, r: Request)
    requires InUse(n.disk) && |r.buffer| == BLOCK_SIZE
    ensures Placed(n.disk, AfterRequest(n, r).disk, RequestPieces(r), if Takes(r) then |RequestPieces(r)| else 0)
    ensures TempsSmall(AfterRequest(n, r).disk)
  {
    var ps := RequestPieces(r);
    TakesExactly(n.disk, r);
    hide Exec, PiecesOf, OldOrStaged, PiecesOk, Stored, IsBlockName, Short;
    if ps == [] {
      ExecNothing(n, []);
      NothingPlaced(n.disk, ps);
    } else {
      ServesSmall(n, r.id, ps, r.prepare, r.commit);
      if Takes(r) {
        WritePlaces(n, r.id, ps, r.prepare, r.commit);
      } else {
        RefusedPlaces(n, r.id, ps, r.prepare, r.commit);
      }
    }
  }

  lemma {:induction false} ServesSmall(n: Node, id: string, ps: seq<Piece>, prepare: Status, commit: Status)
    requires PiecesOk(ps) && TempsSmall(n.disk)
    ensures TempsSmall(Exec(n, WriteOps(n.disk, id, ps, prepare, commit)).disk)
  {
    var k := Stageable(n.disk, ps);
    FirstPiecesOk(ps, k);
    StagingIsSmall(ps[..k]);
    PrepareIsSmall(id, ps);
    AfterPrepareIsSmall(id, ps, prepare, commit);
    hide Small, TempsSmall, PiecesOk, PrepareOps, AfterPrepare, StageOps, Stageable;
    SmallConcat(PrepareOps(id, ps), AfterPrepare(id, ps, prepare, commit));
    StaysSmall(n, WriteOps(n.disk, id, ps, prepare, commit));
  }

  lemma {:induction false} RefusedPlaces(n: Node, id: string, ps: seq<Piece>, prepare: Status, commit: Status)
    requires PiecesOk(ps) && (Present(n.disk, ps) ==> prepare == OTHER)
    ensures Placed(n.disk, Exec(n, WriteOps(n.disk, id, ps, prepare, commit)).disk, ps, 0)
  {
    var ops := WriteOps(n.disk, id, ps, prepare, commit);
    WholeOps(ops);
    assert FilesInPlace(n.disk, ps, prepare, |ops|) == 0;
    hide Exec, WriteOps, OldOrStaged, PiecesOk, Stageable, FilesInPlace;
    forall q | IsBlockName(q)
      ensures OldOrStaged(n.disk, Exec(n, ops).disk, ps, 0, q)
    {
      WriteCrashExactly(n, id, ps, prepare, commit, |ops|, q);
    }
  }

  lemma {:induction false} InUseParts(d: Disk)
    requires InUse(d)
    ensures Stored(d) && Short(d) && TempsSmall(d)
  {
  }

  lemma {:induction false} InUseWhenGrown(d: Disk, e: Disk)
    requires InUse(d) && Short(e) && TempsSmall(e) && Grows(d, e)
    ensures InUse(e)
  {
    hide TempsSmall, BlockPath, IsStoredBlock;
    forall b: nat | b < BLOCKS
      ensures BlockPath(b) in e && |e[BlockPath(b)]| <= BLOCK_SIZE
    {
      BlockPathIsBlockName(b);
    }
  }

  lemma {:induction false} StaysInUse(n: Node, r: Request)
    requires InUse(n.disk) && |r.buffer| == BLOCK_SIZE
    ensures InUse(AfterRequest(n, r).disk)
  {
    hide *;
    InUseParts(n.disk);
    TakesExactly(n.disk, r);
    RequestPlaces(n, r);
    GrowsWhenPlaced(n.disk, AfterRequest(n, r).disk, RequestPieces(r), if Takes(r) then |RequestPieces(r)| else 0);
    InUseWhenGrown(n.disk, AfterRequest(n, r).disk);
  }

  /** A byte of the flat array after any request: the buffer's, or the one it was, unless a leftover shows. */
  ghost predicate ByteAsShown(d: Disk, e: Disk, r: Request, k: nat, i: nat) {
    var ps, p, x := RequestPieces(r), BlockPath(k), k * BLOCK_SIZE + i;
    && p in d && p in e
    && (Takes(r) && Covers(r, x) ==> |r.buffer| == BLOCK_SIZE && ByteAt(e[p], i) == r.buffer[x - r.address])
    && (!(Takes(r) && Covers(r, x)) ==>
          ByteAt(e[p], i) == if Takes(r) && p in Paths(ps) then ShownByte(d, p, i) else ByteAt(d[p], i))
    && (forall j: nat :: Takes(r) && j < |ps| && ps[j].path == p ==> (InExtent(ps[j], i) <==> Covers(r, x)))
  }

  lemma {:induction false} ByteAfterRequest(n: Node, r: Request, k: nat, i: nat)
    requires InUse(n.disk) && |r.buffer| == BLOCK_SIZE && k < BLOCKS && i < BLOCK_SIZE
    ensures ByteAsShown(n.disk, AfterRequest(n, r).disk, r, k, i)
  {
    var d, e, ps, m := n.disk, AfterRequest(n, r).disk, RequestPieces(r), if Takes(r) then |RequestPieces(r)| else 0;
    TakesExactly(d, r);
    RequestPlaces(n, r);
    StoredAt(d, k);
    hide AfterRequest, BlockPath, InUse, TempsSmall, Placed, RequestPieces, Takes, PiecesOk, ByteAsShown;
    if j: nat :| j < |ps| && ps[j].path == BlockPath(k) {
      ByteHere(d, e, r, k, i, j);
    } else {
      ByteElsewhere(d, e, r, k, i);
    }
  }

  lemma {:induction false} StoredAt(d: Disk, k: nat)
    requires InUse(d) && k < BLOCKS
    ensures BlockPath(k) in d && IsBlockName(BlockPath(k)) && Short(d)
  {
    BlockPathIsBlockName(k);
  }

  lemma {:induction false} ByteHere(d: Disk, e: Disk, r: Request, k: nat, i: nat, j: nat)
    requires |r.buffer| == BLOCK_SIZE && i < BLOCK_SIZE && PiecesOk(RequestPieces(r)) && Short(d) && BlockPath(k) in d
    requires Placed(d, e, RequestPieces(r), if Takes(r) then |RequestPieces(r)| else 0)
    requires j < |RequestPieces(r)| && RequestPieces(r)[j].path == BlockPath(k)
    ensures ByteAsShown(d, e, r, k, i)
  {
    var ps := RequestPieces(r);
    hide BlockPath, Short, Placed, RequestPieces, ShownByte, ByteAt, Takes, PiecesOk, Covers, InExtent;
    assert Paths(ps)[j] == BlockPath(k);
    PlacedHere(d, e, ps, if Takes(r) then |ps| else 0, j, i);
    if Takes(r) {
      ExtentCovers(r, k, i, j);
    }
    OnePath(ps, j);
  }

  lemma {:induction false} ByteElsewhere(d: Disk, e: Disk, r: Request, k: nat, i: nat)
    requires |r.buffer| == BLOCK_SIZE && i < BLOCK_SIZE && BlockPath(k) in d && IsBlockName(BlockPath(k))
    requires Placed(d, e, RequestPieces(r), if Takes(r) then |RequestPieces(r)| else 0)
    requires forall j: nat :: j < |RequestPieces(r)| ==> RequestPieces(r)[j].path != BlockPath(k)
    ensures ByteAsShown(d, e, r, k, i)
  {
    var ps := RequestPieces(r);
    hide BlockPath, Placed, RequestPieces, ShownByte, ByteAt, Takes, Covers, InExtent, IsBlockName;
    PlacedElsewhere(d, e, ps, if Takes(r) then |ps| else 0, BlockPath(k));
    assert forall j: nat :: j < |ps| ==> Paths(ps)[j] == ps[j].path;
    if Takes(r) {
      NoExtentCovers(r, k, i);
    }
  }

  lemma {:induction false} OnePath(ps: seq<Piece>, j: nat)
    requires PiecesOk(ps) && j < |ps|
    ensures forall m: nat :: m < |ps| && ps[m].path == ps[j].path ==> m == j
  {
  }

  lemma {:induction false} ExtentCovers(r: Request, k: nat, i: nat, j: nat)
    requires Takes(r) && |r.buffer| == BLOCK_SIZE && i < BLOCK_SIZE && PiecesOk(RequestPieces(r))
    requires j < |RequestPieces(r)| && RequestPieces(r)[j].path == BlockPath(k)
    ensures var ps, x := RequestPieces(r), k * BLOCK_SIZE + i;
            && (InExtent(ps[j], i) <==> Covers(r, x))
            && (Covers(r, x) ==> ps[j].data[i - ps[j].off] == r.buffer[x - r.address])
  {
    var ps := RequestPieces(r);
    FitsIsValid(r.address);
    PiecesSpelledOut(r.address, r.buffer);
    hide BlockPath, PiecesOf, PiecesAt;
    InPiecesExactly(r.address, r.buffer, k, i);
    OnePath(ps, j);
  }

  lemma {:induction false} NoExtentCovers(r: Request, k: nat, i: nat)
    requires Takes(r) && |r.buffer| == BLOCK_SIZE && i < BLOCK_SIZE
    requires forall j: nat :: j < |RequestPieces(r)| ==> RequestPieces(r)[j].path != BlockPath(k)
    ensures !Covers(r, k * BLOCK_SIZE + i)
  {
    FitsIsValid(r.address);
    PiecesSpelledOut(r.address, r.buffer);
    hide *;
    InPiecesExactly(r.address, r.buffer, k, i);
    CoversIs(r, k * BLOCK_SIZE + i);
    RequestPiecesAre(r);
    NotInPieces(RequestPieces(r), BlockPath(k), i);
  }

  lemma {:induction false} CoversIs(r: Request, x: int)
    ensures Covers(r, x) <==> r.address <= x < r.address + BLOCK_SIZE
  {
  }

  lemma {:induction false} RequestPiecesAre(r: Request)
    ensures RequestPieces(r) == PiecesOf(r.address, r.buffer)
  {
  }

  lemma {:induction false} NotInPieces(ps: seq<Piece>, p: string, i: nat)
    requires forall j: nat :: j < |ps| ==> ps[j].path != p
    ensures !InPieces(ps, p, i)
  {
  }

  /** What a request should do to one byte of the flat array. */
  ghost predicate FlatStepAt(n: Node, r: Request, x: nat)
    requires InUse(n.disk) && |r.buffer| == BLOCK_SIZE && x < BLOCK_STORAGE_MAX_SIZE
  {
    StaysInUse(n, r);
    FlatByte(AfterRequest(n, r).disk, x)
    == if Takes(r) && Covers(r, x) then r.buffer[x - r.address] else FlatByte(n.disk, x)
  }

  lemma {:induction false} FlatStepAtBlock(n: Node, r: Request, x: nat)
    requires InUse(n.disk) && |r.buffer| == BLOCK_SIZE && x < BLOCK_STORAGE_MAX_SIZE
    ensures var d, p, i := n.disk, BlockPath(x / BLOCK_SIZE), x % BLOCK_SIZE;
            && p in d
            && (FlatStepAt(n, r, x)
                <==> (Takes(r) && p in Paths(RequestPieces(r)) && !Covers(r, x) ==> ShownByte(d, p, i) == ByteAt(d[p], i)))
  {
    var k, i := x / BLOCK_SIZE, x % BLOCK_SIZE;
    assert x == k * BLOCK_SIZE + i && k < BLOCKS;
    StaysInUse(n, r);
    ByteAfterRequest(n, r, k, i);
    hide AfterRequest, BlockPath, RequestPieces, Takes, ShownByte, ByteAt;
  }

  /** A request does to the flat array what it should, exactly when no leftover shows through in its blocks. */
  lemma {:induction false} RequestIsFlatExactly(n: Node, r: Request)
    requires InUse(n.disk) && |r.buffer| == BLOCK_SIZE
    ensures (forall x: nat :: x < BLOCK_STORAGE_MAX_SIZE ==> FlatStepAt(n, r, x))
            <==> (Takes(r) ==> NoneShows(n.disk, RequestPieces(r)))
  {
    var d, ps := n.disk, RequestPieces(r);
    if Takes(r) ==> NoneShows(d, ps) {
      forall x: nat | x < BLOCK_STORAGE_MAX_SIZE
        ensures FlatStepAt(n, r, x)
      {
        FlatWhenNoneShows(n, r, x);
      }
    }
    if Takes(r) && forall x: nat :: x < BLOCK_STORAGE_MAX_SIZE ==> FlatStepAt(n, r, x) {
      forall j: nat, i: nat | j < |ps| && ps[j].path in d && i < BLOCK_SIZE && !InExtent(ps[j], i)
        ensures ShownByte(d, ps[j].path, i) == ByteAt(d[ps[j].path], i)
      {
        NoneShowsWhenFlat(n, r, j, i);
      }
    }
  }

  lemma {:induction false} FlatWhenNoneShows(n: Node, r: Request, x: nat)
    requires InUse(n.disk) && |r.buffer| == BLOCK_SIZE && x < BLOCK_STORAGE_MAX_SIZE
    requires Takes(r) ==> NoneShows(n.disk, RequestPieces(r))
    ensures FlatStepAt(n, r, x)
  {
    var d, ps, k, i := n.disk, RequestPieces(r), x / BLOCK_SIZE, x % BLOCK_SIZE;
    var p := BlockPath(k);
    assert x == k * BLOCK_SIZE + i && k < BLOCKS;
    ByteAfterRequest(n, r, k, i);
    FlatStepAtBlock(n, r, x);
    hide BlockPath, RequestPieces, AfterRequest, FlatStepAt, ShownByte, ByteAt, InUse, Covers, InExtent;
    if Takes(r) && p in Paths(ps) && !Covers(r, x) {
      var j: nat :| j < |Paths(ps)| && Paths(ps)[j] == p;
      assert ps[j].path == p;
    }
  }

  lemma {:induction false} NoneShowsWhenFlat(n: Node, r: Request, j: nat, i: nat)
    requires InUse(n.disk) && |r.buffer| == BLOCK_SIZE && Takes(r)
    requires forall x: nat :: x < BLOCK_STORAGE_MAX_SIZE ==> FlatStepAt(n, r, x)
    requires j < |RequestPieces(r)| && i < BLOCK_SIZE && !InExtent(RequestPieces(r)[j], i)
    ensures var p := RequestPieces(r)[j].path; p in n.disk && ShownByte(n.disk, p, i) == ByteAt(n.disk[p], i)
  {
    var ps := RequestPieces(r);
    var k := StoredPiece(n.disk, r, j);
    var x := k * BLOCK_SIZE + i;
    assert x / BLOCK_SIZE == k && x % BLOCK_SIZE == i && x < BLOCK_STORAGE_MAX_SIZE;
    ByteAfterRequest(n, r, k, i);
    FlatStepAtBlock(n, r, x);
    hide BlockPath, RequestPieces, AfterRequest, FlatStepAt, ShownByte, ByteAt, InUse, Covers, InExtent, Takes;
    assert FlatStepAt(n, r, x);
    assert Paths(ps)[j] == BlockPath(k);
  }

  lemma {:induction false} StoredPiece(d: Disk, r: Request, j: nat) returns (k: nat)
    requires InUse(d) && |r.buffer| == BLOCK_SIZE && Takes(r) && j < |RequestPieces(r)|
    ensures k < BLOCKS && RequestPieces(r)[j].path == BlockPath(k)
  {
    FitsIsValid(r.address);
    PiecesSpelledOut(r.address, r.buffer);
    hide BlockPath, PiecesOf, Stored, Short, TempsSmall, InUse;
    k := r.address / BLOCK_SIZE + j;
  }

  // ----- Runs -----

  ghost predicate FlatAt(n: Node, rs: seq<Request>, x: nat)
    requires InUse(After(n, rs).disk) && x < BLOCK_STORAGE_MAX_SIZE && forall r :: r in rs ==> |r.buffer| == BLOCK_SIZE
  {
    FlatByte(After(n, rs).disk, x) == FlatSpec(rs, x)
  }

  ghost predicate IsFlat(n: Node, rs: seq<Request>)
    requires InUse(n.disk) && forall r :: r in rs ==> |r.buffer| == BLOCK_SIZE
  {
    RunStaysInUse(n, rs);
    forall x: nat :: x < BLOCK_STORAGE_MAX_SIZE ==> FlatAt(n, rs, x)
  }

  lemma {:induction false} AfterOneMore(n: Node, rs: seq<Request>)
    requires rs != []
    ensures After(n, rs) == AfterRequest(After(n, rs[..|rs| - 1]), rs[|rs| - 1])
  {
  }

  lemma {:induction false} RunStaysInUse(n: Node, rs: seq<Request>)
    requires InUse(n.disk) && forall r :: r in rs ==> |r.buffer| == BLOCK_SIZE
    ensures InUse(After(n, rs).disk)
  {
    hide InUse, AfterRequest;
    if rs != [] {
      var init, r := rs[..|rs| - 1], rs[|rs| - 1];
      assert r in rs && forall q :: q in init ==> q in rs;
      RunStaysInUse(n, init);
      AfterOneMore(n, rs);
      StaysInUse(After(n, init), r);
    }
  }

  /** The last request's blocks hold no leftover that would show, if it takes effect. */
  ghost predicate ShowsNothing(n: Node, r: Request) {
    Takes(r) ==> NoneShows(n.disk, RequestPieces(r))
  }

  lemma {:induction false} FlatOneMore(n: Node, rs: seq<Request>)
    requires InUse(n.disk) && rs != [] && forall r :: r in rs ==> |r.buffer| == BLOCK_SIZE
    requires (forall r :: r in rs[..|rs| - 1] ==> |r.buffer| == BLOCK_SIZE) && IsFlat(n, rs[..|rs| - 1])
    ensures IsFlat(n, rs) <==> ShowsNothing(After(n, rs[..|rs| - 1]), rs[|rs| - 1])
  {
    var init, r := rs[..|rs| - 1], rs[|rs| - 1];
    assert r in rs;
    RunStaysInUse(n, init);
    RunStaysInUse(n, rs);
    AfterOneMore(n, rs);
    RequestIsFlatExactly(After(n, init), r);
    hide InUse, AfterRequest, After, NoneShows, Takes, Covers, FlatByte;
    forall x: nat | x < BLOCK_STORAGE_MAX_SIZE
      ensures FlatAt(n, rs, x) <==> FlatStepAt(After(n, init), r, x)
    {
      assert FlatAt(n, init, x);
    }
  }

  /** Over any sequence of requests, at any address, with any outcomes of staging and of the calls: the files are at
      all times the flat array that the successful renames make, exactly when none of these lets a leftover of an
      earlier, failed write show through. */
  lemma {:induction false} RunIsFlatExactly(n: Node, rs: seq<Request>)
    requires InUse(n.disk) && IsFlat(n, []) && forall r :: r in rs ==> |r.buffer| == BLOCK_SIZE
    ensures forall k :: 0 <= k <= |rs| ==> forall r :: r in rs[..k] ==> |r.buffer| == BLOCK_SIZE
    ensures (forall k :: 0 <= k <= |rs| ==> IsFlat(n, rs[..k]))
            <==> forall k :: 0 <= k < |rs| ==> ShowsNothing(After(n, rs[..k]), rs[k])
  {
    hide InUse, IsFlat, ShowsNothing, After;
    forall k, r | 0 <= k <= |rs| && r in rs[..k]
      ensures |r.buffer| == BLOCK_SIZE
    {
      assert r in rs;
    }
    if forall k :: 0 <= k <= |rs| ==> IsFlat(n, rs[..k]) {
      forall k | 0 <= k < |rs|
        ensures ShowsNothing(After(n, rs[..k]), rs[k])
      {
        assert rs[..k + 1][..k] == rs[..k];
        FlatOneMore(n, rs[..k + 1]);
      }
    }
    if forall k :: 0 <= k < |rs| ==> ShowsNothing(After(n, rs[..k]), rs[k]) {
      forall k | 0 <= k <= |rs|
        ensures IsFlat(n, rs[..k])
      {
        FlatSoFar(n, rs, k);
      }
    }
  }

  lemma {:induction false} FlatSoFar(n: Node, rs: seq<Request>, k: nat)
    requires InUse(n.disk) && IsFlat(n, []) && (forall r :: r in rs ==> |r.buffer| == BLOCK_SIZE) && k <= |rs|
    requires forall i :: 0 <= i < k ==> ShowsNothing(After(n, rs[..i]), rs[i])
    ensures (forall r :: r in rs[..k] ==> |r.buffer| == BLOCK_SIZE) && IsFlat(n, rs[..k])
  {
    hide InUse, IsFlat, ShowsNothing, After;
    assert forall r :: r in rs[..k] ==> r in rs;
    if k == 0 {
      assert rs[..0] == [];
    } else {
      FlatSoFar(n, rs, k - 1);
      assert rs[..k][..k - 1] == rs[..k - 1];
      FlatOneMore(n, rs[..k]);
    }
  }

  /** Created storage is a flat array of zeros. */
  lemma {:induction false} NewStorageIsFlat()
    ensures InUse(NewStorage()) && IsFlat(Node(NewStorage(), [], map[]), [])
  {
    var n := Node(NewStorage(), [], map[]);
    NewStorageIsCreated();
    forall p
      ensures IsBlockName(p) && p in NewStorage() ==> IsStoredBlock(p)
      ensures IsBlockName(p) ==> Tmp(p) !in NewStorage()
    {
      NewStorageFiles(p);
      NewStorageFiles(Tmp(p));
      TmpIsNotABlock(p);
    }
    hide NewStorage, BlockPath, IsStoredBlock, IsBlockName;
    assert InUse(n.disk);
    forall x: nat | x < BLOCK_STORAGE_MAX_SIZE
      ensures FlatByte(n.disk, x) == 0
    {
      CreatedIsMemory(n.disk, x);
    }
    assert After(n, []) == n;
  }
}
