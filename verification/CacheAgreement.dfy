/** With caching on and clients that ask for whole blocks: what the cache answers against what the files would, also
    on a server that the other one replicates writes to. */
module CacheAgreement {
  import opened Decimal
  import opened Storage
  import opened AddressTranslation
  import opened ContentCache
  import opened Nodes
  import opened Effects
  import opened CrashAtomicity
  import opened BlockServer
  import opened PrimaryRecovery
  import opened Divergence
  import opened FlatMemory

  datatype CachingServer = CachingServer(node: Node, cache: Entries)

  datatype CacheRequest =
    | ReadAt(address: int)
    | WriteAt(id: string, address: int, buffer: Bytes, prepare: Status, commit: Status)
    | Replicated(id: string, address: int, buffer: Bytes)   // `Prepare` and `Commit` for a write of the other server

  /** `Read` and `Write`, as their contracts in the server give their effect on files and cache. */
  ghost function AfterRead(s: CachingServer, address: int): CachingServer {
    if Lookup(s.cache, IntToString(address)) == [] && ExtentsPresent(s.node.disk, Extents(address))
    then s.(cache := AddedEntry(s.cache, IntToString(address), ReadAll(s.node.disk, Extents(address))))
    else s
  }

  function AfterCachedWrite(s: CachingServer, id: string, address: int, buffer: Bytes, prepare: Status, commit: Status): CachingServer {
    var ps := PiecesOf(address, buffer);
    CachingServer(Exec(s.node, ServeOps(s.node.disk, id, ps, prepare, commit)),
                  CacheAfterWrite(true, s.cache, IntToString(address), buffer, WriteReply(s.node.disk, ps, prepare, commit)))
  }

  /** The handlers for the other server know nothing of the cache. */
  function AfterReplicated(s: CachingServer, id: string, ps: seq<Piece>): CachingServer {
    s.(node := Exec(s.node, ReplicaOps(s.node.disk, id, ps)))
  }

  ghost function Handle(s: CachingServer, r: CacheRequest): CachingServer {
    match r
    case ReadAt(address) => AfterRead(s, address)
    case WriteAt(id, address, buffer, prepare, commit) => AfterCachedWrite(s, id, address, buffer, prepare, commit)
    case Replicated(id, address, buffer) => AfterReplicated(s, id, PiecesOf(address, buffer))
  }

  ghost function HandleAll(s: CachingServer, rs: seq<CacheRequest>): CachingServer {
    if rs == [] then s else Handle(HandleAll(s, rs[..|rs| - 1]), rs[|rs| - 1])
  }

  /** Clients ask for whole blocks; what is replicated may be at any valid address. */
  predicate Aligned(r: CacheRequest) {
    match r
    case ReadAt(address) => address % BLOCK_SIZE == 0
    case WriteAt(_, address, buffer, _, _) => address % BLOCK_SIZE == 0 && |buffer| == BLOCK_SIZE
    case Replicated(_, address, buffer) => IsValidAddress(address) && |buffer| == BLOCK_SIZE
  }

  /** The entry for an address, where there is content in it, is what a read of the files returns. */
  ghost predicate Agrees(s: CachingServer, address: int) {
    var value := Lookup(s.cache, IntToString(address));
    value != [] ==>
      && IsValidAddress(address) && address % BLOCK_SIZE == 0
      && ExtentsPresent(s.node.disk, Extents(address)) && value == ReadAll(s.node.disk, Extents(address))
  }

  ghost predicate CacheAgrees(s: CachingServer) {
    forall address: int :: Agrees(s, address)
  }

  ghost predicate Lengths(d: Disk) {
    Short(d) && TempsSmall(d)
  }

  // ----- Aligned writes -----

  lemma {:induction false} AlignedPieces(address: int, buffer: Bytes)
    requires IsValidAddress(address) && address % BLOCK_SIZE == 0 && |buffer| == BLOCK_SIZE
    ensures PiecesOf(address, buffer) == [Piece(BlockPath(address / BLOCK_SIZE), buffer, 0)]
    ensures Extents(address) == [PathData(BlockPath(address / BLOCK_SIZE), 0, BLOCK_SIZE)]
    ensures PiecesOk(PiecesOf(address, buffer))
  {
    hide BlockPath;
    PiecesSpelledOut(address, buffer);
    PiecesAreClean(address, buffer);
  }

  lemma {:induction false} FullBlockIsReusable(d: Disk, p: string, buffer: Bytes)
    requires Lengths(d) && IsBlockName(p) && |buffer| == BLOCK_SIZE
    ensures Reusable(d, [Piece(p, buffer, 0)])
  {
  }

  /** An aligned write that the server stages: its files afterwards. */
  lemma {:induction false} AlignedWriteInstalls(n: Node, id: string, p: string, buffer: Bytes, prepare: Status, commit: Status)
    requires Lengths(n.disk) && IsBlockName(p) && p in n.disk && |buffer| == BLOCK_SIZE
    ensures var ps := [Piece(p, buffer, 0)];
            var d := Exec(n, ServeOps(n.disk, id, ps, prepare, commit)).disk;
            && Lengths(d)
            && SameBlocks(d, if prepare == OTHER then n.disk else Install(n.disk, ps))
  {
    var ps := [Piece(p, buffer, 0)];
    var ops := WriteOps(n.disk, id, ps, prepare, commit);
    assert PiecesOk(ps) && Present(n.disk, ps);
    StageableAll(n.disk, ps);
    FullBlockIsReusable(n.disk, p, buffer);
    HandlerLengths(id, ps);
    AfterPrepareLength(id, ps, prepare, commit);
    WriteCrashAtomic(n, id, ps, prepare, commit, |ops|);
    InstallNothing(n.disk, ps);
    PrepareIsSmall(id, ps);
    AfterPrepareIsSmall(id, ps, prepare, commit);
    hide Exec, PrepareOps, AfterPrepare, Install, TempsSmall, PiecesOk, Small, Reusable, SameBlocks;
    WholeOps(ops);
    assert ps[..1] == ps;
    SmallConcat(PrepareOps(id, ps), AfterPrepare(id, ps, prepare, commit));
    StaysSmall(n, ops);
    ShortAfter(n.disk, Exec(n, ops).disk, ps, prepare == OTHER);
  }

  lemma {:induction false} AfterPrepareLength(id: string, ps: seq<Piece>, prepare: Status, commit: Status)
    ensures prepare != OTHER ==> |AfterPrepare(id, ps, prepare, commit)| >= |ps|
  {
  }

  lemma {:induction false} ShortAfter(d: Disk, e: Disk, ps: seq<Piece>, aborted: bool)
    requires Short(d) && PiecesOk(ps) && SameBlocks(e, if aborted then d else Install(d, ps))
    ensures Short(e)
  {
    hide Install;
    forall p | IsBlockName(p) && p in e
      ensures |e[p]| <= BLOCK_SIZE
    {
      assert SameAt(e, if aborted then d else Install(d, ps), p);
      if !aborted {
        NamesOfInstall(d, ps, p);
        InstallKeepsShort(d, ps, p);
      }
    }
  }

  lemma {:induction false} ReadOfBlock(d: Disk, address: int)
    requires IsValidAddress(address) && address % BLOCK_SIZE == 0
    ensures var p := BlockPath(address / BLOCK_SIZE);
            && (ExtentsPresent(d, Extents(address)) <==> p in d)
            && (p in d ==> ReadAll(d, Extents(address)) == CString(Window(d[p], 0, BLOCK_SIZE)))
  {
  }

  /** The block as a read then sees it. */
  lemma {:induction false} ReadAfterInstall(d: Disk, e: Disk, address: int, buffer: Bytes, other: int)
    requires IsValidAddress(address) && address % BLOCK_SIZE == 0 && |buffer| == BLOCK_SIZE
    requires IsValidAddress(other) && other % BLOCK_SIZE == 0 && BlockPath(address / BLOCK_SIZE) in d
    requires SameBlocks(e, Install(d, PiecesOf(address, buffer)))
    ensures ExtentsPresent(e, Extents(other)) <==> ExtentsPresent(d, Extents(other))
    ensures other == address ==> ExtentsPresent(e, Extents(other)) && ReadAll(e, Extents(other)) == CString(buffer)
    ensures other != address && ExtentsPresent(d, Extents(other)) ==> ReadAll(e, Extents(other)) == ReadAll(d, Extents(other))
  {
    var p, q := BlockPath(address / BLOCK_SIZE), BlockPath(other / BLOCK_SIZE);
    var ps := PiecesOf(address, buffer);
    hide *;
    AlignedPieces(address, buffer);
    ReadOfBlock(d, other);
    ReadOfBlock(e, other);
    BlockPathIsBlockName(other / BLOCK_SIZE);
    SamePath(other / BLOCK_SIZE, address / BLOCK_SIZE);
    NamesOfInstall(d, ps, q);
    SameAtBlock(e, Install(d, ps), q);
    InstallOne(d, p, buffer, q);
    SameBlockNumber(address, other);
  }

  lemma {:induction false} SameBlockNumber(a: int, b: int)
    requires a % BLOCK_SIZE == 0 && b % BLOCK_SIZE == 0
    ensures a / BLOCK_SIZE == b / BLOCK_SIZE <==> a == b
  {
  }

  lemma {:induction false} SameAtBlock(d: Disk, e: Disk, p: string)
    requires SameBlocks(d, e) && IsBlockName(p)
    ensures (p in d <==> p in e) && (p in d ==> d[p] == e[p])
  {
  }

  lemma {:induction false} InstallOne(d: Disk, p: string, buffer: Bytes, q: string)
    requires p in d && |buffer| == BLOCK_SIZE
    ensures var e := Install(d, [Piece(p, buffer, 0)]);
            && p in e && Window(e[p], 0, BLOCK_SIZE) == buffer
            && (q != p && q in d ==> q in e && e[q] == d[q])
  {
  }

  // ----- One request -----

  lemma {:induction false} OtherEntry(c: Entries, address: int, other: int, buffer: Bytes, reply: Reply)
    requires other != address
    ensures Lookup(CacheAfterWrite(true, c, IntToString(address), buffer, reply), IntToString(other))
            == Lookup(c, IntToString(other))
  {
    hide IntToString;
    if IntToString(address) == IntToString(other) {
      IntToStringInjective(address, other);
    }
  }

  lemma {:induction false} OwnCacheEntry(c: Entries, key: string, buffer: Bytes, reply: Reply)
    ensures Lookup(CacheAfterWrite(true, c, key, buffer, reply), key) == if reply == Ok then buffer else Lookup(c, key)
  {
  }

  lemma {:induction false} ReadKeepsAgreement(s: CachingServer, address: int)
    requires CacheAgrees(s) && address % BLOCK_SIZE == 0
    ensures CacheAgrees(AfterRead(s, address))
  {
    hide IntToString, ReadAll, ExtentsPresent, BlockPath;
    var s' := AfterRead(s, address);
    forall other: int
      ensures Agrees(s', other)
    {
      assert Agrees(s, other);
      if other != address && IntToString(address) == IntToString(other) {
        IntToStringInjective(address, other);
      }
      if other == address && !IsValidAddress(address) {
        NothingToRead(s.node.disk, address);
      }
    }
  }

  lemma {:induction false} NothingToRead(d: Disk, address: int)
    requires !IsValidAddress(address)
    ensures ExtentsPresent(d, Extents(address)) && ReadAll(d, Extents(address)) == []
  {
  }

  lemma {:induction false} AgreesAlike(s: CachingServer, s': CachingServer, other: int)
    requires Agrees(s, other) && Lookup(s'.cache, IntToString(other)) == Lookup(s.cache, IntToString(other))
    requires SameBlocks(s'.node.disk, s.node.disk)
    ensures Agrees(s', other)
  {
    hide IntToString, BlockPath, SameBlocks;
    if Lookup(s.cache, IntToString(other)) != [] {
      ReadOfBlock(s.node.disk, other);
      ReadOfBlock(s'.node.disk, other);
      BlockPathIsBlockName(other / BLOCK_SIZE);
      SameAtBlock(s'.node.disk, s.node.disk, BlockPath(other / BLOCK_SIZE));
    }
  }

  /** A write that stages nothing: an address without blocks, or a missing file. */
  lemma {:induction false} NothingWritten(s: CachingServer, id: string, address: int, buffer: Bytes, prepare: Status, commit: Status)
    requires CacheAgrees(s) && Lengths(s.node.disk) && address % BLOCK_SIZE == 0 && |buffer| == BLOCK_SIZE
    requires !IsValidAddress(address) || BlockPath(address / BLOCK_SIZE) !in s.node.disk
    ensures var s' := AfterCachedWrite(s, id, address, buffer, prepare, commit);
            CacheAgrees(s') && Lengths(s'.node.disk)
  {
    var ps := PiecesOf(address, buffer);
    if IsValidAddress(address) {
      AlignedPieces(address, buffer);
      assert Stageable(s.node.disk, ps) == 0;
    }
    var s' := AfterCachedWrite(s, id, address, buffer, prepare, commit);
    assert WriteReply(s.node.disk, ps, prepare, commit) != Ok;
    assert s'.node.disk == s.node.disk;
    hide IntToString, ReadAll, ExtentsPresent, BlockPath, ServeOps, PiecesOf, WriteReply, CacheAfterWrite, Exec;
    OwnCacheEntry(s.cache, IntToString(address), buffer, WriteReply(s.node.disk, ps, prepare, commit));
    SameBlocksRefl(s.node.disk);
    forall other: int
      ensures Agrees(s', other)
    {
      assert Agrees(s, other);
      if other != address {
        OtherEntry(s.cache, address, other, buffer, WriteReply(s.node.disk, ps, prepare, commit));
      }
      AgreesAlike(s, s', other);
    }
  }

  /** What goes wrong: a cached buffer that the files can only return up to its first zero byte, or a failed
      commit after which the old content stays in the cache. */
  ghost predicate Misleads(s: CachingServer, address: int, buffer: Bytes, prepare: Status, commit: Status) {
    && prepare != OTHER
    && if prepare == OK && commit == OTHER
       then Lookup(s.cache, IntToString(address)) != [] && Lookup(s.cache, IntToString(address)) != CString(buffer)
       else 0 in buffer
  }

  lemma {:induction false} ReplyToStaged(d: Disk, ps: seq<Piece>, prepare: Status, commit: Status)
    requires ps != [] && Present(d, ps)
    ensures WriteReply(d, ps, prepare, commit) == if prepare == OTHER || (prepare == OK && commit == OTHER) then Unknown else Ok
  {
  }

  lemma {:induction false} OthersStayRight(s: CachingServer, id: string, address: int, buffer: Bytes,
                                           prepare: Status, commit: Status, other: int)
    requires CacheAgrees(s) && Lengths(s.node.disk) && IsValidAddress(address) && address % BLOCK_SIZE == 0
    requires |buffer| == BLOCK_SIZE && BlockPath(address / BLOCK_SIZE) in s.node.disk && other != address
    ensures Agrees(AfterCachedWrite(s, id, address, buffer, prepare, commit), other)
  {
    var d, ps, p := s.node.disk, PiecesOf(address, buffer), BlockPath(address / BLOCK_SIZE);
    var s' := AfterCachedWrite(s, id, address, buffer, prepare, commit);
    var reply := WriteReply(d, ps, prepare, commit);
    AlignedPieces(address, buffer);
    BlockPathIsBlockName(address / BLOCK_SIZE);
    AlignedWriteInstalls(s.node, id, p, buffer, prepare, commit);
    ReplyToStaged(d, ps, prepare, commit);
    hide IntToString, ReadAll, ExtentsPresent, BlockPath, ServeOps, PiecesOf, WriteReply, CacheAfterWrite, Exec, Extents, Install, CString, SameBlocks, Lengths;
    assert Agrees(s, other);
    OtherEntry(s.cache, address, other, buffer, reply);
    if prepare == OTHER {
      AgreesAlike(s, s', other);
    } else if Lookup(s.cache, IntToString(other)) != [] {
      ReadAfterInstall(d, s'.node.disk, address, buffer, other);
    }
  }

  lemma {:induction false} OwnStaysRight(s: CachingServer, id: string, address: int, buffer: Bytes,
                                         prepare: Status, commit: Status)
    requires CacheAgrees(s) && Lengths(s.node.disk) && IsValidAddress(address) && address % BLOCK_SIZE == 0
    requires |buffer| == BLOCK_SIZE && BlockPath(address / BLOCK_SIZE) in s.node.disk
    ensures var s' := AfterCachedWrite(s, id, address, buffer, prepare, commit);
            && Lengths(s'.node.disk)
            && (Agrees(s', address) <==> !Misleads(s, address, buffer, prepare, commit))
  {
    var d, ps, p := s.node.disk, PiecesOf(address, buffer), BlockPath(address / BLOCK_SIZE);
    var s' := AfterCachedWrite(s, id, address, buffer, prepare, commit);
    var reply := WriteReply(d, ps, prepare, commit);
    AlignedPieces(address, buffer);
    BlockPathIsBlockName(address / BLOCK_SIZE);
    AlignedWriteInstalls(s.node, id, p, buffer, prepare, commit);
    ReplyToStaged(d, ps, prepare, commit);
    hide IntToString, ReadAll, ExtentsPresent, BlockPath, ServeOps, PiecesOf, WriteReply, CacheAfterWrite, Exec, Extents, Install, CString, SameBlocks, Lengths;
    OwnCacheEntry(s.cache, IntToString(address), buffer, reply);
    assert Agrees(s, address);
    if prepare == OTHER {
      AgreesAlike(s, s', address);
    } else {
      ReadAfterInstall(d, s'.node.disk, address, buffer, address);
      CStringWhole(buffer);
    }
  }

  /** An aligned write of a block that exists keeps the cache right exactly when it does not mislead. */
  lemma {:induction false} WriteKeepsAgreementExactly(s: CachingServer, id: string, address: int, buffer: Bytes,
                                                      prepare: Status, commit: Status)
    requires CacheAgrees(s) && Lengths(s.node.disk) && IsValidAddress(address) && address % BLOCK_SIZE == 0
    requires |buffer| == BLOCK_SIZE && BlockPath(address / BLOCK_SIZE) in s.node.disk
    ensures var s' := AfterCachedWrite(s, id, address, buffer, prepare, commit);
            && Lengths(s'.node.disk)
            && (CacheAgrees(s') <==> !Misleads(s, address, buffer, prepare, commit))
  {
    OwnStaysRight(s, id, address, buffer, prepare, commit);
    hide AfterCachedWrite, Agrees, Misleads, Lengths, BlockPath;
    forall other: int | other != address
      ensures Agrees(AfterCachedWrite(s, id, address, buffer, prepare, commit), other)
    {
      OthersStayRight(s, id, address, buffer, prepare, commit, other);
    }
  }

  // ----- Replicated writes -----

  /** What a read of the block returns once a piece has been staged and renamed. */
  function NewContent(d: Disk, piece: Piece): Bytes
    requires piece.path in d
  {
    CString(Window(StagedContent(d, piece), 0, BLOCK_SIZE))
  }

  /** The address of a block that the pieces change and the cache has something else for. */
  ghost predicate StaleAt(s: CachingServer, ps: seq<Piece>, a: int) {
    && IsValidAddress(a) && a % BLOCK_SIZE == 0 && Lookup(s.cache, IntToString(a)) != []
    && exists j :: 0 <= j < |ps| && ps[j].path == BlockPath(a / BLOCK_SIZE) && ps[j].path in s.node.disk
                   && Lookup(s.cache, IntToString(a)) != NewContent(s.node.disk, ps[j])
  }

  ghost predicate ReplicaMisleads(s: CachingServer, ps: seq<Piece>) {
    Present(s.node.disk, ps) && exists a: int :: StaleAt(s, ps, a)
  }

  lemma {:induction false} ReplicaPlaces(n: Node, id: string, ps: seq<Piece>)
    requires PiecesOk(ps) && Lengths(n.disk)
    ensures var e := Exec(n, ReplicaOps(n.disk, id, ps)).disk;
            Placed(n.disk, e, ps, if Present(n.disk, ps) then |ps| else 0) && Lengths(e)
  {
    var ops, r := ReplicaOps(n.disk, id, ps), if Present(n.disk, ps) then |ps| else 0;
    ReplicaReaches(n.disk, id, ps);
    hide Exec, ReplicaOps, OldOrStaged, PiecesOk, FilesInPlace, Present, Lengths;
    WholeOps(ops);
    forall q | IsBlockName(q)
      ensures OldOrStaged(n.disk, Exec(n, ops).disk, ps, r, q)
    {
      BackupCrashExactly(n, id, ps, |ops|, q);
      SameCount(n.disk, Exec(n, ops).disk, ps, FilesInPlace(n.disk, ps, OK, |ops|), r, q);
    }
    ReplicaKeepsLengths(n, id, ps, r);
  }

  lemma {:induction false} ReplicaReaches(d: Disk, id: string, ps: seq<Piece>)
    ensures Min(FilesInPlace(d, ps, OK, |ReplicaOps(d, id, ps)|), |ps|) == if Present(d, ps) then |ps| else 0
  {
    if Present(d, ps) {
      StageableAll(d, ps);
    }
    HandlerLengths(id, ps);
    hide PrepareOps, CommitOps;
  }

  lemma {:induction false} ReplicaKeepsLengths(n: Node, id: string, ps: seq<Piece>, r: nat)
    requires PiecesOk(ps) && Lengths(n.disk) && Placed(n.disk, Exec(n, ReplicaOps(n.disk, id, ps)).disk, ps, r)
    ensures Lengths(Exec(n, ReplicaOps(n.disk, id, ps)).disk)
  {
    var k := Stageable(n.disk, ps);
    FirstPiecesOk(ps, k);
    StagingIsSmall(ps[..k]);
    PrepareIsSmall(id, ps);
    hide Small, TempsSmall, PiecesOk, PrepareOps, CommitOps, StageOps, Stageable, Placed, Exec;
    SmallConcat(PrepareOps(id, ps), CommitOps(id, Paths(ps)));
    StaysSmall(n, ReplicaOps(n.disk, id, ps));
    GrowsWhenPlaced(n.disk, Exec(n, ReplicaOps(n.disk, id, ps)).disk, ps, r);
  }

  /** A block as it is read once the pieces are in place. */
  lemma {:induction false} PlacedRead(d: Disk, e: Disk, ps: seq<Piece>, a: int)
    requires PiecesOk(ps) && Placed(d, e, ps, |ps|) && IsValidAddress(a) && a % BLOCK_SIZE == 0
    ensures ExtentsPresent(e, Extents(a)) <==> ExtentsPresent(d, Extents(a))
    ensures ExtentsPresent(d, Extents(a)) ==>
              var p := BlockPath(a / BLOCK_SIZE);
              && p in d
              && (forall j :: 0 <= j < |ps| && ps[j].path == p ==> ReadAll(e, Extents(a)) == NewContent(d, ps[j]))
              && ((forall j :: 0 <= j < |ps| ==> ps[j].path != p) ==> ReadAll(e, Extents(a)) == ReadAll(d, Extents(a)))
  {
    var p := BlockPath(a / BLOCK_SIZE);
    ReadOfBlock(d, a);
    ReadOfBlock(e, a);
    BlockPathIsBlockName(a / BLOCK_SIZE);
    hide BlockPath, ExtentsPresent, ReadAll, CString, Window, StagedContent, PiecesOk, IsBlockName, Extents;
    assert OldOrStaged(d, e, ps, |ps|, p);
  }

  lemma {:induction false} EntryAfterReplica(s: CachingServer, id: string, ps: seq<Piece>, a: int)
    requires CacheAgrees(s) && Lengths(s.node.disk) && PiecesOk(ps) && Present(s.node.disk, ps)
    ensures Agrees(AfterReplicated(s, id, ps), a) <==> !StaleAt(s, ps, a)
  {
    var d, e := s.node.disk, AfterReplicated(s, id, ps).node.disk;
    ReplicaPlaces(s.node, id, ps);
    assert Agrees(s, a);
    hide Exec, ReplicaOps, Placed, Lengths, PiecesOk, BlockPath, IntToString, ReadAll, ExtentsPresent, Extents, NewContent;
    if Lookup(s.cache, IntToString(a)) != [] {
      PlacedRead(d, e, ps, a);
    }
  }

  /** A write replicated to a caching server keeps its cache right exactly when it changes no block that the cache has
      something else for. */
  lemma {:induction false} ReplicaKeepsAgreementExactly(s: CachingServer, id: string, ps: seq<Piece>)
    requires CacheAgrees(s) && Lengths(s.node.disk) && PiecesOk(ps)
    ensures var s' := AfterReplicated(s, id, ps);
            Lengths(s'.node.disk) && (CacheAgrees(s') <==> !ReplicaMisleads(s, ps))
  {
    var s' := AfterReplicated(s, id, ps);
    ReplicaPlaces(s.node, id, ps);
    hide AfterReplicated, Lengths, PiecesOk, Agrees, StaleAt, ReplicaOps, Exec;
    if Present(s.node.disk, ps) {
      forall a: int
        ensures Agrees(s', a) <==> !StaleAt(s, ps, a)
      {
        EntryAfterReplica(s, id, ps, a);
      }
    } else {
      forall a: int
        ensures Agrees(s', a)
      {
        NothingReplicated(s, id, ps, a);
      }
    }
  }

  lemma {:induction false} NothingReplicated(s: CachingServer, id: string, ps: seq<Piece>, a: int)
    requires CacheAgrees(s) && Lengths(s.node.disk) && PiecesOk(ps) && !Present(s.node.disk, ps)
    ensures Agrees(AfterReplicated(s, id, ps), a)
  {
    var s' := AfterReplicated(s, id, ps);
    ReplicaPlaces(s.node, id, ps);
    hide Exec, ReplicaOps, Lengths, PiecesOk, Agrees;
    PlacedNothing(s.node.disk, s'.node.disk, ps);
    assert Agrees(s, a);
    AgreesAlike(s, s', a);
  }

  lemma {:induction false} PlacedNothing(d: Disk, e: Disk, ps: seq<Piece>)
    requires Placed(d, e, ps, 0)
    ensures SameBlocks(e, d)
  {
    forall q | IsBlockName(q)
      ensures SameAt(e, d, q)
    {
      assert OldOrStaged(d, e, ps, 0, q);
    }
  }

  lemma {:induction false} WholeBlockContent(d: Disk, p: string, buffer: Bytes)
    requires Lengths(d) && IsBlockName(p) && p in d && |buffer| == BLOCK_SIZE
    ensures NewContent(d, Piece(p, buffer, 0)) == CString(buffer)
  {
    var piece := Piece(p, buffer, 0);
    assert forall i :: 0 <= i < BLOCK_SIZE ==> ByteAt(StagedContent(d, piece), 0 + i) == buffer[i] by {
      forall i | 0 <= i < BLOCK_SIZE
        ensures ByteAt(StagedContent(d, piece), 0 + i) == buffer[i]
      {
        StagedByte(StaleOf(d, p), d[p], buffer, 0, i);
      }
    }
    assert Window(StagedContent(d, piece), 0, BLOCK_SIZE) == buffer;
  }

  lemma {:induction false} StaleAtBlock(s: CachingServer, address: int, buffer: Bytes, a: int)
    requires IsValidAddress(address) && address % BLOCK_SIZE == 0 && BlockPath(address / BLOCK_SIZE) in s.node.disk
    requires NewContent(s.node.disk, Piece(BlockPath(address / BLOCK_SIZE), buffer, 0)) == CString(buffer)
    ensures var entry := Lookup(s.cache, IntToString(address));
            StaleAt(s, [Piece(BlockPath(address / BLOCK_SIZE), buffer, 0)], a) <==> a == address && entry != [] && entry != CString(buffer)
  {
    var ps := [Piece(BlockPath(address / BLOCK_SIZE), buffer, 0)];
    hide BlockPath, IntToString, CString, NewContent;
    if StaleAt(s, ps, a) {
      SamePath(a / BLOCK_SIZE, address / BLOCK_SIZE);
      SameBlockNumber(a, address);
    }
    if a == address {
      assert ps[0].path == BlockPath(a / BLOCK_SIZE);
    }
  }

  /** For a whole block: the cache has nothing for it, or the very content that is written. */
  lemma {:induction false} AlignedReplicaExactly(s: CachingServer, id: string, address: int, buffer: Bytes)
    requires CacheAgrees(s) && Lengths(s.node.disk) && IsValidAddress(address) && address % BLOCK_SIZE == 0
    requires |buffer| == BLOCK_SIZE && BlockPath(address / BLOCK_SIZE) in s.node.disk
    ensures var entry := Lookup(s.cache, IntToString(address));
            CacheAgrees(AfterReplicated(s, id, PiecesOf(address, buffer))) <==> entry == [] || entry == CString(buffer)
  {
    var p, ps := BlockPath(address / BLOCK_SIZE), [Piece(BlockPath(address / BLOCK_SIZE), buffer, 0)];
    AlignedPieces(address, buffer);
    BlockPathIsBlockName(address / BLOCK_SIZE);
    hide *;
    WholeBlockContent(s.node.disk, p, buffer);
    ReplicaKeepsAgreementExactly(s, id, ps);
    MisleadsAtBlock(s, address, buffer);
  }

  lemma {:induction false} MisleadsAtBlock(s: CachingServer, address: int, buffer: Bytes)
    requires IsValidAddress(address) && address % BLOCK_SIZE == 0 && BlockPath(address / BLOCK_SIZE) in s.node.disk
    requires NewContent(s.node.disk, Piece(BlockPath(address / BLOCK_SIZE), buffer, 0)) == CString(buffer)
    ensures var entry := Lookup(s.cache, IntToString(address));
            ReplicaMisleads(s, [Piece(BlockPath(address / BLOCK_SIZE), buffer, 0)]) <==> entry != [] && entry != CString(buffer)
  {
    var ps := [Piece(BlockPath(address / BLOCK_SIZE), buffer, 0)];
    assert Present(s.node.disk, ps);
    hide BlockPath, IntToString, CString, NewContent, StaleAt;
    StaleAtBlock(s, address, buffer, address);
    if a: int :| StaleAt(s, ps, a) {
      StaleAtBlock(s, address, buffer, a);
    }
  }

  // ----- Runs -----

  /** What keeps the cache right, request by request. */
  ghost predicate KeepsRight(s: CachingServer, r: CacheRequest) {
    match r
    case ReadAt(_) => true
    case WriteAt(_, address, buffer, prepare, commit) =>
      IsValidAddress(address) && BlockPath(address / BLOCK_SIZE) in s.node.disk ==> !Misleads(s, address, buffer, prepare, commit)
    case Replicated(_, address, buffer) => !ReplicaMisleads(s, PiecesOf(address, buffer))
  }

  lemma {:induction false} HandleKeepsAgreementExactly(s: CachingServer, r: CacheRequest)
    requires CacheAgrees(s) && Lengths(s.node.disk) && Aligned(r)
    ensures Lengths(Handle(s, r).node.disk) && (CacheAgrees(Handle(s, r)) <==> KeepsRight(s, r))
  {
    hide CacheAgrees, Lengths, AfterCachedWrite, AfterReplicated, BlockPath, Misleads, ReplicaMisleads, PiecesOf, PiecesOk;
    match r
    case ReadAt(address) =>
      ReadKeepsAgreement(s, address);
    case WriteAt(id, address, buffer, prepare, commit) =>
      if IsValidAddress(address) && BlockPath(address / BLOCK_SIZE) in s.node.disk {
        WriteKeepsAgreementExactly(s, id, address, buffer, prepare, commit);
      } else {
        NothingWritten(s, id, address, buffer, prepare, commit);
      }
    case Replicated(id, address, buffer) =>
      PiecesAreClean(address, buffer);
      ReplicaKeepsAgreementExactly(s, id, PiecesOf(address, buffer));
  }

  /** Over any run of whole-block reads and writes and of replicated writes, aborted ones included: at all times each
      cache entry with content is what an uncached read of its address returns, exactly when each request keeps it
      so. */
  lemma {:induction false} CacheAgreesExactly(s: CachingServer, rs: seq<CacheRequest>)
    requires s.cache == map[] && Lengths(s.node.disk) && forall k :: 0 <= k < |rs| ==> Aligned(rs[k])
    ensures (forall k :: 0 <= k <= |rs| ==> CacheAgrees(HandleAll(s, rs[..k])))
            <==> forall k :: 0 <= k < |rs| ==> KeepsRight(HandleAll(s, rs[..k]), rs[k])
  {
    hide CacheAgrees, Lengths, Aligned, Handle, KeepsRight;
    if forall k :: 0 <= k < |rs| ==> KeepsRight(HandleAll(s, rs[..k]), rs[k]) {
      forall k | 0 <= k <= |rs|
        ensures CacheAgrees(HandleAll(s, rs[..k]))
      {
        AgreesSoFar(s, rs, k);
      }
    }
    if forall k :: 0 <= k <= |rs| ==> CacheAgrees(HandleAll(s, rs[..k])) {
      forall k | 0 <= k < |rs|
        ensures KeepsRight(HandleAll(s, rs[..k]), rs[k])
      {
        HasKeptRight(s, rs, k);
      }
    }
  }

  lemma {:induction false} AgreesSoFar(s: CachingServer, rs: seq<CacheRequest>, k: nat)
    requires s.cache == map[] && Lengths(s.node.disk) && k <= |rs| && forall i :: 0 <= i < |rs| ==> Aligned(rs[i])
    requires forall i :: 0 <= i < k ==> KeepsRight(HandleAll(s, rs[..i]), rs[i])
    ensures CacheAgrees(HandleAll(s, rs[..k])) && Lengths(HandleAll(s, rs[..k]).node.disk)
  {
    hide *;
    if k == 0 {
      EmptyCacheAgrees(s, rs[..0]);
    } else {
      AgreesSoFar(s, rs, k - 1);
      HandleKeepsAgreementExactly(HandleAll(s, rs[..k - 1]), rs[k - 1]);
      HandleOneMore(s, rs, k);
    }
  }

  lemma {:induction false} EmptyCacheAgrees(s: CachingServer, rs: seq<CacheRequest>)
    requires s.cache == map[] && rs == []
    ensures CacheAgrees(HandleAll(s, rs)) && HandleAll(s, rs) == s
  {
  }

  lemma {:induction false} HandleOneMore(s: CachingServer, rs: seq<CacheRequest>, k: nat)
    requires 0 < k <= |rs|
    ensures HandleAll(s, rs[..k]) == Handle(HandleAll(s, rs[..k - 1]), rs[k - 1])
  {
    hide Handle;
    assert rs[..k][..k - 1] == rs[..k - 1];
  }

  lemma {:induction false} HasKeptRight(s: CachingServer, rs: seq<CacheRequest>, k: nat)
    requires s.cache == map[] && Lengths(s.node.disk) && k < |rs| && forall i :: 0 <= i < |rs| ==> Aligned(rs[i])
    requires forall i :: 0 <= i <= |rs| ==> CacheAgrees(HandleAll(s, rs[..i]))
    ensures KeepsRight(HandleAll(s, rs[..k]), rs[k])
  {
    hide CacheAgrees, Lengths, Aligned, Handle, KeepsRight;
    forall i | 0 <= i < k
      ensures KeepsRight(HandleAll(s, rs[..i]), rs[i])
    {
      HasKeptRight(s, rs, i);
    }
    AgreesSoFar(s, rs, k);
    HandleKeepsAgreementExactly(HandleAll(s, rs[..k]), rs[k]);
    HandleOneMore(s, rs, k + 1);
  }

  /** A request that keeps the cache right in any state; for a replicated write there is none such. */
  predicate Safe(r: CacheRequest) {
    Aligned(r) && !r.Replicated? && (r.WriteAt? ==> 0 !in r.buffer && r.commit != OTHER)
  }

  /** So on a server that is not replicated to, and serves only such requests, aborted writes included, it always is. */
  lemma {:induction false} CacheAlwaysAgrees(s: CachingServer, rs: seq<CacheRequest>)
    requires s.cache == map[] && Lengths(s.node.disk) && forall k :: 0 <= k < |rs| ==> Safe(rs[k])
    ensures CacheAgrees(HandleAll(s, rs))
  {
    hide CacheAgrees, Lengths, HandleAll, BlockPath, Aligned;
    forall k | 0 <= k < |rs|
      ensures KeepsRight(HandleAll(s, rs[..k]), rs[k])
    {
      assert Safe(rs[k]);
    }
    AgreesSoFar(s, rs, |rs|);
    assert rs[..|rs|] == rs;
  }
}
