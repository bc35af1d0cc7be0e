/** A block storage server: its files, log, table and cache, and the handlers that change them step by
    step. Every handler records its atomic steps in `trace`, so that its crash points are the prefixes
    of the step sequence in its postcondition. */
module BlockServer {
  import opened Decimal
  import opened Storage
  import opened AddressTranslation
  import opened WriteAheadLog
  import opened KeyValueStore
  import opened ContentCache
  import opened Nodes
  import opened Effects

  // ----- The storage -----

  /** What `PrepareStorage` makes of an empty root: its files, all empty. */
  ghost function NewStorage(): Disk {
    var files := set dirId: nat, fileId: nat | dirId < LEVEL_O_COUNT && fileId < LEVEL_1_COUNT ::
                   SERVER_STORAGE_PATH + ToString(dirId) + "/" + ToString(fileId);
    map p | p in files :: []
  }

  lemma {:induction false} NewStorageFiles(p: string)
    ensures p in NewStorage() <==> IsStoredBlock(p)
    ensures p in NewStorage() ==> IsBlockName(p) && NewStorage()[p] == []
  {
    if p in NewStorage() {
      StoredIsBlock(p);
      var n: nat :| n < BLOCKS && p == BlockPath(n);
      BlockPathIsBlockName(n);
    }
  }

  /** The files of the directories before the `dirId`th, and of that one before the `fileId`th. */
  ghost predicate CreatedBefore(p: string, dirId: int, fileId: int) {
    exists a: nat, b: nat ::
      a < LEVEL_O_COUNT && b < LEVEL_1_COUNT && (a < dirId || (a == dirId && b < fileId))
      && p == SERVER_STORAGE_PATH + ToString(a) + "/" + ToString(b)
  }

  lemma {:induction false} OneMoreFile(p: string, dirId: nat, fileId: nat)
    requires dirId < LEVEL_O_COUNT && fileId < LEVEL_1_COUNT
    ensures CreatedBefore(p, dirId, fileId + 1)
            <==> CreatedBefore(p, dirId, fileId) || p == SERVER_STORAGE_PATH + ToString(dirId) + "/" + ToString(fileId)
  {
    hide ToString;
  }

  lemma {:induction false} OneMoreDirectory(p: string, dirId: nat)
    ensures CreatedBefore(p, dirId, LEVEL_1_COUNT) <==> CreatedBefore(p, dirId + 1, 0)
    ensures !CreatedBefore(p, 0, 0)
    ensures CreatedBefore(p, LEVEL_O_COUNT, 0) <==> IsStoredBlock(p)
  {
    hide ToString;
  }

  /** What is there already stays: files are opened with O_EXCL. */
  method PrepareStorage(before: Disk) returns (d: Disk)
    ensures forall p :: p in d <==> p in before || IsStoredBlock(p)
    ensures forall p :: p in d ==> d[p] == if p in before then before[p] else []
    ensures before == map[] ==> d == NewStorage()
  {
    hide ToString, CreatedBefore, IsStoredBlock;
    d := before;
    forall p
      ensures !CreatedBefore(p, 0, 0)
    {
      OneMoreDirectory(p, 0);
    }
    for dirId := 0 to LEVEL_O_COUNT
      invariant forall p :: p in d <==> p in before || CreatedBefore(p, dirId, 0)
      invariant forall p :: p in d ==> d[p] == if p in before then before[p] else []
    {
      var dir := SERVER_STORAGE_PATH + ToString(dirId);
      for fileId := 0 to LEVEL_1_COUNT
        invariant forall p :: p in d <==> p in before || CreatedBefore(p, dirId, fileId)
        invariant forall p :: p in d ==> d[p] == if p in before then before[p] else []
      {
        var file := dir + "/" + ToString(fileId);
        if file !in d {
          d := d[file := []];
        }
        forall p
          ensures CreatedBefore(p, dirId, fileId + 1) <==> CreatedBefore(p, dirId, fileId) || p == file
        {
          OneMoreFile(p, dirId, fileId);
        }
      }
      forall p
        ensures CreatedBefore(p, dirId, LEVEL_1_COUNT) <==> CreatedBefore(p, dirId + 1, 0)
      {
        OneMoreDirectory(p, dirId);
      }
    }
    forall p
      ensures CreatedBefore(p, LEVEL_O_COUNT, 0) <==> IsStoredBlock(p)
      ensures p in NewStorage() <==> IsStoredBlock(p)
      ensures p in NewStorage() ==> NewStorage()[p] == []
    {
      OneMoreDirectory(p, 0);
      NewStorageFiles(p);
    }
  }

  // ----- Pieces -----

  /** Part `i` of a write: the bytes of the buffer that belong to extent `i`. */
  function Cut(es: seq<PathData>, buffer: Bytes): (ps: seq<Piece>)
    requires SizeBefore(es, |es|) <= |buffer|
    ensures |ps| == |es|
    decreases |es|
  {
    if es == [] then []
    else
      var init, last := es[..|es| - 1], es[|es| - 1];
      SizeBeforePrefix(es, |es| - 1, |es| - 1);
      var start := SizeBefore(es, |es| - 1);
      Cut(init, buffer) + [Piece(last.path, buffer[start..start + last.size], last.offset)]
  }

  lemma {:induction false} SizeBeforePrefix(es: seq<PathData>, k: nat, i: nat)
    requires i <= k <= |es|
    ensures SizeBefore(es[..k], i) == SizeBefore(es, i)
  {
    if i > 0 {
      SizeBeforePrefix(es, k, i - 1);
      assert es[..k][i - 1] == es[i - 1];
    }
  }

  lemma {:induction false} SizeBeforeGrows(es: seq<PathData>, i: nat, j: nat)
    requires i <= j <= |es|
    ensures SizeBefore(es, i) <= SizeBefore(es, j)
  {
    if i < j {
      SizeBeforeGrows(es, i, j - 1);
    }
  }

  lemma {:induction false} CutSteps(es: seq<PathData>, buffer: Bytes, i: nat)
    requires i < |es| && SizeBefore(es, |es|) <= |buffer|
    ensures SizeBefore(es[..i], i) <= SizeBefore(es[..i + 1], i + 1) <= |buffer|
    ensures var start := SizeBefore(es, i);
            && start + es[i].size <= |buffer|
            && Cut(es[..i + 1], buffer)
               == Cut(es[..i], buffer) + [Piece(es[i].path, buffer[start..start + es[i].size], es[i].offset)]
  {
    SizeBeforeGrows(es, i, i + 1);
    SizeBeforeGrows(es, i + 1, |es|);
    SizeBeforePrefix(es, i, i);
    SizeBeforePrefix(es, i + 1, i + 1);
    SizeBeforePrefix(es, i + 1, i);
    assert es[..i + 1][..i] == es[..i];
  }

  lemma {:induction false} CutPrefix(es: seq<PathData>, buffer: Bytes, i: nat)
    requires i <= |es| && SizeBefore(es, |es|) <= |buffer|
    ensures SizeBefore(es[..i], i) <= |buffer|
    ensures Cut(es[..i], buffer) == Cut(es, buffer)[..i]
    decreases |es| - i
  {
    if i == |es| {
      assert es[..i] == es;
    } else {
      CutPrefix(es, buffer, i + 1);
      CutSteps(es, buffer, i);
    }
  }

  lemma {:induction false} CutAt(es: seq<PathData>, buffer: Bytes, i: nat)
    requires i < |es| && SizeBefore(es, |es|) <= |buffer|
    ensures SizeBefore(es, i + 1) == SizeBefore(es, i) + es[i].size
    ensures var start := SizeBefore(es, i);
            start + es[i].size <= |buffer|
            && Cut(es, buffer)[i] == Piece(es[i].path, buffer[start..start + es[i].size], es[i].offset)
  {
    CutSteps(es, buffer, i);
    CutPrefix(es, buffer, i + 1);
    var c := Cut(es[..i + 1], buffer);
    assert c[i] == Cut(es, buffer)[..i + 1][i];
  }

  ghost predicate BlockExtents(es: seq<PathData>) {
    forall i :: 0 <= i < |es| ==> IsBlockName(es[i].path)
  }

  /** The pieces of a write are in range, non-empty, and in different files. */
  lemma {:induction false} CutOfExtents(address: int, buffer: Bytes)
    requires IsValidAddress(address) && |buffer| == BLOCK_SIZE
    ensures SizeBefore(Extents(address), |Extents(address)|) == BLOCK_SIZE
    ensures BlockExtents(Extents(address))
    ensures PiecesOk(Cut(Extents(address), buffer)) && Cut(Extents(address), buffer) != []
  {
    var es := Extents(address);
    ExtentsTile(address);
    ExtentPathsDiffer(address);
    hide Extents, BlockPath, Cut;
    var ps := Cut(es, buffer);
    forall i | 0 <= i < |ps|
      ensures ps[i].path == es[i].path && IsBlockName(ps[i].path) && ps[i].data != []
      ensures ps[i].off + |ps[i].data| <= BLOCK_SIZE
    {
      CutAt(es, buffer, i);
      var n: nat :| es[i].path == BlockPath(n);
      BlockPathIsBlockName(n);
    }
  }

  lemma {:induction false} ExtentsFit(address: int, buffer: Bytes)
    requires |buffer| == BLOCK_SIZE
    ensures SizeBefore(Extents(address), |Extents(address)|) <= BLOCK_SIZE && BlockExtents(Extents(address))
  {
    if IsValidAddress(address) {
      CutOfExtents(address, buffer);
    }
  }

  lemma {:induction false} NoStaging(ps: seq<Piece>)
    requires ps == []
    ensures forall k :: 0 <= k <= |ps| ==> StageOps(ps[..k]) == []
  {
  }

  lemma {:induction false} StageableAll(d: Disk, ps: seq<Piece>)
    requires Present(d, ps)
    ensures Stageable(d, ps) == |ps|
  {
  }

  /** What `Read` sends for one extent: the C string in a zeroed buffer after `pread`. */
  function ReadExtent(d: Disk, e: PathData): Bytes
    requires e.path in d
  {
    CString(Window(d[e.path], e.offset, e.size))
  }

  /** What `Read` sends when every extent has a file. */
  function ReadAll(d: Disk, es: seq<PathData>): Bytes
    requires forall i :: 0 <= i < |es| ==> es[i].path in d
  {
    if es == [] then [] else ReadAll(d, es[..|es| - 1]) + ReadExtent(d, es[|es| - 1])
  }

  ghost predicate ExtentsPresent(d: Disk, es: seq<PathData>) {
    forall i :: 0 <= i < |es| ==> es[i].path in d
  }

  /** The C string in an extent, empty when the file is missing: what `GetData` means to return. */
  function DataOf(d: Disk, path: string, size: nat, off: nat): Bytes {
    if path in d then CString(Window(d[path], off, size)) else []
  }

  datatype Reply = Ok | NotFound | Unknown | Thrown

  /** The reply of `Write`; an address without extents makes `log_prepare` throw. */
  function WriteReply(d: Disk, ps: seq<Piece>, prepare: Status, commit: Status): Reply {
    if ps == [] then Thrown
    else if Stageable(d, ps) < |ps| then NotFound
    else if prepare == OTHER || (prepare == OK && commit == OTHER) then Unknown
    else Ok
  }

  /** The created blocks, and no others, have a file. */
  ghost predicate OnlyStored(d: Disk) {
    forall p :: IsBlockName(p) ==> (p in d <==> IsStoredBlock(p))
  }

  /** The reply of `Write` on created storage: an address outside it throws, one whose 4096 bytes go beyond its end is
      not found, and all others are answered as the two calls end. */
  function ReplyOnStorage(address: int, prepare: Status, commit: Status): Reply {
    if address < 0 || address >= 1073741824 then Thrown
    else if address > 1073741824 - 4096 then NotFound
    else if prepare == UNAVAILABLE then Ok
    else if prepare == OTHER then Unknown
    else if commit == OTHER then Unknown
    else Ok
  }

  lemma {:induction false} StageableOnStorage(d: Disk, address: int, buffer: Bytes)
    requires OnlyStored(d) && |buffer| == BLOCK_SIZE && IsValidAddress(address)
    ensures SizeBefore(Extents(address), |Extents(address)|) <= |buffer|
    ensures var ps := Cut(Extents(address), buffer);
            ps != [] && (Stageable(d, ps) == |ps| <==> address <= 1073741824 - 4096)
  {
    var es := Extents(address);
    CutOfExtents(address, buffer);
    ExtentsAreStored(address);
    var ps := Cut(es, buffer);
    hide Extents, IsStoredBlock, PiecesOk;
    forall i | 0 <= i < |es|
      ensures ps[i].path == es[i].path && (ps[i].path in d <==> IsStoredBlock(es[i].path))
    {
      CutAt(es, buffer, i);
    }
    if Present(d, ps) {
      StageableAll(d, ps);
    }
  }

  lemma {:induction false} ExtentIsBlock(address: int, i: nat)
    requires IsValidAddress(address) && i < |Extents(address)|
    ensures IsBlockName(Extents(address)[i].path)
  {
    ExtentsTile(address);
    hide Extents, BlockPath;
    var n: nat :| Extents(address)[i].path == BlockPath(n);
    BlockPathIsBlockName(n);
  }

  /** So a read of created storage that is not answered from the cache is NOT_FOUND exactly for the last 4095 addresses;
      outside the storage it finds nothing to read. */
  lemma {:induction false} ReadsOnStorage(d: Disk, address: int)
    requires OnlyStored(d)
    ensures ExtentsPresent(d, Extents(address)) <==> !(1073741824 - 4096 < address < 1073741824)
    ensures address < 0 || address >= 1073741824 ==> ReadAll(d, Extents(address)) == []
  {
    if IsValidAddress(address) {
      var es := Extents(address);
      ExtentsAreStored(address);
      hide Extents, IsStoredBlock;
      forall i | 0 <= i < |es|
        ensures es[i] in es && (es[i].path in d <==> IsStoredBlock(es[i].path))
      {
        ExtentIsBlock(address, i);
      }
    }
  }

  lemma {:induction false} RepliesExactly(d: Disk, address: int, buffer: Bytes, prepare: Status, commit: Status)
    requires OnlyStored(d) && |buffer| == BLOCK_SIZE
    ensures SizeBefore(Extents(address), |Extents(address)|) <= |buffer|
    ensures WriteReply(d, Cut(Extents(address), buffer), prepare, commit) == ReplyOnStorage(address, prepare, commit)
  {
    if IsValidAddress(address) {
      StageableOnStorage(d, address, buffer);
    }
    hide OnlyStored, Stageable;
  }

  /** The steps of one client write; none for an address without extents. */
  function ServeOps(d: Disk, id: string, ps: seq<Piece>, prepare: Status, commit: Status): seq<Op> {
    if ps == [] then [] else WriteOps(d, id, ps, prepare, commit)
  }

  /** `Write` first makes room for its address, so that a later update finds the key. */
  function WithPlaceholder(on: bool, c: Entries, key: string): Entries {
    if on && Lookup(c, key) == [] then AddedEntry(c, key, []) else c
  }

  /** The cache as `Write` leaves it: the buffer is stored only on success. */
  function CacheAfterWrite(on: bool, c: Entries, key: string, buffer: Bytes, reply: Reply): Entries {
    var marked := WithPlaceholder(on, c, key);
    if on && reply == Ok then UpdatedEntry(marked, key, buffer) else marked
  }

  /** A successful write leaves its buffer in the cache, whatever was there; no other content changes. */
  lemma {:induction false} CacheHoldsBuffer(on: bool, c: Entries, key: string, buffer: Bytes, reply: Reply, other: string)
    ensures var content := Lookup(CacheAfterWrite(on, c, key, buffer, reply), other);
            content == if on && other == key && reply == Ok then buffer else Lookup(c, other)
    ensures !on ==> CacheAfterWrite(on, c, key, buffer, reply) == c
  {
  }

  function RecordOf(id: string, state: State, movs: seq<(string, string)>): Record {
    match state
    case START => Start(id, movs)
    case ABORT => Abort(id)
    case RPC_INIT => ReplInit(id)
    case COMMIT => Commit(id)
    case PENDING_REPLICATION => Pending(id)
  }

  /** One message of the `ForcePendingWrites` stream. */
  datatype Chunk = Chunk(path: string, content: Bytes, size: nat, off: nat)

  function ChunksOf(d: Disk, txn: TxnData, len: nat): (r: seq<Chunk>)
    requires len <= |txn.originalFiles| && len <= |txn.sizes| && len <= |txn.offsets|
    ensures |r| == len
    ensures forall j :: 0 <= j < len ==>
              r[j] == Chunk(txn.originalFiles[j], DataOf(d, txn.originalFiles[j], txn.sizes[j], txn.offsets[j]),
                            txn.sizes[j], txn.offsets[j])
  {
    seq(len, j requires 0 <= j < len =>
          Chunk(txn.originalFiles[j], DataOf(d, txn.originalFiles[j], txn.sizes[j], txn.offsets[j]),
                txn.sizes[j], txn.offsets[j]))
  }

  predicate TxnShape(txn: TxnData) {
    |txn.originalFiles| == |txn.sizes| == |txn.offsets|
  }

  ghost predicate KvShape(kv: Kv) {
    forall id :: id in kv ==> TxnShape(kv[id])
  }

  function PendingIds(kv: Kv): set<string> {
    set id | id in kv && kv[id].state == PENDING_REPLICATION
  }

  /** `ids` enumerates `s`, each element once, in any order. */
  ghost predicate Lists(ids: seq<string>, s: set<string>) {
    && (forall i :: 0 <= i < |ids| ==> ids[i] in s)
    && (forall x :: x in s ==> x in ids)
    && (forall i, j :: 0 <= i < j < |ids| ==> ids[i] != ids[j])
  }

  /** Only the first requested transaction is ever streamed. */
  function StreamOf(d: Disk, kv: Kv, requested: seq<string>): seq<Chunk> {
    if requested == [] || requested[0] !in kv || !TxnShape(kv[requested[0]]) then []
    else ChunksOf(d, kv[requested[0]], |kv[requested[0]].originalFiles|)
  }

  /** What `GetData` returns when `behind` lies behind its buffer. */
  function DataRead(d: Disk, path: string, size: nat, off: nat, behind: Bytes): Bytes {
    if path in d then CString(Window(d[path], off, size) + behind) else []
  }

  /** The stream carries those chunks, read with `behind(j)` behind the buffer of the `j`th. */
  ghost predicate SentAs(stream: seq<Chunk>, clean: seq<Chunk>, d: Disk, behind: nat -> Bytes) {
    |stream| == |clean|
    && forall j :: 0 <= j < |clean| ==>
         stream[j] == clean[j].(content := DataRead(d, clean[j].path, clean[j].size, clean[j].off, behind(j)))
  }

  /** The vectors that `Write` and `Prepare` build for the log and the table. */
  ghost predicate Describes(ps: seq<Piece>, movs: seq<(string, string)>, files: seq<string>, sizes: seq<nat>, offsets: seq<nat>) {
    movs == Movs(ps) && files == Paths(ps) && sizes == Sizes(ps) && offsets == Offsets(ps)
  }

  lemma {:induction false} OneMoreExtent(es: seq<PathData>, buffer: Bytes, i: nat, movs: seq<(string, string)>, files: seq<string>,
                      sizes: seq<nat>, offsets: seq<nat>)
    requires i < |es| && SizeBefore(es, |es|) <= |buffer|
    requires Describes(Cut(es, buffer)[..i], movs, files, sizes, offsets)
    ensures var e := es[i];
            Describes(Cut(es, buffer)[..i + 1], movs + [(Tmp(e.path), e.path)], files + [e.path],
                      sizes + [e.size], offsets + [e.offset])
  {
    CutAt(es, buffer, i);
    var ps := Cut(es, buffer);
    assert ps[..i + 1][..i] == ps[..i];
  }

  class Server {
    var disk: Disk
    const wal: WAL
    const kv: KVStore
    const cache: Cache
    const cacheOn: bool
    ghost const initial: Node
    ghost var trace: seq<Op>

    constructor (disk: Disk, cacheOn: bool)
      ensures Valid() && State() == Node(disk, [], map[]) && trace == []
      ensures fresh(wal) && fresh(kv) && fresh(cache) && cache.entries == map[] && this.cacheOn == cacheOn
    {
      this.disk := disk;
      wal := new WAL();
      kv := new KVStore();
      cache := new Cache();
      this.cacheOn := cacheOn;
      initial := Node(disk, [], map[]);
      trace := [];
    }

    ghost function State(): Node
      reads this, wal, kv
    {
      Node(disk, wal.records, kv.store)
    }

    ghost predicate Valid()
      reads this, wal, kv
    {
      wal.Valid() && State() == Exec(initial, trace)
    }

    /** The server has taken exactly the steps `ops` since it was in state `before` with history `past`. */
    ghost predicate Performed(before: Node, past: seq<Op>, ops: seq<Op>)
      reads this, wal, kv
    {
      Valid() && trace == past + ops && State() == Exec(before, ops)
    }

    lemma {:induction false} Performing(before: Node, past: seq<Op>, ops: seq<Op>)
      requires Valid() && before == Exec(initial, past) && trace == past + ops
      ensures Performed(before, past, ops)
    {
      ExecConcat(initial, past, ops);
    }

    lemma {:induction false} PerformedMore(before: Node, past: seq<Op>, a: seq<Op>, b: seq<Op>)
      requires Valid() && trace == past + a + b && State() == Exec(Exec(before, a), b)
      ensures Performed(before, past, a + b)
    {
      hide Exec, Text, LogLines;
      ExecConcat(before, a, b);
      assert past + a + b == past + (a + b);
    }

    /** Extends the history by the step that has just been taken. */
    ghost method Took(before: Node, op: Op)
      requires wal.Valid() && before == Exec(initial, trace) && State() == Apply(before, op)
      modifies this`trace
      ensures Valid() && trace == old(trace) + [op]
    {
      ExecAppend(initial, trace, op);
      trace := trace + [op];
    }

    // ----- System calls, and the log and table as the handlers use them -----

    method OpenTempFile(path: string)
      requires Valid()
      modifies this
      ensures Valid() && trace == old(trace) + [OpenTemp(path)]
      ensures State() == Apply(old(State()), OpenTemp(path))
    {
      if path !in disk {
        disk := disk[path := []];
      }
      Took(old(State()), OpenTemp(path));
    }

    method CopyBlock(path: string, original: string)
      requires Valid() && path in disk && original in disk
      modifies this
      ensures Valid() && trace == old(trace) + [CopyInto(path, original)]
      ensures State() == Apply(old(State()), CopyInto(path, original))
    {
      var content := FirstBlock(disk[original]);
      disk := disk[path := Overwrite(disk[path], content, 0)];
      Took(old(State()), CopyInto(path, original));
    }

    method PositionalWrite(path: string, data: Bytes, off: nat)
      requires Valid()
      modifies this
      ensures Valid() && trace == old(trace) + [PWrite(path, data, off)]
      ensures State() == Apply(old(State()), PWrite(path, data, off))
    {
      if path in disk {
        disk := disk[path := Overwrite(disk[path], data, off)];
      }
      Took(old(State()), PWrite(path, data, off));
    }

    method Rename(src: string, dst: string)
      requires Valid()
      modifies this
      ensures Valid() && trace == old(trace) + [Move(src, dst)]
      ensures State() == Apply(old(State()), Move(src, dst))
    {
      if src in disk {
        var content := disk[src];
        disk := (disk - {src})[dst := content];
      }
      Took(old(State()), Move(src, dst));
    }

    method Remove(path: string)
      requires Valid()
      modifies this
      ensures Valid() && trace == old(trace) + [Delete(path)]
      ensures State() == Apply(old(State()), Delete(path))
    {
      disk := disk - {path};
      Took(old(State()), Delete(path));
    }

    /** `Helper::writeToLog`; only a start record without moves makes it throw. */
    method WriteToLog(id: string, state: State, movs: seq<(string, string)>) returns (thrown: bool)
      requires Valid()
      modifies this`trace, wal
      ensures Valid() && thrown == (state == START && movs == [])
      ensures thrown ==> trace == old(trace) && State() == old(State())
      ensures !thrown ==> trace == old(trace) + [Append(RecordOf(id, state, movs))]
      ensures !thrown ==> State() == Apply(old(State()), Append(RecordOf(id, state, movs)))
    {
      thrown := false;
      match state {
        case START => thrown := wal.LogPrepare(id, movs);
        case COMMIT => wal.LogCommit(id);
        case ABORT => wal.LogAbort(id);
        case PENDING_REPLICATION => wal.LogPendingReplication(id);
        case RPC_INIT => wal.LogReplicationInit(id);
      }
      if !thrown {
        Took(old(State()), Append(RecordOf(id, state, movs)));
      }
    }

    method TruncateWal()
      requires Valid()
      modifies this`trace, wal
      ensures Valid() && trace == old(trace) + [TruncateLog]
      ensures State() == Apply(old(State()), TruncateLog)
    {
      wal.Truncate();
      Took(old(State()), TruncateLog);
    }

    method AddTxn(id: string, originalFiles: seq<string>, sizes: seq<nat>, offsets: seq<nat>)
      requires Valid()
      modifies this`trace, kv
      ensures var op := KvAdd(id, TxnData(originalFiles, sizes, offsets, START));
              Valid() && trace == old(trace) + [op] && State() == Apply(old(State()), op)
    {
      kv.AddToKVStore(id, originalFiles, sizes, offsets);
      Took(old(State()), KvAdd(id, TxnData(originalFiles, sizes, offsets, START)));
    }

    method SetTxn(id: string, state: State)
      requires Valid()
      modifies this`trace, kv
      ensures Valid() && trace == old(trace) + [KvSet(id, state)]
      ensures State() == Apply(old(State()), KvSet(id, state))
    {
      kv.UpdateStateOnKVStore(id, state);
      Took(old(State()), KvSet(id, state));
    }

    method DropTxn(id: string)
      requires Valid()
      modifies this`trace, kv
      ensures Valid() && trace == old(trace) + [KvDrop(id)]
      ensures State() == Apply(old(State()), KvDrop(id))
    {
      kv.DeleteFromKVStore(id);
      Took(old(State()), KvDrop(id));
    }

    // ----- Shared parts of the handlers -----

    /** Copy the block to its temp file, then splice the new bytes in; false when the block is missing. */
    method WriteToTempFile(tempPath: string, originalPath: string, data: Bytes, off: nat) returns (ok: bool)
      requires Valid() && tempPath == Tmp(originalPath)
      modifies this
      ensures Valid() && ok == (originalPath in old(disk))
      ensures trace == old(trace) + if ok then StageOne(Piece(originalPath, data, off)) else []
      ensures State() == Exec(old(State()), if ok then StageOne(Piece(originalPath, data, off)) else [])
    {
      if originalPath !in disk {
        return false;
      }
      OpenTempFile(tempPath);
      CopyBlock(tempPath, originalPath);
      PositionalWrite(tempPath, data, off);
      assert trace == old(trace) + StageOne(Piece(originalPath, data, off));
      Performing(old(State()), old(trace), StageOne(Piece(originalPath, data, off)));
      ok := true;
    }

    method RenameTemps(names: seq<string>)
      requires Valid()
      modifies this
      ensures Performed(old(State()), old(trace), MoveOps(names))
    {
      for i := 0 to |names|
        invariant Valid() && trace == old(trace) + MoveOps(names)[..i]
        invariant wal.records == old(wal.records) && kv.store == old(kv.store)
      {
        Rename(Tmp(names[i]), names[i]);
        assert MoveOps(names)[..i + 1] == MoveOps(names)[..i] + [Move(Tmp(names[i]), names[i])];
      }
      assert MoveOps(names)[..|names|] == MoveOps(names);
      Performing(old(State()), old(trace), MoveOps(names));
    }

    /** One turn of the staging loop. */
    method StageNext(es: seq<PathData>, buffer: Bytes, i: nat, start: nat, ghost before: Node, ghost past: seq<Op>)
      returns (ok: bool)
      requires i < |es| && SizeBefore(es, |es|) <= |buffer| && start == SizeBefore(es, i)
      requires Performed(before, past, StageOps(Cut(es, buffer)[..i]))
      modifies this
      ensures SizeBefore(es, i + 1) == start + es[i].size
      ensures ok == Findable(before.disk, Cut(es, buffer), i)
      ensures Performed(before, past, StageOps(Cut(es, buffer)[..if ok then i + 1 else i]))
    {
      ghost var ps := Cut(es, buffer);
      CutAt(es, buffer, i);
      StagedSoFar(before, ps, i);
      assert ps[..i + 1][..i] == ps[..i] && StageOps(ps[..i + 1]) == StageOps(ps[..i]) + StageOne(ps[i]);
      hide Cut, SizeBefore, StageOps, StageOne, Exec, Text, LogLines, Tmp;
      var originalPath, data := es[i].path, buffer[start..start + es[i].size];
      ok := WriteToTempFile(Tmp(originalPath), originalPath, data, es[i].offset);
      if ok {
        PerformedMore(before, past, StageOps(ps[..i]), StageOne(ps[i]));
      } else {
        PerformedMore(before, past, StageOps(ps[..i]), []);
        assert StageOps(ps[..i]) + [] == StageOps(ps[..i]);
      }
    }

    /** The loop over files at the start of `Write` and of `Prepare`: it stops at the first missing one. */
    method StageAll(es: seq<PathData>, buffer: Bytes) returns (staged: nat)
      requires Valid() && SizeBefore(es, |es|) <= |buffer|
      modifies this
      ensures var ps := Cut(es, buffer);
              staged == Staging(old(disk), ps) && Performed(old(State()), old(trace), StageOps(ps[..staged]))
    {
      var start := 0;
      ghost var before, past, ps := State(), trace, Cut(es, buffer);
      Performing(before, past, StageOps(ps[..0]));
      hide Exec, StageOps, Cut, Findable, Performed;
      for i := 0 to |es|
        invariant start == SizeBefore(es, i)
        invariant Performed(before, past, StageOps(ps[..i]))
        invariant i <= Staging(before.disk, ps)
      {
        var ok := StageNext(es, buffer, i, start, before, past);
        if !ok {
          return i;
        }
        start := start + es[i].size;
      }
      staged := |es|;
    }

    /** The vectors for the log and the table. */
    method Vectors(es: seq<PathData>, ghost buffer: Bytes)
      returns (movs: seq<(string, string)>, files: seq<string>, sizes: seq<nat>, offsets: seq<nat>)
      requires SizeBefore(es, |es|) <= |buffer|
      ensures Describes(Cut(es, buffer), movs, files, sizes, offsets)
    {
      movs, files, sizes, offsets := [], [], [], [];
      for i := 0 to |es|
        invariant Describes(Cut(es, buffer)[..i], movs, files, sizes, offsets)
      {
        OneMoreExtent(es, buffer, i, movs, files, sizes, offsets);
        movs := movs + [(Tmp(es[i].path), es[i].path)];
        files := files + [es[i].path];
        sizes := sizes + [es[i].size];
        offsets := offsets + [es[i].offset];
      }
      assert Cut(es, buffer)[..|es|] == Cut(es, buffer);
    }

    /** `rename` each temp file over its block, append one record, make one change to the table. */
    method FinishWith(names: seq<string>, id: string, logged: State, kvState: State, ghost ops: seq<Op>)
      requires Valid() && logged != START && (logged == COMMIT || kvState == logged)
      requires ops == MoveOps(names) + [Append(RecordOf(id, logged, [])),
                                        if logged == COMMIT then KvDrop(id) else KvSet(id, kvState)]
      modifies this, wal, kv
      ensures Performed(old(State()), old(trace), ops)
    {
      ghost var before, past := State(), trace;
      RenameTemps(names);
      var _ := WriteToLog(id, logged, []);
      ghost var ops1 := MoveOps(names) + [Append(RecordOf(id, logged, []))];
      assert trace == past + ops1;
      if logged == COMMIT {
        DropTxn(id);
      } else {
        SetTxn(id, kvState);
      }
      assert trace == past + ops;
      Performing(before, past, ops);
    }

    // ----- Handlers for the other server -----

    /** Stage every file, then log the start and enter the transaction in the table. */
    method StageAndLog(id: string, es: seq<PathData>, buffer: Bytes) returns (ok: bool, thrown: bool, files: seq<string>)
      requires Valid() && SizeBefore(es, |es|) <= |buffer|
      modifies this, wal, kv
      ensures var ps := Cut(es, buffer);
              && thrown == (ps == []) && ok == (ps != [] && Staging(old(disk), ps) == |ps|)
              && (ok ==> files == Paths(ps))
              && Performed(old(State()), old(trace), PrepareHandler(old(disk), id, ps))
    {
      hide Exec, Cut, SizeBefore, StageOps, Text, LogLines;
      ghost var before, past, ps := State(), trace, Cut(es, buffer);
      var staged := StageAll(es, buffer);
      if staged < |es| {
        return false, false, [];
      }
      var movs, originalFiles, sizes, offsets := Vectors(es, buffer);
      assert ps[..|ps|] == ps;
      thrown := WriteToLog(id, START, movs);
      if thrown {
        return false, true, [];
      }
      AddTxn(id, originalFiles, sizes, offsets);
      assert trace == past + PrepareOps(id, ps);
      Performing(before, past, PrepareOps(id, ps));
      return true, false, originalFiles;
    }

    /** `behind` is what lies in memory behind a buffer that is too short for its files. */
    method Prepare(id: string, fileData: seq<PathData>, buffer: Bytes, behind: Bytes) returns (status: Status)
      requires Valid()
      modifies this, wal, kv
      ensures var ps := Cut(fileData, InMemory(buffer, SizeBefore(fileData, |fileData|), behind));
              && status == (if ps != [] && Staging(old(disk), ps) == |ps| then OK else OTHER)
              && Performed(old(State()), old(trace), PrepareHandler(old(disk), id, ps))
    {
      var ok, _, _ := StageAndLog(id, fileData, InMemory(buffer, SizeBefore(fileData, |fileData|), behind));
      status := if ok then OK else OTHER;
    }

    method Commit(id: string, names: seq<string>)
      requires Valid()
      modifies this, wal, kv
      ensures Performed(old(State()), old(trace), CommitOps(id, names))
    {
      FinishWith(names, id, COMMIT, COMMIT, CommitOps(id, names));
    }

    method GetTransactionState(id: string) returns (known: bool, state: State)
      ensures known == (id in kv.store) && (known ==> state == kv.store[id].state)
    {
      known, state := kv.GetStateFromKVStore(id);
    }

    method GetPendingReplicationTransactions() returns (ids: seq<string>)
      ensures Lists(ids, PendingIds(kv.store))
    {
      ids := [];
      var rest := kv.store.Keys;
      while rest != {}
        invariant rest <= kv.store.Keys
        invariant Lists(ids, PendingIds(kv.store) - rest)
        decreases rest
      {
        var id :| id in rest;
        if kv.store[id].state == PENDING_REPLICATION {
          ids := ids + [id];
        }
        rest := rest - {id};
      }
    }

    /** `Helper::GetData`: its buffer has no room for a terminator, so the string may run into what lies behind. */
    method GetData(path: string, size: nat, off: nat, behind: Bytes) returns (content: Bytes)
      ensures content == DataRead(disk, path, size, off, behind)
      ensures content == if path in disk then CString(Window(disk[path], off, size) + behind) else []
    {
      if path !in disk {
        return [];
      }
      return CString(Window(disk[path], off, size) + behind);
    }

    /** Returns from inside its loop over the requested transactions. */
    method ForcePendingWrites(requested: seq<string>, behind: nat -> Bytes) returns (stream: seq<Chunk>)
      requires Valid() && KvShape(kv.store)
      modifies kv
      ensures kv.store == if requested == [] then old(kv.store) else Added(old(kv.store), requested[0], NO_DATA)
      ensures SentAs(stream, StreamOf(disk, old(kv.store), requested), disk, behind)
    {
      hide CString, DataRead, DataOf, Exec, Text, LogLines;
      stream := [];
      for i := 0 to |requested|
        invariant i == 0 && stream == [] && kv.store == old(kv.store)
      {
        var txn := kv.GetTransactionDataFromKVStore(requested[i]);
        ghost var store := kv.store;
        assert TxnShape(txn);
        for j := 0 to |txn.originalFiles|
          invariant kv.store == store && SentAs(stream, ChunksOf(disk, txn, j), disk, behind)
        {
          var content := GetData(txn.originalFiles[j], txn.sizes[j], txn.offsets[j], behind(j));
          stream := stream + [Chunk(txn.originalFiles[j], content, txn.sizes[j], txn.offsets[j])];
        }
        return;
      }
    }

    // ----- Client requests -----

    method Read(address: int) returns (status: Reply, content: Bytes)
      requires Valid()
      modifies cache
      ensures var key := IntToString(address);
              var hit := if cacheOn then Lookup(old(cache.entries), key) else [];
              if hit != [] then status == Ok && content == hit && cache.entries == old(cache.entries)
              else if ExtentsPresent(disk, Extents(address))
              then && status == Ok && content == ReadAll(disk, Extents(address))
                   && cache.entries == if cacheOn && key !in old(cache.entries) then old(cache.entries)[key := content]
                                       else old(cache.entries)
              else status == NotFound && cache.entries == old(cache.entries)
    {
      content := [];
      var key := IntToString(address);
      if cacheOn {
        content := cache.GetValueFromCache(key);
      }
      if content != [] {
        return Ok, content;
      }
      var pathData := GetAllFileNames(address);
      for i := 0 to |pathData|
        invariant cache.entries == old(cache.entries) && ExtentsPresent(disk, pathData[..i])
        invariant content == ReadAll(disk, pathData[..i])
      {
        assert pathData[..i + 1][..i] == pathData[..i];
        if pathData[i].path !in disk {
          return NotFound, content;
        }
        content := content + CString(Window(disk[pathData[i].path], pathData[i].offset, pathData[i].size));
      }
      assert pathData[..|pathData|] == pathData;
      if cacheOn {
        cache.AddToCache(key, content);
      }
      status := Ok;
    }

    method AddPlaceholder(key: string)
      modifies cache
      ensures cache.entries == WithPlaceholder(cacheOn, old(cache.entries), key)
      ensures !cacheOn ==> cache.entries == old(cache.entries)
    {
      if cacheOn {
        var prevContent := cache.GetValueFromCache(key);
        if prevContent == [] {
          cache.AddToCache(key, []);
        }
      }
    }

    /** `prepareStatus` and `commitStatus` are how the calls to the other server end, if they are made; `behind` is
        what lies in memory behind a buffer shorter than a block. */
    method Write(address: int, buffer: Bytes, behind: Bytes, id: string, prepareStatus: Status, commitStatus: Status)
      returns (reply: Reply)
      requires Valid()
      modifies this, wal, kv, cache
      ensures SizeBefore(Extents(address), |Extents(address)|) <= BLOCK_SIZE
      ensures var ps := Cut(Extents(address), InMemory(buffer, BLOCK_SIZE, behind));
              && reply == WriteReply(old(disk), ps, prepareStatus, commitStatus)
              && Performed(old(State()), old(trace), ServeOps(old(disk), id, ps, prepareStatus, commitStatus))
      ensures cache.entries == CacheAfterWrite(cacheOn, old(cache.entries), IntToString(address), buffer, reply)
      ensures !cacheOn ==> cache.entries == old(cache.entries)
      ensures OnlyStored(old(disk)) ==> reply == ReplyOnStorage(address, prepareStatus, commitStatus)
    {
      if OnlyStored(disk) {
        RepliesExactly(disk, address, InMemory(buffer, BLOCK_SIZE, behind), prepareStatus, commitStatus);
      }
      hide OnlyStored, ReplyOnStorage, Extents, Cut, WriteReply, ServeOps, SizeBefore, Performed, IsStoredBlock;
      hide IntToString, InMemory, Exec, Text, LogLines, IsValidAddress;
      var key := IntToString(address);
      AddPlaceholder(key);
      var pathData := GetAllFileNames(address);
      reply := WriteExtents(address, pathData, InMemory(buffer, BLOCK_SIZE, behind), id, prepareStatus, commitStatus);
      if reply == Ok && cacheOn {
        cache.UpdateCache(key, buffer);
      }
    }

    /** `Write` between its cache lookup and its cache update. */
    method WriteExtents(address: int, pathData: seq<PathData>, buffer: Bytes, id: string,
                        prepareStatus: Status, commitStatus: Status) returns (reply: Reply)
      requires Valid() && pathData == Extents(address) && |buffer| == BLOCK_SIZE
      modifies this, wal, kv
      ensures SizeBefore(pathData, |pathData|) <= |buffer|
      ensures var ps := Cut(pathData, buffer);
              && reply == WriteReply(old(disk), ps, prepareStatus, commitStatus)
              && Performed(old(State()), old(trace), ServeOps(old(disk), id, ps, prepareStatus, commitStatus))
    {
      ghost var before, past := State(), trace;
      ExtentsFit(address, buffer);
      hide Exec, Cut, SizeBefore, StageOps, PrepareOps, AfterPrepare, Text, LogLines, Extents;
      ghost var ps := Cut(pathData, buffer);
      StagingOfCut(pathData, buffer, disk);
      var staged, thrown, originalFiles := StageAndLog(id, pathData, buffer);
      if thrown {
        NoStaging(ps);
        return Thrown;
      }
      if !staged {
        return NotFound;
      }
      reply := AfterPrepareCall(ps, originalFiles, id, prepareStatus, commitStatus);
      PerformedMore(before, past, PrepareOps(id, ps), AfterPrepare(id, ps, prepareStatus, commitStatus));
    }

    method AfterPrepareCall(ghost ps: seq<Piece>, originalFiles: seq<string>, id: string,
                            prepareStatus: Status, commitStatus: Status) returns (reply: Reply)
      requires Valid() && originalFiles == Paths(ps)
      modifies this, wal, kv
      ensures reply == if prepareStatus == OTHER || (prepareStatus == OK && commitStatus == OTHER) then Unknown else Ok
      ensures Performed(old(State()), old(trace), AfterPrepare(id, ps, prepareStatus, commitStatus))
    {
      ghost var before, past := State(), trace;
      if prepareStatus == OK {
        FinishWith(originalFiles, id, RPC_INIT, RPC_INIT, InstallOps(id, ps));
        reply := AfterCommitCall(ps, originalFiles, id, commitStatus);
        PerformedMore(before, past, InstallOps(id, ps), AfterCommit(id, ps, commitStatus));
      } else if prepareStatus == UNAVAILABLE {
        FinishWith(originalFiles, id, PENDING_REPLICATION, PENDING_REPLICATION, PendingOps(id, ps));
        reply := Ok;
      } else {
        var _ := WriteToLog(id, ABORT, []);
        DropTxn(id);
        Performing(before, past, [Append(Abort(id)), KvDrop(id)]);
        reply := Unknown;
      }
    }

    method AfterCommitCall(ghost ps: seq<Piece>, originalFiles: seq<string>, id: string, commitStatus: Status)
      returns (reply: Reply)
      requires Valid() && originalFiles == Paths(ps)
      modifies this, wal, kv
      ensures reply == if commitStatus == OTHER then Unknown else Ok
      ensures Performed(old(State()), old(trace), AfterCommit(id, ps, commitStatus))
    {
      ghost var before, past := State(), trace;
      if commitStatus == OK {
        var _ := WriteToLog(id, COMMIT, []);
        DropTxn(id);
        Performing(before, past, [Append(Record.Commit(id)), KvDrop(id)]);
        reply := Ok;
      } else if commitStatus == UNAVAILABLE {
        FinishWith(originalFiles, id, PENDING_REPLICATION, PENDING_REPLICATION, PendingOps(id, ps));
        reply := Ok;
      } else {
        DropTxn(id);
        Performing(before, past, [KvDrop(id)]);
        reply := Unknown;
      }
    }
  }

  lemma {:induction false} StagedNames(n: Node, ps: seq<Piece>, p: string)
    ensures p in Exec(n, StageOps(ps)).disk <==> p in n.disk || exists j :: 0 <= j < |ps| && Tmp(ps[j].path) == p
  {
    if ps != [] {
      var init, last := ps[..|ps| - 1], ps[|ps| - 1];
      StagedNames(n, init, p);
      ExecConcat(n, StageOps(init), StageOne(last));
      StagedOneNames(Exec(n, StageOps(init)), last, p);
      assert forall j :: 0 <= j < |init| ==> init[j] == ps[j];
    }
  }

  lemma {:induction false} StagedOneNames(n: Node, piece: Piece, p: string)
    ensures p in Exec(n, StageOne(piece)).disk <==> p in n.disk || Tmp(piece.path) == p
  {
    var ops := StageOne(piece);
    assert ops == [ops[0]] + [ops[1]] + [ops[2]];
    ExecOne(n, ops[0]);
    ExecAppend(n, [ops[0]], ops[1]);
    ExecAppend(n, [ops[0]] + [ops[1]], ops[2]);
  }

  /** What the staging loop finds when it comes to piece `i`. */
  lemma {:induction false} StagedSoFar(n: Node, ps: seq<Piece>, i: nat)
    requires i < |ps|
    ensures ps[i].path in Exec(n, StageOps(ps[..i])).disk <==> Findable(n.disk, ps, i)
  {
    hide Exec, StageOps, Tmp;
    StagedNames(n, ps[..i], ps[i].path);
    assert forall j :: 0 <= j < i ==> ps[..i][j] == ps[j];
  }

  lemma {:induction false} StagingOfCut(es: seq<PathData>, buffer: Bytes, d: Disk)
    requires SizeBefore(es, |es|) <= |buffer| && BlockExtents(es)
    ensures Staging(d, Cut(es, buffer)) == Stageable(d, Cut(es, buffer))
  {
    forall i | 0 <= i < |es|
      ensures IsBlockName(Cut(es, buffer)[i].path)
    {
      CutAt(es, buffer, i);
    }
    StagingOfBlocks(d, Cut(es, buffer));
  }
}
