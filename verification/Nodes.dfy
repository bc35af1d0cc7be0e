/** One server's state, the atomic steps that change it, and its handlers as step sequences.
    A crash can fall between any two steps: a prefix of a sequence is what a crash leaves behind. */
module Nodes {
  import opened Storage
  import opened WriteAheadLog
  import opened KeyValueStore

  /** Disk and log survive a crash; the table does not. */
  datatype Node = Node(disk: Disk, log: seq<Record>, kv: Kv)

  function Crashed(n: Node): Node {
    n.(kv := map[])
  }

  datatype Op =
    | OpenTemp(path: string)                           // open(O_CREAT | O_WRONLY), no truncation
    | CopyInto(path: string, original: string)         // read one block, write it at the start
    | PWrite(path: string, data: Bytes, off: nat)      // to an existing file
    | Move(src: string, dst: string)
    | Delete(path: string)
    | Append(record: Record)
    | TruncateLog
    | KvAdd(id: string, txn: TxnData)
    | KvSet(id: string, state: State)
    | KvDrop(id: string)

  function Apply(n: Node, op: Op): Node {
    match op
    case OpenTemp(path) => if path in n.disk then n else n.(disk := n.disk[path := []])
    case CopyInto(path, original) =>
      if path in n.disk && original in n.disk
      then n.(disk := n.disk[path := Overwrite(n.disk[path], FirstBlock(n.disk[original]), 0)])
      else n
    case PWrite(path, data, off) =>
      if path in n.disk then n.(disk := n.disk[path := Overwrite(n.disk[path], data, off)]) else n
    case Move(src, dst) => n.(disk := Renamed(n.disk, src, dst))
    case Delete(path) => n.(disk := n.disk - {path})
    case Append(record) => n.(log := n.log + [record])
    case TruncateLog => n.(log := [])
    case KvAdd(id, txn) => n.(kv := Added(n.kv, id, txn))
    case KvSet(id, state) => n.(kv := WithState(n.kv, id, state))
    case KvDrop(id) => n.(kv := n.kv - {id})
  }

  function Exec(n: Node, ops: seq<Op>): Node {
    if ops == [] then n else Apply(Exec(n, ops[..|ops| - 1]), ops[|ops| - 1])
  }

  // ----- Handlers -----

  /** Bytes of one write that go to one file. */
  datatype Piece = Piece(path: string, data: Bytes, off: nat)

  /** `WriteToTempFile`. */
  function StageOne(p: Piece): seq<Op> {
    [OpenTemp(Tmp(p.path)), CopyInto(Tmp(p.path), p.path), PWrite(Tmp(p.path), p.data, p.off)]
  }

  function StageOps(ps: seq<Piece>): seq<Op> {
    if ps == [] then [] else StageOps(ps[..|ps| - 1]) + StageOne(ps[|ps| - 1])
  }

  /** The renames of `Commit`, for the names in its request. */
  function MoveOps(names: seq<string>): (r: seq<Op>)
    ensures |r| == |names|
    ensures forall i :: 0 <= i < |names| ==> r[i] == Move(Tmp(names[i]), names[i])
  {
    seq(|names|, i requires 0 <= i < |names| => Move(Tmp(names[i]), names[i]))
  }

  function Paths(ps: seq<Piece>): (r: seq<string>)
    ensures |r| == |ps| && forall i :: 0 <= i < |ps| ==> r[i] == ps[i].path
  {
    seq(|ps|, i requires 0 <= i < |ps| => ps[i].path)
  }

  function Sizes(ps: seq<Piece>): seq<nat> {
    seq(|ps|, i requires 0 <= i < |ps| => |ps[i].data|)
  }

  function Offsets(ps: seq<Piece>): seq<nat> {
    seq(|ps|, i requires 0 <= i < |ps| => ps[i].off)
  }

  /** The (temp, original) pairs of the log. */
  function Movs(ps: seq<Piece>): (r: seq<(string, string)>)
    ensures |r| == |ps|
    ensures forall i :: 0 <= i < |ps| ==> r[i] == (Tmp(ps[i].path), ps[i].path)
  {
    seq(|ps|, i requires 0 <= i < |ps| => (Tmp(ps[i].path), ps[i].path))
  }

  function Txn(ps: seq<Piece>): TxnData {
    TxnData(Paths(ps), Sizes(ps), Offsets(ps), START)
  }

  /** How many leading pieces can be staged: the first missing file stops `Write` and `Prepare`. */
  function Stageable(d: Disk, ps: seq<Piece>): (k: nat)
    ensures k <= |ps|
    ensures forall i :: 0 <= i < k ==> ps[i].path in d
    ensures k < |ps| ==> ps[k].path !in d
    decreases |ps|
  {
    if ps == [] then 0
    else
      var k := Stageable(d, ps[..|ps| - 1]);
      if k == |ps| - 1 && ps[|ps| - 1].path in d then |ps| else k
  }

  /** `Prepare`, and the common start of `Write`, when every file exists. */
  function PrepareOps(id: string, ps: seq<Piece>): seq<Op> {
    StageOps(ps) + [Append(Start(id, Movs(ps))), KvAdd(id, Txn(ps))]
  }

  /** Staging finds a file that is there, or that is the temp file of an earlier one. */
  predicate Findable(d: Disk, ps: seq<Piece>, i: nat)
    requires i < |ps|
  {
    ps[i].path in d || exists j :: 0 <= j < i && Tmp(ps[j].path) == ps[i].path
  }

  /** `Stageable` for names of any kind. */
  function Staging(d: Disk, ps: seq<Piece>): (k: nat)
    ensures k <= |ps|
    ensures forall i :: 0 <= i < k ==> Findable(d, ps, i)
    ensures k < |ps| ==> !Findable(d, ps, k)
    decreases |ps|
  {
    if ps == [] then 0
    else
      var k := Staging(d, ps[..|ps| - 1]);
      assert forall i :: 0 <= i < |ps| - 1 ==> (Findable(d, ps, i) <==> Findable(d, ps[..|ps| - 1], i));
      if k == |ps| - 1 && Findable(d, ps, k) then |ps| else k
  }

  lemma {:induction false} StagingOfBlocks(d: Disk, ps: seq<Piece>)
    requires forall i :: 0 <= i < |ps| ==> IsBlockName(ps[i].path)
    ensures Staging(d, ps) == Stageable(d, ps)
  {
    forall i | 0 <= i < |ps|
      ensures Findable(d, ps, i) <==> ps[i].path in d
    {
      forall j | 0 <= j < i
        ensures Tmp(ps[j].path) != ps[i].path
      {
        TmpIsNotABlock(ps[j].path);
      }
    }
  }

  /** All that `Prepare` does for a list of files: it stops at the first that is missing, and logs no empty list. */
  function PrepareHandler(d: Disk, id: string, ps: seq<Piece>): seq<Op> {
    var k := Staging(d, ps);
    if ps != [] && k == |ps| then PrepareOps(id, ps) else StageOps(ps[..k])
  }

  function CommitOps(id: string, names: seq<string>): seq<Op> {
    MoveOps(names) + [Append(Commit(id)), KvDrop(id)]
  }

  /** gRPC outcomes as far as `Write` tells them apart; OTHER is every other error code. */
  datatype Status = OK | UNAVAILABLE | OTHER

  function PendingOps(id: string, ps: seq<Piece>): seq<Op> {
    MoveOps(Paths(ps)) + [Append(Pending(id)), KvSet(id, PENDING_REPLICATION)]
  }

  function AfterCommit(id: string, ps: seq<Piece>, commit: Status): seq<Op> {
    match commit
    case OK => [Append(Commit(id)), KvDrop(id)]
    case UNAVAILABLE => PendingOps(id, ps)
    case OTHER => [KvDrop(id)]
  }

  function InstallOps(id: string, ps: seq<Piece>): seq<Op> {
    MoveOps(Paths(ps)) + [Append(ReplInit(id)), KvSet(id, RPC_INIT)]
  }

  function AfterPrepare(id: string, ps: seq<Piece>, prepare: Status, commit: Status): seq<Op> {
    match prepare
    case OK => InstallOps(id, ps) + AfterCommit(id, ps, commit)
    case UNAVAILABLE => PendingOps(id, ps)
    case OTHER => [Append(Abort(id)), KvDrop(id)]
  }

  /** What `Write` does on its own server, given how its two calls to the peer end. */
  function WriteOps(d: Disk, id: string, ps: seq<Piece>, prepare: Status, commit: Status): seq<Op> {
    if Stageable(d, ps) < |ps| then StageOps(ps[..Stageable(d, ps)])
    else PrepareOps(id, ps) + AfterPrepare(id, ps, prepare, commit)
  }
}
