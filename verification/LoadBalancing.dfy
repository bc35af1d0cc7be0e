/** The load balancer: registration by heartbeat, routing of requests, and when a backup promotes itself. */
module LoadBalancing {

  const PRIMARY_STR: string := "PRIMARY"
  const BACKUP_STR: string := "BACKUP"

  datatype Identity = PRIMARY | BACKUP

  function IdentityName(i: Identity): string {
    match i
    case PRIMARY => PRIMARY_STR
    case BACKUP => BACKUP_STR
  }

  // ----- The tables -----

  /** Addresses by identity, and the address each identity's client was created for. */
  datatype Tables = Tables(nodes: map<string, string>, clients: map<string, string>)

  function AddressOf(nodes: map<string, string>, identity: string): string {
    if identity in nodes then nodes[identity] else ""
  }

  /** `operator[]` leaves an empty entry behind for an identity that had none. */
  function Looked(nodes: map<string, string>, identity: string): map<string, string> {
    nodes[identity := AddressOf(nodes, identity)]
  }

  predicate Registered(t: Tables, identity: string) {
    AddressOf(t.nodes, identity) != ""
  }

  /** `insert` does not replace an existing client. */
  function WithNode(t: Tables, identity: string, address: string): Tables {
    Tables(t.nodes[identity := address], if identity in t.clients then t.clients else t.clients[identity := address])
  }

  function WithoutNode(t: Tables, identity: string): Tables {
    if identity == "" then t else Tables(t.nodes - {identity}, t.clients - {identity})
  }

  function PeerOf(identity: string): string {
    if identity == PRIMARY_STR then BACKUP_STR else PRIMARY_STR
  }

  /** The LB's side of one heartbeat stream. */
  datatype Stream = Stream(firstTime: bool, prevIdentity: string, identity: string)

  function TablesAfterMessage(t: Tables, s: Stream, identity: string, address: string): Tables {
    if identity == s.prevIdentity then t
    else WithNode(if s.firstTime then t else WithoutNode(t, identity), identity, address)
  }

  function StreamAfterMessage(s: Stream, identity: string): Stream {
    Stream(s.firstTime && identity == s.prevIdentity, identity, identity)
  }

  /** Which of the two a request goes to: alternately, unless the one whose turn it is is not registered. */
  function Route(t: Tables, idx: int): string {
    if idx == 0 then if Registered(t, PRIMARY_STR) then PRIMARY_STR else BACKUP_STR
    else if Registered(t, BACKUP_STR) then BACKUP_STR else PRIMARY_STR
  }

  class LoadBalancer {
    var nodes: map<string, string>
    var clients: map<string, string>
    var idx: int

    constructor ()
      ensures Contents() == Tables(map[], map[]) && idx == 0
    {
      nodes, clients, idx := map[], map[], 0;
    }

    function Contents(): Tables
      reads this
    {
      Tables(nodes, clients)
    }

    method IsRegistered(identity: string) returns (registered: bool)
      modifies this`nodes
      ensures nodes == Looked(old(nodes), identity) && registered == Registered(old(Contents()), identity)
      ensures identity in nodes && nodes.Keys == old(nodes.Keys) + {identity}
    {
      if identity !in nodes {
        nodes := nodes[identity := ""];
      }
      registered := nodes[identity] != "";
    }

    method GetServerToRouteTo() returns (key: string)
      requires idx == 0 || idx == 1
      modifies this`nodes, this`idx
      ensures idx == 1 - old(idx) && key == Route(old(Contents()), idx)
      ensures forall i :: AddressOf(nodes, i) == AddressOf(old(nodes), i)
      ensures nodes.Keys == old(nodes.Keys) + {if idx == 0 then "PRIMARY" else "BACKUP"}
    {
      idx := 1 - idx;
      if idx == 0 {
        var registered := IsRegistered(PRIMARY_STR);
        if !registered {
          return BACKUP_STR;
        }
        return PRIMARY_STR;
      }
      var registered := IsRegistered(BACKUP_STR);
      if !registered {
        return PRIMARY_STR;
      }
      return BACKUP_STR;
    }

    method RegisterNode(identity: string, target: string)
      modifies this`nodes, this`clients
      ensures Contents() == WithNode(old(Contents()), identity, target)
    {
      nodes := nodes[identity := target];
      if identity !in clients {
        clients := clients[identity := target];
      }
    }

    method EraseNode(identity: string)
      modifies this`nodes, this`clients
      ensures Contents() == WithoutNode(old(Contents()), identity)
    {
      if identity == "" {
        return;
      }
      nodes := nodes - {identity};
      clients := clients - {identity};
    }

    method GetPeerIp(identity: string) returns (address: string)
      modifies this`nodes
      ensures nodes == Looked(old(nodes), PeerOf(identity)) && address == AddressOf(old(nodes), PeerOf(identity))
      ensures nodes.Keys == old(nodes.Keys) + {if identity == "PRIMARY" then "BACKUP" else "PRIMARY"}
    {
      var peer := if identity == PRIMARY_STR then BACKUP_STR else PRIMARY_STR;
      if peer !in nodes {
        nodes := nodes[peer := ""];
      }
      address := nodes[peer];
    }

    /** One round of `SendHeartBeat`: a message read from the stream, and the reply to it. */
    method HandleMessage(stream: Stream, identity: string, address: string) returns (after: Stream, peer: string)
      modifies this`nodes, this`clients
      ensures after == StreamAfterMessage(stream, identity)
      ensures var t := TablesAfterMessage(old(Contents()), stream, identity, address);
              && nodes == Looked(t.nodes, PeerOf(identity)) && clients == t.clients
              && peer == AddressOf(t.nodes, PeerOf(identity))
    {
      var firstTime := stream.firstTime;
      if identity != stream.prevIdentity {
        if firstTime {
          firstTime := false;
        } else {
          EraseNode(identity);
        }
        RegisterNode(identity, address);
      }
      after := Stream(firstTime, identity, identity);
      peer := GetPeerIp(identity);
    }

    /** The stream broke: the identity that it last announced is forgotten. */
    method HandleBreak(stream: Stream)
      modifies this`nodes, this`clients
      ensures Contents() == WithoutNode(old(Contents()), stream.identity)
    {
      EraseNode(stream.identity);
    }
  }

  // ----- The whole system -----

  /** A storage server: who it thinks it is, its stream, and the peer that the last reply named, if any. */
  datatype StorageServer = StorageServer(identity: Identity, address: string, up: bool, stream: Stream, peer: string)

  datatype Cluster = Cluster(nodes: map<string, string>, clients: map<string, string>, idx: int, servers: seq<StorageServer>)

  datatype ClusterEvent =
    | Join(identity: Identity, address: string)
    | Tick(server: nat, delivered: bool)   // one round of a server's heartbeat loop; a reply that is lost breaks the stream
    | Break(server: nat)
    | ServeRead
    | ServeWrite

  function TablesOf(c: Cluster): Tables {
    Tables(c.nodes, c.clients)
  }

  function WithTables(c: Cluster, t: Tables): Cluster {
    c.(nodes := t.nodes, clients := t.clients)
  }

  /** A backup whose last reply named no peer takes itself for the primary. */
  function Promoted(n: StorageServer): StorageServer {
    if n.identity == BACKUP && n.peer == "" then n.(identity := PRIMARY) else n
  }

  function AfterTick(c: Cluster, i: nat, delivered: bool): Cluster
    requires i < |c.servers|
  {
    var n := c.servers[i];
    if !n.up then c.(servers := c.servers[i := Promoted(n)])
    else
      var name := IdentityName(n.identity);
      var t := TablesAfterMessage(TablesOf(c), n.stream, name, n.address);
      var looked := t.(nodes := Looked(t.nodes, PeerOf(name)));
      var stream := StreamAfterMessage(n.stream, name);
      if delivered then
        WithTables(c, looked).(servers := c.servers[i := Promoted(n.(stream := stream, peer := AddressOf(t.nodes, PeerOf(name))))])
      else
        WithTables(c, WithoutNode(looked, name)).(servers := c.servers[i := Promoted(n.(stream := stream, up := false))])
  }

  function AfterBreak(c: Cluster, i: nat): Cluster
    requires i < |c.servers|
  {
    var n := c.servers[i];
    if !n.up then c
    else WithTables(c, WithoutNode(TablesOf(c), n.stream.identity)).(servers := c.servers[i := n.(up := false)])
  }

  function Routed(c: Cluster): Cluster {
    var idx := 1 - c.idx;
    c.(idx := idx, nodes := Looked(c.nodes, if idx == 0 then PRIMARY_STR else BACKUP_STR))
  }

  function ClusterStep(c: Cluster, e: ClusterEvent): Cluster {
    match e
    case Join(identity, address) => c.(servers := c.servers + [StorageServer(identity, address, true, Stream(true, "", ""), "")])
    case Tick(i, delivered) => if i < |c.servers| then AfterTick(c, i, delivered) else c
    case Break(i) => if i < |c.servers| then AfterBreak(c, i) else c
    case ServeRead => Routed(c)
    case ServeWrite => c
  }

  /** Servers announce addresses; a request is made only when a server it needs is registered. */
  predicate PossibleInCluster(c: Cluster, e: ClusterEvent) {
    match e
    case Join(_, address) => address != ""
    case ServeRead => Registered(TablesOf(c), PRIMARY_STR) || Registered(TablesOf(c), BACKUP_STR)
    case ServeWrite => Registered(TablesOf(c), PRIMARY_STR)
    case _ => true
  }

  function ClusterRun(c: Cluster, es: seq<ClusterEvent>): Cluster {
    if es == [] then c else ClusterStep(ClusterRun(c, es[..|es| - 1]), es[|es| - 1])
  }

  ghost predicate PossibleClusterRun(c: Cluster, es: seq<ClusterEvent>) {
    forall k :: 0 <= k < |es| ==> PossibleInCluster(ClusterRun(c, es[..k]), es[k])
  }

  // ----- Routing -----

  ghost predicate TablesMatch(t: Tables) {
    forall id :: id in t.clients <==> id in t.nodes && t.nodes[id] != ""
  }

  ghost predicate ClientsMatch(c: Cluster) {
    && TablesMatch(TablesOf(c))
    && (c.idx == 0 || c.idx == 1)
    && (forall i :: 0 <= i < |c.servers| ==> c.servers[i].address != "")
  }

  lemma {:induction false} ErasingMatches(t: Tables, identity: string)
    requires TablesMatch(t)
    ensures TablesMatch(WithoutNode(t, identity))
  {
  }

  lemma {:induction false} LookingMatches(t: Tables, identity: string)
    requires TablesMatch(t)
    ensures TablesMatch(t.(nodes := Looked(t.nodes, identity)))
  {
  }

  lemma {:induction false} MessageMatches(t: Tables, s: Stream, identity: string, address: string)
    requires TablesMatch(t) && address != ""
    ensures TablesMatch(TablesAfterMessage(t, s, identity, address))
  {
  }

  lemma {:induction false} TickKeepsClients(c: Cluster, i: nat, delivered: bool)
    requires ClientsMatch(c) && i < |c.servers|
    ensures ClientsMatch(AfterTick(c, i, delivered))
  {
    var n := c.servers[i];
    var name := IdentityName(n.identity);
    hide TablesMatch, WithNode, WithoutNode, TablesAfterMessage, Looked;
    MessageMatches(TablesOf(c), n.stream, name, n.address);
    var t := TablesAfterMessage(TablesOf(c), n.stream, name, n.address);
    LookingMatches(t, PeerOf(name));
    ErasingMatches(t.(nodes := Looked(t.nodes, PeerOf(name))), name);
  }

  lemma {:induction false} StepKeepsClients(c: Cluster, e: ClusterEvent)
    requires ClientsMatch(c) && PossibleInCluster(c, e)
    ensures ClientsMatch(ClusterStep(c, e))
  {
    hide TablesMatch, WithoutNode, Looked, AfterTick;
    match e
    case Tick(i, delivered) =>
      if i < |c.servers| {
        TickKeepsClients(c, i, delivered);
      }
    case Break(i) =>
      if i < |c.servers| {
        ErasingMatches(TablesOf(c), c.servers[i].stream.identity);
      }
    case ServeRead => LookingMatches(TablesOf(c), if 1 - c.idx == 0 then PRIMARY_STR else BACKUP_STR);
    case _ =>
  }

  /** Over all interleavings of heartbeat streams and requests, exactly the registered identities have a client. */
  lemma {:induction false} ClientsAreRegistered(c: Cluster, es: seq<ClusterEvent>)
    requires ClientsMatch(c) && PossibleClusterRun(c, es)
    ensures ClientsMatch(ClusterRun(c, es))
  {
    hide ClientsMatch, ClusterStep, PossibleInCluster;
    if es != [] {
      var init := es[..|es| - 1];
      assert forall k :: 0 <= k < |init| ==> init[..k] == es[..k];
      ClientsAreRegistered(c, init);
      StepKeepsClients(ClusterRun(c, init), es[|es| - 1]);
    }
  }

  /** So every read that is served goes to a server with a client, and with both registered the reads alternate. */
  lemma {:induction false} ReadsFindAServer(c: Cluster, es: seq<ClusterEvent>)
    requires ClientsMatch(c) && PossibleClusterRun(c, es) && PossibleInCluster(ClusterRun(c, es), ServeRead)
    ensures var d := ClusterRun(c, es);
            var key := Route(TablesOf(d), ClusterStep(d, ServeRead).idx);
            && key in d.clients && Registered(TablesOf(d), key)
            && (Registered(TablesOf(d), PRIMARY_STR) && Registered(TablesOf(d), BACKUP_STR) ==>
                  var again := ClusterStep(d, ServeRead);
                  Route(TablesOf(again), ClusterStep(again, ServeRead).idx) != key)
  {
    ClientsAreRegistered(c, es);
    hide ClusterRun;
  }

  /** The client of an identity reaches the registered address, unless it was created for another one before. */
  lemma {:induction false} ClientIsStaleExactly(t: Tables, s: Stream, identity: string, address: string)
    requires identity != s.prevIdentity && identity != ""
    ensures var t' := TablesAfterMessage(t, s, identity, address);
            && identity in t'.clients && t'.nodes[identity] == address
            && (t'.clients[identity] != t'.nodes[identity]
                <==> s.firstTime && identity in t.clients && t.clients[identity] != address)
  {
  }

  // ----- Failover -----

  /** The event ends a stream that stands for the primary. */
  predicate EndsPrimaryStream(c: Cluster, e: ClusterEvent) {
    match e
    case Break(i) => i < |c.servers| && c.servers[i].up && c.servers[i].stream.identity == PRIMARY_STR
    case Tick(i, delivered) => i < |c.servers| && c.servers[i].up && !delivered && c.servers[i].identity == PRIMARY
    case _ => false
  }

  /** The primary is registered, and the last reply to server `b`, a backup, named a peer. */
  predicate Settled(c: Cluster, b: nat) {
    && b < |c.servers| && c.servers[b].identity == BACKUP && c.servers[b].peer != ""
    && Registered(TablesOf(c), PRIMARY_STR) && forall i :: 0 <= i < |c.servers| ==> c.servers[i].address != ""
  }

  lemma {:induction false} StepKeepsSettled(c: Cluster, e: ClusterEvent, b: nat)
    requires Settled(c, b) && PossibleInCluster(c, e) && !EndsPrimaryStream(c, e)
    ensures Settled(ClusterStep(c, e), b)
  {
  }

  /** As long as no stream that stands for the primary ends, no step promotes the backup. */
  lemma {:induction false} BackupIsNotPromoted(c: Cluster, es: seq<ClusterEvent>, b: nat)
    requires Settled(c, b) && PossibleClusterRun(c, es)
    requires forall k :: 0 <= k < |es| ==> !EndsPrimaryStream(ClusterRun(c, es[..k]), es[k])
    ensures Settled(ClusterRun(c, es), b) && ClusterRun(c, es).servers[b].identity == BACKUP
  {
    hide ClusterStep, PossibleInCluster, EndsPrimaryStream;
    if es != [] {
      var init := es[..|es| - 1];
      assert forall k :: 0 <= k < |init| ==> init[..k] == es[..k];
      BackupIsNotPromoted(c, init, b);
      hide Settled;
      StepKeepsSettled(ClusterRun(c, init), es[|es| - 1], b);
      SettledIsBackup(ClusterRun(c, es), b);
    }
  }

  lemma {:induction false} SettledIsBackup(c: Cluster, b: nat)
    requires Settled(c, b)
    ensures b < |c.servers| && c.servers[b].identity == BACKUP
  {
  }

  /** A heartbeat that is answered promotes a backup exactly when the load balancer has no primary by then. */
  lemma {:induction false} PromotedExactly(c: Cluster, b: nat)
    requires b < |c.servers| && c.servers[b].up && c.servers[b].identity == BACKUP
    ensures ClusterStep(c, Tick(b, true)).servers[b].identity == PRIMARY <==> !Registered(TablesOf(c), PRIMARY_STR)
  {
  }

  /** An answered heartbeat that announces a primary anew. */
  predicate RegistersPrimary(c: Cluster, e: ClusterEvent) {
    match e
    case Tick(i, delivered) =>
      i < |c.servers| && c.servers[i].up && delivered && c.servers[i].identity == PRIMARY
      && c.servers[i].stream.prevIdentity != PRIMARY_STR
    case _ => false
  }

  predicate Addressed(c: Cluster) {
    forall i :: 0 <= i < |c.servers| ==> c.servers[i].address != ""
  }

  lemma {:induction false} RegisteredAfterStep(c: Cluster, e: ClusterEvent)
    requires Addressed(c) && PossibleInCluster(c, e)
    ensures Addressed(ClusterStep(c, e))
    ensures Registered(TablesOf(ClusterStep(c, e)), PRIMARY_STR)
            <==> RegistersPrimary(c, e) || (Registered(TablesOf(c), PRIMARY_STR) && !EndsPrimaryStream(c, e))
  {
  }

  /** No stream that stands for the primary has ended since the `k`th event. */
  ghost predicate NoneEndsFrom(c: Cluster, es: seq<ClusterEvent>, k: nat) {
    forall m :: k <= m < |es| ==> !EndsPrimaryStream(ClusterRun(c, es[..m]), es[m])
  }

  /** A primary was registered at first or by some event, and no stream that stands for the primary has ended since. */
  ghost predicate PrimaryStands(c: Cluster, es: seq<ClusterEvent>) {
    || (Registered(TablesOf(c), PRIMARY_STR) && NoneEndsFrom(c, es, 0))
    || exists k :: 0 <= k < |es| && RegistersPrimary(ClusterRun(c, es[..k]), es[k]) && NoneEndsFrom(c, es, k + 1)
  }

  lemma {:induction false} NoneEndsOneMore(c: Cluster, es: seq<ClusterEvent>, k: nat)
    requires k < |es|
    ensures NoneEndsFrom(c, es, k)
            <==> NoneEndsFrom(c, es[..|es| - 1], k) && !EndsPrimaryStream(ClusterRun(c, es[..|es| - 1]), es[|es| - 1])
  {
    hide EndsPrimaryStream, ClusterRun;
    var init := es[..|es| - 1];
    assert forall m :: 0 <= m < |init| ==> init[..m] == es[..m];
  }

  lemma {:induction false} StandsOneMore(c: Cluster, es: seq<ClusterEvent>)
    requires es != []
    ensures var init, e := es[..|es| - 1], es[|es| - 1];
            PrimaryStands(c, es)
            <==> RegistersPrimary(ClusterRun(c, init), e) || (PrimaryStands(c, init) && !EndsPrimaryStream(ClusterRun(c, init), e))
  {
    hide EndsPrimaryStream, RegistersPrimary, ClusterRun, Registered, NoneEndsFrom;
    var init, e := es[..|es| - 1], es[|es| - 1];
    assert forall m :: 0 <= m < |init| ==> init[..m] == es[..m] && init[m] == es[m];
    forall k: nat | k < |es|
      ensures NoneEndsFrom(c, es, k) <==> NoneEndsFrom(c, init, k) && !EndsPrimaryStream(ClusterRun(c, init), e)
    {
      NoneEndsOneMore(c, es, k);
    }
    NoneEndsAfter(c, es);
    if k :| 0 <= k < |init| && RegistersPrimary(ClusterRun(c, init[..k]), init[k]) && NoneEndsFrom(c, init, k + 1) {
      assert RegistersPrimary(ClusterRun(c, es[..k]), es[k]);
    }
    if k :| 0 <= k < |es| && RegistersPrimary(ClusterRun(c, es[..k]), es[k]) && NoneEndsFrom(c, es, k + 1) {
      if k < |init| {
        assert RegistersPrimary(ClusterRun(c, init[..k]), init[k]);
      }
    }
    if RegistersPrimary(ClusterRun(c, init), e) {
      assert RegistersPrimary(ClusterRun(c, es[..|es| - 1]), es[|es| - 1]);
    }
  }

  lemma {:induction false} NoneEndsAfter(c: Cluster, es: seq<ClusterEvent>)
    ensures NoneEndsFrom(c, es, |es|)
  {
  }

  /** Over every run, the primary is registered exactly when it stands. */
  lemma {:induction false} RegisteredExactly(c: Cluster, es: seq<ClusterEvent>)
    requires Addressed(c) && PossibleClusterRun(c, es)
    ensures Addressed(ClusterRun(c, es))
    ensures Registered(TablesOf(ClusterRun(c, es)), PRIMARY_STR) <==> PrimaryStands(c, es)
  {
    hide Addressed, ClusterStep, PossibleInCluster, EndsPrimaryStream, RegistersPrimary, Registered, PrimaryStands;
    if es == [] {
      NothingYet(c);
    } else {
      var init := es[..|es| - 1];
      assert forall k :: 0 <= k < |init| ==> init[..k] == es[..k];
      RegisteredExactly(c, init);
      RegisteredAfterStep(ClusterRun(c, init), es[|es| - 1]);
      StandsOneMore(c, es);
    }
  }

  lemma {:induction false} NothingYet(c: Cluster)
    ensures PrimaryStands(c, []) <==> Registered(TablesOf(c), PRIMARY_STR)
  {
    assert NoneEndsFrom(c, [], 0);
  }

  /** So after any run the next answered heartbeat of a backup promotes it exactly when the last primary to register
      has been erased since, by the end of any stream that stood for the primary. */
  lemma {:induction false} PromotionExactly(c: Cluster, es: seq<ClusterEvent>, b: nat)
    requires Addressed(c) && PossibleClusterRun(c, es)
    requires var d := ClusterRun(c, es); b < |d.servers| && d.servers[b].up && d.servers[b].identity == BACKUP
    ensures var d := ClusterStep(ClusterRun(c, es), Tick(b, true));
            b < |d.servers| && (d.servers[b].identity == PRIMARY <==> !PrimaryStands(c, es))
  {
    RegisteredExactly(c, es);
    hide ClusterRun, PrimaryStands;
    PromotedExactly(ClusterRun(c, es), b);
  }

  /** That the primary's own stream stays up is not enough: when another stream that announced itself as primary
      ends, the primary is forgotten, its further heartbeats do not register it again, and the backup promotes
      itself beside it. */
  lemma {:induction false} TwoPrimaries(c: Cluster, k: nat, j: nat, b: nat)
    requires k < |c.servers| && j < |c.servers| && b < |c.servers| && k != j && j != b && k != b
    requires c.servers[k].up && c.servers[k].identity == PRIMARY && c.servers[k].stream == Stream(false, PRIMARY_STR, PRIMARY_STR)
    requires c.servers[j].up && c.servers[j].stream.identity == PRIMARY_STR
    requires c.servers[b].up && c.servers[b].identity == BACKUP
    ensures var d := ClusterRun(c, [Break(j), Tick(k, true), Tick(b, true)]);
            && |d.servers| == |c.servers|
            && d.servers[k].up && d.servers[k].identity == PRIMARY
            && d.servers[b].up && d.servers[b].identity == PRIMARY
  {
    var es := [Break(j), Tick(k, true), Tick(b, true)];
    assert es[..2] == [Break(j), Tick(k, true)] && es[..2][..1] == [Break(j)] && [Break(j)][..0] == [];
    var c1 := ClusterStep(c, Break(j));
    assert ClusterRun(c, [Break(j)]) == c1;
    assert !Registered(TablesOf(c1), PRIMARY_STR) && c1.servers[k] == c.servers[k] && c1.servers[b] == c.servers[b];
    var c2 := ClusterStep(c1, Tick(k, true));
    assert ClusterRun(c, es[..2]) == c2;
    assert !Registered(TablesOf(c2), PRIMARY_STR) && c2.servers[b] == c.servers[b];
    PromotedExactly(c2, b);
    assert ClusterRun(c, es) == ClusterStep(c2, Tick(b, true));
  }

  function EmptyCluster(): Cluster {
    Cluster(map[], map[], 0, [])
  }

  /** Two servers start as primary, one after the other, and one as backup; each is heard once. */
  function ThreeJoin(): seq<ClusterEvent> {
    [Join(PRIMARY, "a"), Join(PRIMARY, "b"), Join(BACKUP, "c"), Tick(0, true), Tick(1, true), Tick(2, true)]
  }

  lemma {:induction false} OneMoreEvent(c: Cluster, es: seq<ClusterEvent>, e: ClusterEvent)
    requires PossibleClusterRun(c, es) && PossibleInCluster(ClusterRun(c, es), e)
    ensures PossibleClusterRun(c, es + [e]) && ClusterRun(c, es + [e]) == ClusterStep(ClusterRun(c, es), e)
  {
    hide PossibleInCluster, ClusterStep;
    var all := es + [e];
    assert all[..|es|] == es;
    assert forall k :: 0 <= k < |es| ==> es[..k] == all[..k];
  }

  function Heard(n: StorageServer, peer: string): StorageServer {
    var name := IdentityName(n.identity);
    n.(stream := Stream(false, name, name), peer := peer)
  }

  lemma {:induction false} FirstHeartbeat(c: Cluster, i: nat) returns (c': Cluster, peer: string)
    requires i < |c.servers| && c.servers[i].up && c.servers[i].stream == Stream(true, "", "") && c.servers[i].address != ""
    requires c.servers[i].identity == PRIMARY || Registered(TablesOf(c), PRIMARY_STR)
    ensures PossibleInCluster(c, Tick(i, true)) && c' == ClusterStep(c, Tick(i, true))
    ensures c'.servers == c.servers[i := Heard(c.servers[i], peer)] && Registered(TablesOf(c'), PRIMARY_STR)
  {
    c' := ClusterStep(c, Tick(i, true));
    peer := c'.servers[i].peer;
  }

  lemma {:induction false} AfterJoins() returns (c: Cluster)
    ensures var es := ThreeJoin()[..3]; PossibleClusterRun(EmptyCluster(), es) && c == ClusterRun(EmptyCluster(), es)
    ensures var silent := Stream(true, "", "");
            c.servers == [StorageServer(PRIMARY, "a", true, silent, ""), StorageServer(PRIMARY, "b", true, silent, ""),
                          StorageServer(BACKUP, "c", true, silent, "")]
  {
    var c0, a, b, d := EmptyCluster(), Join(PRIMARY, "a"), Join(PRIMARY, "b"), Join(BACKUP, "c");
    hide ClusterRun;
    NoEvents(c0);
    OneMoreEvent(c0, [], a);
    OneMoreEvent(c0, [a], b);
    OneMoreEvent(c0, [a, b], d);
    assert [] + [a] == [a] && [a] + [b] == [a, b] && [a, b] + [d] == ThreeJoin()[..3];
    c := ClusterStep(ClusterStep(ClusterStep(c0, a), b), d);
  }

  lemma {:induction false} NoEvents(c: Cluster)
    ensures PossibleClusterRun(c, []) && ClusterRun(c, []) == c
  {
  }

  lemma {:induction false} HeardNext(es: seq<ClusterEvent>, c: Cluster, i: nat) returns (c': Cluster, peer: string)
    requires PossibleClusterRun(EmptyCluster(), es) && c == ClusterRun(EmptyCluster(), es)
    requires i < |c.servers| && c.servers[i].up && c.servers[i].stream == Stream(true, "", "") && c.servers[i].address != ""
    requires c.servers[i].identity == PRIMARY || Registered(TablesOf(c), PRIMARY_STR)
    ensures var es' := es + [Tick(i, true)]; PossibleClusterRun(EmptyCluster(), es') && c' == ClusterRun(EmptyCluster(), es')
    ensures c'.servers == c.servers[i := Heard(c.servers[i], peer)] && Registered(TablesOf(c'), PRIMARY_STR)
  {
    hide ClusterRun, ClusterStep, PossibleClusterRun, PossibleInCluster, Registered;
    c', peer := FirstHeartbeat(c, i);
    OneMoreEvent(EmptyCluster(), es, Tick(i, true));
  }

  lemma {:induction false} AfterThreeJoin() returns (c: Cluster)
    ensures PossibleClusterRun(EmptyCluster(), ThreeJoin()) && c == ClusterRun(EmptyCluster(), ThreeJoin())
    ensures |c.servers| == 3 && forall i :: 0 <= i < 3 ==> c.servers[i].up
    ensures c.servers[0].identity == PRIMARY && c.servers[1].identity == PRIMARY && c.servers[2].identity == BACKUP
    ensures c.servers[0].stream == Stream(false, PRIMARY_STR, PRIMARY_STR) && c.servers[1].stream.identity == PRIMARY_STR
  {
    var es := ThreeJoin()[..3];
    ThreeTicks(es);
    hide ClusterRun, PossibleClusterRun, Registered, EmptyCluster, ThreeJoin;
    var joined := AfterJoins();
    var c1, p1 := HeardNext(es, joined, 0);
    var c2, p2 := HeardNext(es + [Tick(0, true)], c1, 1);
    var c3, p3 := HeardNext(es + [Tick(0, true)] + [Tick(1, true)], c2, 2);
    c := c3;
  }

  lemma {:induction false} ThreeTicks(es: seq<ClusterEvent>)
    requires es == ThreeJoin()[..3]
    ensures es + [Tick(0, true)] + [Tick(1, true)] + [Tick(2, true)] == ThreeJoin()
  {
  }

  /** The failing run, from the start: two servers end up serving as primary at once. */
  lemma {:induction false} TwoPrimariesReached()
    ensures var es := ThreeJoin() + [Break(1), Tick(0, true), Tick(2, true)];
            var d := ClusterRun(EmptyCluster(), es);
            && PossibleClusterRun(EmptyCluster(), es) && |d.servers| == 3
            && d.servers[0].up && d.servers[0].identity == PRIMARY && d.servers[2].up && d.servers[2].identity == PRIMARY
  {
    var c0, es := EmptyCluster(), ThreeJoin();
    var c := AfterThreeJoin();
    hide ClusterStep, ThreeJoin;
    TwoPrimaries(c, 0, 1, 2);
    OneMoreEvent(c0, es, Break(1));
    OneMoreEvent(c0, es + [Break(1)], Tick(0, true));
    OneMoreEvent(c0, es + [Break(1)] + [Tick(0, true)], Tick(2, true));
    assert es + [Break(1)] + [Tick(0, true)] + [Tick(2, true)] == es + [Break(1), Tick(0, true), Tick(2, true)];
    ThreeEvents(c, Break(1), Tick(0, true), Tick(2, true));
  }

  lemma {:induction false} ThreeEvents(c: Cluster, e: ClusterEvent, f: ClusterEvent, g: ClusterEvent)
    ensures ClusterRun(c, [e, f, g]) == ClusterStep(ClusterStep(ClusterStep(c, e), f), g)
  {
    hide ClusterStep;
    assert [e, f, g][..2] == [e, f] && [e, f][..1] == [e] && [e][..0] == [];
    assert ClusterRun(c, [e]) == ClusterStep(c, e);
    assert ClusterRun(c, [e, f]) == ClusterStep(ClusterStep(c, e), f);
  }

  /** After a failover the promoted server is registered as primary, and its old entry as backup stays: both
      names lead to it. */
  lemma {:induction false} PromotedIsBoth(c: Cluster, b: nat)
    requires ClientsMatch(c) && b < |c.servers|
    requires c.servers[b].up && c.servers[b].identity == PRIMARY && c.servers[b].stream == Stream(false, BACKUP_STR, BACKUP_STR)
    requires AddressOf(c.nodes, BACKUP_STR) == c.servers[b].address
    ensures var d := ClusterStep(c, Tick(b, true));
            AddressOf(d.nodes, PRIMARY_STR) == c.servers[b].address && AddressOf(d.nodes, BACKUP_STR) == c.servers[b].address
  {
  }

  // ----- Which address a heartbeat is answered with -----

  /** A delivered heartbeat that announces an identity anew. */
  predicate Announces(c: Cluster, e: ClusterEvent, who: Identity) {
    match e
    case Tick(i, delivered) =>
      i < |c.servers| && c.servers[i].up && delivered && c.servers[i].identity == who
      && c.servers[i].stream.prevIdentity != (if who == PRIMARY then "PRIMARY" else "BACKUP")
    case _ => false
  }

  /** The event ends a stream that stands for the identity. */
  predicate EndsStream(c: Cluster, e: ClusterEvent, who: Identity) {
    match e
    case Break(i) =>
      i < |c.servers| && c.servers[i].up && c.servers[i].stream.identity == (if who == PRIMARY then "PRIMARY" else "BACKUP")
    case Tick(i, delivered) => i < |c.servers| && c.servers[i].up && !delivered && c.servers[i].identity == who
    case _ => false
  }

  /** The address of the last server to announce the identity, unless a stream that stood for it has ended since. */
  function LastAnnounced(es: seq<ClusterEvent>, who: Identity): string {
    if es == [] then ""
    else
      var c, e := ClusterRun(EmptyCluster(), es[..|es| - 1]), es[|es| - 1];
      if Announces(c, e, who) then c.servers[e.server].address
      else if EndsStream(c, e, who) then ""
      else LastAnnounced(es[..|es| - 1], who)
  }

  lemma {:induction false} AddressAfterTick(c: Cluster, i: nat, delivered: bool, who: Identity)
    requires i < |c.servers|
    ensures var name := if who == PRIMARY then "PRIMARY" else "BACKUP";
            AddressOf(AfterTick(c, i, delivered).nodes, name)
            == if Announces(c, Tick(i, delivered), who) then c.servers[i].address
               else if EndsStream(c, Tick(i, delivered), who) then "" else AddressOf(c.nodes, name)
  {
    var own := IdentityName(c.servers[i].identity);
    assert own == PRIMARY_STR || own == BACKUP_STR;
    hide Promoted, StreamAfterMessage;
  }

  lemma {:induction false} AddressAfterStep(c: Cluster, e: ClusterEvent, who: Identity)
    ensures var name := if who == PRIMARY then "PRIMARY" else "BACKUP";
            AddressOf(ClusterStep(c, e).nodes, name)
            == if Announces(c, e, who) then c.servers[e.server].address
               else if EndsStream(c, e, who) then "" else AddressOf(c.nodes, name)
  {
    match e
    case Tick(i, delivered) =>
      hide AfterTick;
      if i < |c.servers| {
        AddressAfterTick(c, i, delivered, who);
      }
    case _ => hide AfterTick;
  }

  /** Over every run from the start: which address is registered for either identity. */
  lemma {:induction false} AddressesExactly(es: seq<ClusterEvent>, who: Identity)
    ensures AddressOf(ClusterRun(EmptyCluster(), es).nodes, if who == PRIMARY then "PRIMARY" else "BACKUP") == LastAnnounced(es, who)
  {
    hide ClusterStep, Announces, EndsStream;
    if es != [] {
      AddressesExactly(es[..|es| - 1], who);
      AddressAfterStep(ClusterRun(EmptyCluster(), es[..|es| - 1]), es[|es| - 1], who);
    }
  }

  lemma {:induction false} AnsweredWithPeer(c: Cluster, i: nat)
    requires i < |c.servers| && c.servers[i].up
    ensures var d := ClusterStep(c, Tick(i, true));
            i < |d.servers|
            && d.servers[i].peer == AddressOf(c.nodes, if c.servers[i].identity == PRIMARY then "BACKUP" else "PRIMARY")
  {
  }

  /** One round of a server's loop: it learns the other identity's address if the reply arrives, and takes itself for
      the primary from then on if the last reply that did arrive named nobody. */
  lemma {:induction false} TickDecides(c: Cluster, i: nat, delivered: bool)
    requires i < |c.servers|
    ensures var n, servers := c.servers[i], ClusterStep(c, Tick(i, delivered)).servers;
            && |servers| == |c.servers| && (forall j :: 0 <= j < |servers| && j != i ==> servers[j] == c.servers[j])
            && servers[i].peer == (if n.up && delivered
                                   then AddressOf(c.nodes, if n.identity == PRIMARY then "BACKUP" else "PRIMARY") else n.peer)
            && (servers[i].identity == PRIMARY <==> n.identity == PRIMARY || servers[i].peer == "")
            && servers[i].up == (n.up && delivered) && servers[i].address == n.address
  {
  }

  /** After every run the reply to a delivered heartbeat of the primary names the last backup to announce itself, and
      that to a backup's the last primary, if no stream that stood for it has ended since; else it names no peer. */
  lemma {:induction false} HeartbeatsAnsweredExactly(es: seq<ClusterEvent>, i: nat)
    requires var c := ClusterRun(EmptyCluster(), es); i < |c.servers| && c.servers[i].up
    ensures var c, d := ClusterRun(EmptyCluster(), es), ClusterStep(ClusterRun(EmptyCluster(), es), Tick(i, true));
            && i < |d.servers|
            && (c.servers[i].identity == PRIMARY ==> d.servers[i].peer == LastAnnounced(es, BACKUP))
            && (c.servers[i].identity == BACKUP ==> d.servers[i].peer == LastAnnounced(es, PRIMARY))
  {
    AddressesExactly(es, PRIMARY);
    AddressesExactly(es, BACKUP);
    hide ClusterRun, ClusterStep, LastAnnounced;
    AnsweredWithPeer(ClusterRun(EmptyCluster(), es), i);
  }

  // ----- Which server a read goes to -----

  function ReadsServed(es: seq<ClusterEvent>): nat {
    if es == [] then 0 else ReadsServed(es[..|es| - 1]) + if es[|es| - 1].ServeRead? then 1 else 0
  }

  lemma {:induction false} TurnAfter(es: seq<ClusterEvent>)
    ensures ClusterRun(EmptyCluster(), es).idx == ReadsServed(es) % 2
  {
    if es != [] {
      TurnAfter(es[..|es| - 1]);
      hide AfterTick, AfterBreak, ClusterRun;
      TurnStep(ClusterRun(EmptyCluster(), es[..|es| - 1]), es[|es| - 1]);
    }
  }

  lemma {:induction false} TurnStep(c: Cluster, e: ClusterEvent)
    ensures ClusterStep(c, e).idx == if e.ServeRead? then 1 - c.idx else c.idx
  {
  }

  /** The reads of a run are served in turn, the first by the backup and the second by the primary, as long as both are
      registered, and by the one that is registered otherwise. */
  lemma {:induction false} ReadsTakeTurns(es: seq<ClusterEvent>)
    ensures var c, n := ClusterRun(EmptyCluster(), es), ReadsServed(es) + 1;
            var key := Route(TablesOf(c), ClusterStep(c, ServeRead).idx);
            && (LastAnnounced(es, PRIMARY) != "" && LastAnnounced(es, BACKUP) != "" ==>
                  key == if n % 2 == 1 then "BACKUP" else "PRIMARY")
            && (LastAnnounced(es, PRIMARY) != "" && LastAnnounced(es, BACKUP) == "" ==> key == "PRIMARY")
            && (LastAnnounced(es, PRIMARY) == "" && LastAnnounced(es, BACKUP) != "" ==> key == "BACKUP")
  {
    AddressesExactly(es, PRIMARY);
    AddressesExactly(es, BACKUP);
    TurnAfter(es);
    TurnStep(ClusterRun(EmptyCluster(), es), ServeRead);
    hide ClusterRun, ClusterStep, LastAnnounced, ReadsServed;
  }
}
