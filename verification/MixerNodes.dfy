// One side of the mixer's link graph: what a connection or a conference keeps about
// its peers, and what attaching, modifying and detaching a peer does to it.
module MixerNodes {

  // A ControlPackageConnection; the package keeps one node per connection, so the same
  // handle also names the node.
  type Conn = int

  datatype Direction = SendRecv | SendOnly | RecvOnly | Inactive {
    predicate Sends() { this == SendRecv || this == SendOnly }
    predicate Receives() { this == SendRecv || this == RecvOnly }
  }

  // The direction of the same link as the other side sees it.
  function Reverse(d: Direction): Direction {
    match d
    case SendRecv => SendRecv
    case Inactive => Inactive
    case SendOnly => RecvOnly
    case RecvOnly => SendOnly
  }

  // Volume requests; every other value is a percentage.
  const VOLUME_NONE := -4
  const VOLUME_KEEP := -3
  const VOLUME_MUTE := -2
  const VOLUME_UNMUTE := -1

  const SAMPLES := 160

  type Short = x: int | -32768 <= x <= 32767
  type Samples = s: seq<Short> | |s| == SAMPLES witness seq(SAMPLES, i => 0)

  datatype Buffer = NullBuffer | Pcm(cells: Samples)

  datatype Frame = Frame(id: nat, buffer: Buffer)

  datatype Kind = Connection | Conference

  datatype NodeState = NodeState(
    kind: Kind,
    audio: bool,                     // media type is audio; never so for a conference
    requester: nat,
    id: string,
    links: map<Conn, Direction>,
    volumes: map<Conn, int>,
    mutes: map<Conn, bool>,
    sending: int,                    // connections only
    receiving: int,                  // connections only
    registered: bool,                // the package is on the connection's package list
    queued: map<Conn, seq<Frame>>)   // conferences only: frames waiting to be mixed

  function NewConnection(audio: bool, requester: nat, id: string): NodeState {
    NodeState(Connection, audio, requester, id, map[], map[], map[], 0, 0, false, map[])
  }

  function NewConference(requester: nat, id: string): NodeState {
    NodeState(Conference, false, requester, id, map[], map[], map[], 0, 0, true, map[])
  }

  // Volume and mute entries that a successful attach leaves.
  function WithVolume(n: NodeState, peer: Conn, volume: int): NodeState {
    if volume == VOLUME_MUTE || volume == VOLUME_UNMUTE then
      n.(volumes := n.volumes[peer := 100], mutes := n.mutes[peer := volume == VOLUME_MUTE])
    else
      n.(volumes := n.volumes[peer := if volume >= 0 then volume else 100], mutes := n.mutes[peer := false])
  }

  // The same for modify, which keeps an old percentage; a conference resets it on (un)mute.
  function WithNewVolume(n: NodeState, peer: Conn, volume: int): NodeState {
    if volume == VOLUME_MUTE || volume == VOLUME_UNMUTE then
      n.(volumes := if n.kind.Conference? then n.volumes[peer := 100] else n.volumes,
         mutes := n.mutes[peer := volume == VOLUME_MUTE])
    else
      n.(volumes := if volume >= 0 then n.volumes[peer := volume] else n.volumes, mutes := n.mutes[peer := false])
  }

  // One more link sends: the connection asks for its own frames.
  function StartSending(n: NodeState): NodeState {
    n.(sending := n.sending + 1, registered := true)
  }

  // One link less sends: with the last one the package is taken off the connection.
  function StopSending(n: NodeState): NodeState {
    n.(sending := n.sending - 1, registered := n.registered && n.sending != 1)
  }

  function Attach(n: NodeState, peer: Conn, peerAudio: bool, d: Direction, volume: int): (NodeState, int) {
    if n.kind.Connection? then
      if peer in n.links then (n, -2)
      else if n.receiving > 0 && d.Receives() then (n, -3)
      else
        var m := WithVolume(n.(links := n.links[peer := d]), peer, volume);
        (if d.Sends() then StartSending(m) else m, 0)
    else if !peerAudio then (n, -1)
    else if peer in n.links then (n, -2)
    else (WithVolume(n.(links := n.links[peer := d]), peer, volume), 0)
  }

  function Modify(n: NodeState, peer: Conn, peerAudio: bool, d: Direction, volume: int): (NodeState, int) {
    if n.kind.Connection? then
      if peer !in n.links then (n, -2)
      else if n.receiving > 0 && d.Receives() && !n.links[peer].Receives() then (n, -3)
      else
        var m := if n.sending > 0 && n.links[peer].Sends() && !d.Sends() then StopSending(n) else n;
        var v := WithNewVolume(m, peer, volume);
        ((if d.Sends() then StartSending(v) else v).(links := n.links[peer := d]), 0)
    else if !peerAudio then (n, 0)
    else if peer !in n.links then (n, -2)
    else (WithNewVolume(n.(links := n.links[peer := d]), peer, volume), 0)
  }

  function Detach(n: NodeState, peer: Conn, peerAudio: bool): (NodeState, int) {
    if n.kind.Connection? then
      if peer !in n.links then (n, -2)
      else
        var r := if n.receiving > 0 && n.links[peer].Receives() then n.(receiving := n.receiving - 1) else n;
        var s := if n.sending > 0 && n.links[peer].Sends() then StopSending(r) else r;
        (s.(links := n.links - {peer}), 0)
    else if !peerAudio then (n, 0)
    else if peer !in n.links then (n, -2)
    else (n.(links := n.links - {peer}, queued := n.queued - {peer}), 0)
  }

  // ---- what every run of operations keeps on one node ----

  ghost function Senders(links: map<Conn, Direction>): set<Conn> {
    set p | p in links && links[p].Sends()
  }

  datatype NodeOp =
    | AttachOp(peer: Conn, peerAudio: bool, d: Direction, volume: int)
    | ModifyOp(peer: Conn, peerAudio: bool, d: Direction, volume: int)
    | DetachOp(peer: Conn, peerAudio: bool)

  function Apply(n: NodeState, op: NodeOp): NodeState {
    match op
    case AttachOp(p, a, d, v) => Attach(n, p, a, d, v).0
    case ModifyOp(p, a, d, v) => Modify(n, p, a, d, v).0
    case DetachOp(p, a) => Detach(n, p, a).0
  }

  function Run(n: NodeState, ops: seq<NodeOp>): NodeState
    decreases |ops|
  {
    if ops == [] then n else Apply(Run(n, ops[..|ops| - 1]), ops[|ops| - 1])
  }

  // A modify that keeps sending on a link that already sends is counted again.
  predicate Recounts(n: NodeState, op: NodeOp) {
    op.ModifyOp? && op.peer in n.links && n.links[op.peer].Sends() && op.d.Sends()
  }

  function Recounted(n: NodeState, ops: seq<NodeOp>): nat
    decreases |ops|
  {
    if ops == [] then 0 else
      Recounted(n, ops[..|ops| - 1]) + (if Recounts(Run(n, ops[..|ops| - 1]), ops[|ops| - 1]) then 1 else 0)
  }

  // What the counters of a connection mean, with extra the number of recounted links.
  ghost predicate Counted(n: NodeState, extra: int) {
    && n.kind.Connection?
    && n.receiving == 0
    && n.sending == |Senders(n.links)| + extra
    && (n.registered <==> n.sending > 0)
    && n.links.Keys <= n.volumes.Keys && n.links.Keys <= n.mutes.Keys
  }

  lemma SendersUpdate(links: map<Conn, Direction>, p: Conn, d: Direction)
    ensures Senders(links[p := d]) == if d.Sends() then Senders(links) + {p} else Senders(links) - {p}
  {
  }

  lemma SendersRemove(links: map<Conn, Direction>, p: Conn)
    ensures Senders(links - {p}) == Senders(links) - {p}
  {
  }

  lemma SenderCounted(links: map<Conn, Direction>, p: Conn)
    requires p in links && links[p].Sends()
    ensures |Senders(links)| >= 1
  {
    assert p in Senders(links);
    assert {p} <= Senders(links);
    CardinalityMonotone({p}, Senders(links));
  }

  lemma CardinalityMonotone<T>(a: set<T>, b: set<T>)
    requires a <= b
    ensures |a| <= |b|
  {
    assert b == a + (b - a);
  }

  lemma SenderAdded(links: map<Conn, Direction>, p: Conn, d: Direction)
    requires p !in links
    ensures |Senders(links[p := d])| == |Senders(links)| + if d.Sends() then 1 else 0
  {
    SendersUpdate(links, p, d);
    if !d.Sends() { assert Senders(links) - {p} == Senders(links); }
  }

  lemma GainsVolume(n: NodeState, p: Conn, volume: int)
    ensures WithVolume(n, p, volume).volumes.Keys == n.volumes.Keys + {p}
    ensures WithVolume(n, p, volume).mutes.Keys == n.mutes.Keys + {p}
    ensures WithVolume(n, p, volume) == n.(volumes := WithVolume(n, p, volume).volumes,
                                           mutes := WithVolume(n, p, volume).mutes)
  {
  }

  lemma AttachCounted(n: NodeState, p: Conn, peerAudio: bool, d: Direction, volume: int, extra: nat)
    requires Counted(n, extra)
    ensures Counted(Attach(n, p, peerAudio, d, volume).0, extra)
  {
    if p !in n.links {
      SenderAdded(n.links, p, d);
      GainsVolume(n.(links := n.links[p := d]), p, volume);
    }
  }

  lemma ModifyCounted(n: NodeState, p: Conn, peerAudio: bool, d: Direction, volume: int, extra: nat)
    requires Counted(n, extra)
    ensures Counted(Modify(n, p, peerAudio, d, volume).0,
                    extra + if Recounts(n, ModifyOp(p, peerAudio, d, volume)) then 1 else 0)
  {
    if p in n.links {
      SenderCount(n.links, p, d);
      if n.links[p].Sends() {
        SenderCounted(n.links, p);
        assert n.sending > 0;
      }
      KeepsVolumes(if n.links[p].Sends() && !d.Sends() then StopSending(n) else n, p, volume);
    }
  }

  lemma SenderCount(links: map<Conn, Direction>, p: Conn, d: Direction)
    requires p in links
    ensures |Senders(links[p := d])| ==
            |Senders(links)| - (if links[p].Sends() then 1 else 0) + (if d.Sends() then 1 else 0)
  {
    SendersUpdate(links, p, d);
    if links[p].Sends() && d.Sends() { assert Senders(links) + {p} == Senders(links); }
    if !links[p].Sends() && !d.Sends() { assert Senders(links) - {p} == Senders(links); }
  }

  lemma KeepsVolumes(n: NodeState, p: Conn, volume: int)
    requires p in n.volumes && p in n.mutes
    ensures WithNewVolume(n, p, volume).volumes.Keys == n.volumes.Keys
    ensures WithNewVolume(n, p, volume).mutes.Keys == n.mutes.Keys
    ensures WithNewVolume(n, p, volume) == n.(volumes := WithNewVolume(n, p, volume).volumes,
                                              mutes := WithNewVolume(n, p, volume).mutes)
  {
  }

  lemma DetachCounted(n: NodeState, p: Conn, peerAudio: bool, extra: nat)
    requires Counted(n, extra)
    ensures Counted(Detach(n, p, peerAudio).0, extra)
  {
    SendersRemove(n.links, p);
    if p in n.links && n.links[p].Sends() { SenderCounted(n.links, p); }
  }

  // One operation: the counter follows the sending links, plus one for each recount.
  lemma StepCounted(n: NodeState, op: NodeOp, extra: nat)
    requires Counted(n, extra)
    ensures Counted(Apply(n, op), extra + if Recounts(n, op) then 1 else 0)
  {
    match op
    case AttachOp(p, a, d, v) => AttachCounted(n, p, a, d, v, extra);
    case ModifyOp(p, a, d, v) => ModifyCounted(n, p, a, d, v, extra);
    case DetachOp(p, a) => DetachCounted(n, p, a, extra);
  }

  // Over any run of operations on a fresh connection: nothing is ever counted as received,
  // the sending counter is the number of sending links plus the number of recounts, and the
  // package is registered exactly while that counter is positive.
  lemma {:induction false} RunCounted(audio: bool, requester: nat, id: string, ops: seq<NodeOp>)
    ensures var n := NewConnection(audio, requester, id);
            Counted(Run(n, ops), Recounted(n, ops))
    decreases |ops|
  {
    var n := NewConnection(audio, requester, id);
    if ops == [] {
      assert Senders(n.links) == {};
    } else {
      var before := ops[..|ops| - 1];
      RunCounted(audio, requester, id, before);
      StepCounted(Run(n, before), ops[|ops| - 1], Recounted(n, before));
    }
  }

  // The registration follows the links exactly when some link sends or some modify was recounted.
  lemma RunRegistered(audio: bool, requester: nat, id: string, ops: seq<NodeOp>)
    ensures var n := NewConnection(audio, requester, id);
            Run(n, ops).registered <==> Senders(Run(n, ops).links) != {} || Recounted(n, ops) > 0
  {
    RunCounted(audio, requester, id, ops);
  }

  lemma RunMore(n: NodeState, ops: seq<NodeOp>, op: NodeOp)
    ensures Run(n, ops + [op]) == Apply(Run(n, ops), op)
  {
    assert (ops + [op])[..|ops|] == ops;
  }

  // A connection changes the volume of a link on which it sends, then leaves it, and stays registered.
  lemma StaysRegistered()
    ensures var n := Run(NewConnection(true, 0, "a"),
                         [AttachOp(1, true, SendRecv, 100)] + [ModifyOp(1, true, SendRecv, 50)] + [DetachOp(1, true)]);
            n.links == map[] && n.registered
  {
    var n := NewConnection(true, 0, "a");
    var attach, change := AttachOp(1, true, SendRecv, 100), ModifyOp(1, true, SendRecv, 50);
    assert [] + [attach] == [attach];
    RunMore(n, [], attach);
    RunMore(n, [attach], change);
    RunMore(n, [attach] + [change], DetachOp(1, true));
    RecountStays(n);
  }

  lemma RecountStays(n: NodeState)
    requires n == NewConnection(true, 0, "a")
    ensures var joined := Attach(n, 1, true, SendRecv, 100).0;
            var left := Detach(Modify(joined, 1, true, SendRecv, 50).0, 1, true).0;
            left.links == map[] && left.registered
  {
    var joined := Attach(n, 1, true, SendRecv, 100).0;
    assert joined.links == map[1 := SendRecv] && joined.sending == 1 && joined.receiving == 0 && joined.registered;
    var louder := Modify(joined, 1, true, SendRecv, 50).0;
    assert louder.links == map[1 := SendRecv] && louder.sending == 2 && louder.receiving == 0 && louder.registered;
  }

  // No operation can fail with -3 on a connection whose counters are sound.
  lemma NeverAlreadyReceiving(n: NodeState, extra: int, peer: Conn, peerAudio: bool, d: Direction, volume: int)
    requires Counted(n, extra)
    ensures Attach(n, peer, peerAudio, d, volume).1 == (if peer in n.links then -2 else 0)
    ensures Modify(n, peer, peerAudio, d, volume).1 == (if peer in n.links then 0 else -2)
    ensures Detach(n, peer, peerAudio).1 == (if peer in n.links then 0 else -2)
  {
  }

  lemma ReverseInvolution(d: Direction)
    ensures Reverse(Reverse(d)) == d
    ensures Reverse(d).Sends() == d.Receives() && Reverse(d).Receives() == d.Sends()
  {
  }
}
