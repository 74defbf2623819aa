// The mixer's objects: nodes whose maps and counters the requests update in place, and the
// package that owns them. Each method is tied to the functions of the modules before.
module MixerObjects {
  import opened MixerNodes
  import opened MixerLinks
  import opened MixerTick

  // The next peer of a map's iteration, which follows the peers' addresses and so may be any.
  method Pick<P(==)>(todo: set<P>) returns (p: P)
    requires todo != {}
    ensures p in todo
  {
    p :| p in todo;
  }

  // MixerConnection and MixerConference; a virtual call branches on the kind.
  class MixerNode {
    const conn: Conn
    const kind: Kind
    const audio: bool
    const requester: nat
    const id: string
    var links: map<Conn, Direction>
    var volumes: map<Conn, int>
    var mutes: map<Conn, bool>
    var sending: int
    var receiving: int
    var registered: bool
    var queued: map<Conn, seq<Frame>>
    var bots: Bots
    const buffer: array<int>   // the running sum of the mixing loop

    function State(): NodeState
      reads this
    {
      NodeState(kind, audio, requester, id, links, volumes, mutes, sending, receiving, registered, queued)
    }

    constructor AsConnection(conn: Conn, audio: bool, requester: nat, id: string)
      ensures this.conn == conn && State() == NewConnection(audio, requester, id)
      ensures bots == map[] && buffer.Length == SAMPLES && fresh(buffer)
    {
      this.conn, this.kind, this.audio, this.requester, this.id := conn, Connection, audio, requester, id;
      links, volumes, mutes, queued, bots := map[], map[], map[], map[], map[];
      sending, receiving, registered := 0, 0, false;
      buffer := new int[SAMPLES];
    }

    constructor AsConference(conn: Conn, requester: nat, id: string)
      ensures this.conn == conn && State() == NewConference(requester, id)
      ensures bots == map[] && buffer.Length == SAMPLES && fresh(buffer)
    {
      this.conn, this.kind, this.audio, this.requester, this.id := conn, Conference, false, requester, id;
      links, volumes, mutes, queued, bots := map[], map[], map[], map[], map[];
      sending, receiving, registered := 0, 0, true;
      buffer := new int[SAMPLES](_ => 0);
    }

    method Attach(peer: MixerNode, d: Direction, volume: int) returns (err: int)
      modifies this`links, this`volumes, this`mutes, this`sending, this`registered
      ensures (State(), err) == MixerNodes.Attach(old(State()), peer.conn, peer.audio, d, volume)
    {
      if kind == Conference && !peer.audio {
        return -1;
      }
      if peer.conn in links {
        return -2;
      }
      if kind == Connection && receiving > 0 && d.Receives() {
        return -3;
      }
      links := links[peer.conn := d];
      if volume == VOLUME_MUTE || volume == VOLUME_UNMUTE {
        volumes := volumes[peer.conn := 100];
        mutes := mutes[peer.conn := volume == VOLUME_MUTE];
      } else {
        volumes := volumes[peer.conn := if volume >= 0 then volume else 100];
        mutes := mutes[peer.conn := false];
      }
      if kind == Connection && d.Sends() {
        sending := sending + 1;
        registered := true;
      }
      return 0;
    }

    // One link less sends.
    method StopOne()
      modifies this`sending, this`registered
      ensures State() == StopSending(old(State()))
    {
      sending := sending - 1;
      if sending == 0 {
        registered := false;
      }
    }

    // The volume part of a modify
    method ChangeVolume(peer: Conn, volume: int)
      modifies this`volumes, this`mutes
      ensures State() == WithNewVolume(old(State()), peer, volume)
    {
      if volume == VOLUME_MUTE || volume == VOLUME_UNMUTE {
        if kind == Conference {
          volumes := volumes[peer := 100];
        }
        mutes := mutes[peer := volume == VOLUME_MUTE];
      } else {
        if volume >= 0 {
          volumes := volumes[peer := volume];
        }
        mutes := mutes[peer := false];
      }
    }

    method Modify(peer: MixerNode, d: Direction, volume: int) returns (err: int)
      modifies this`links, this`volumes, this`mutes, this`sending, this`registered
      ensures (State(), err) == MixerNodes.Modify(old(State()), peer.conn, peer.audio, d, volume)
    {
      if kind == Conference && !peer.audio {
        return 0;
      }
      if peer.conn !in links {
        return -2;
      }
      if kind == Connection {
        if receiving > 0 && d.Receives() && !links[peer.conn].Receives() {
          return -3;
        }
        if sending > 0 && links[peer.conn].Sends() && !d.Sends() {
          StopOne();
        }
      }
      ChangeVolume(peer.conn, volume);
      if kind == Connection && d.Sends() {
        sending := sending + 1;
        registered := true;
      }
      links := links[peer.conn := d];
      return 0;
    }

    method Detach(peer: MixerNode) returns (err: int)
      modifies this`links, this`sending, this`receiving, this`registered, this`queued
      ensures (State(), err) == MixerNodes.Detach(old(State()), peer.conn, peer.audio)
    {
      if kind == Conference && !peer.audio {
        return 0;
      }
      if peer.conn !in links {
        return -2;
      }
      if kind == Connection {
        if receiving > 0 && links[peer.conn].Receives() {
          receiving := receiving - 1;
        }
        if sending > 0 && links[peer.conn].Sends() {
          StopOne();
        }
      } else {
        queued := queued - {peer.conn};
      }
      links := links - {peer.conn};
      return 0;
    }

    // A conference decodes the frame, if it can, and queues it for the next rounds.
    method FeedFrame(sender: Conn, frame: Frame)
      requires kind == Conference
      modifies this`queued
      ensures State() == Fed(old(State()), sender, frame)
    {
      queued := queued[sender := (if sender in queued then queued[sender] else []) + [frame]];
    }

    // Announcement frames queue by transaction; the unlocking frame ends the transaction's queue.
    method IncomingFrame(transaction: string, frame: Frame, unlocking: bool)
      modifies this`bots
      ensures bots ==
              if transaction == "" then old(bots)
              else if unlocking then old(bots) - {transaction}
              else old(bots)[transaction := (if transaction in old(bots) then old(bots)[transaction] else []) + [frame]]
    {
      if transaction == "" {
        return;
      }
      if unlocking {
        bots := bots - {transaction};
      } else {
        bots := bots[transaction := (if transaction in bots then bots[transaction] else []) + [frame]];
      }
    }

    method Accumulate(frame: Frame, attenuate: bool)
      requires buffer.Length == SAMPLES
      modifies buffer
      ensures forall i | 0 <= i < SAMPLES :: buffer[i] == old(buffer[i]) + Attenuated(Sample(frame, i), attenuate)
    {
      if frame.buffer.NullBuffer? {
        return;
      }
      for i := 0 to SAMPLES
        invariant forall k | 0 <= k < i :: buffer[k] == old(buffer[k]) + Attenuated(Sample(frame, k), attenuate)
        invariant forall k | i <= k < SAMPLES :: buffer[k] == old(buffer[k])
      {
        var cell := frame.buffer.cells[i];
        buffer[i] := buffer[i] + if attenuate then CDiv(cell, 3) else cell;
      }
    }

    method Clear(longBytes: nat)
      requires longBytes == 4 || longBytes == 8
      requires buffer.Length == SAMPLES
      modifies buffer
      ensures forall i | 0 <= i < SAMPLES :: buffer[i] == CarryAt(longBytes, old(buffer[..]), i)
    {
      for i := 0 to 640 / longBytes
        invariant forall k | 0 <= k < i :: buffer[k] == 0
        invariant forall k | i <= k < SAMPLES :: buffer[k] == old(buffer[k])
      {
        buffer[i] := 0;
      }
    }

    method AddAnnouncements()
      requires buffer.Length == SAMPLES
      modifies this`bots, buffer
      ensures forall i | 0 <= i < SAMPLES :: buffer[i] == old(buffer[i]) + Announced(old(bots), i)
      ensures bots == map t | t in old(bots) :: if old(bots)[t] != [] then old(bots)[t][1..] else []
    {
      var todo := bots.Keys;
      ghost var done: set<string> := {};
      while todo != {}
        invariant todo <= bots.Keys == old(bots).Keys
        invariant done == Talking(old(bots)) - todo
        invariant forall t | t in todo :: bots[t] == old(bots)[t]
        invariant forall t | t in bots && t !in todo :: bots[t] == if old(bots)[t] != [] then old(bots)[t][1..] else []
        invariant forall i | 0 <= i < SAMPLES :: buffer[i] == old(buffer[i]) + Sum(done, BotParts(old(bots), i))
        decreases todo
      {
        var t :| t in todo;
        if bots[t] != [] {
          ghost var was := done;
          Accumulate(bots[t][0], false);
          bots := bots[t := bots[t][1..]];
          done := done + {t};
          forall i | 0 <= i < SAMPLES
            ensures Sum(done, BotParts(old(bots), i)) == Sum(was, BotParts(old(bots), i)) + Sample(old(bots)[t][0], i)
          {
            SumTake(done, BotParts(old(bots), i), t);
            assert done - {t} == was;
          }
        }
        todo := todo - {t};
      }
      assert done == Talking(old(bots));
    }

    method AddParticipants(playing: bool)
      requires buffer.Length == SAMPLES
      modifies buffer
      ensures forall i | 0 <= i < SAMPLES ::
                buffer[i] == old(buffer[i]) + MixedBy(State(), Contributors(State()), playing, i)
    {
      var todo := links.Keys;
      ghost var done: set<Conn> := {};
      while todo != {}
        invariant todo <= links.Keys
        invariant done == Contributors(State()) - todo
        invariant forall i | 0 <= i < SAMPLES :: buffer[i] == old(buffer[i]) + MixedBy(State(), done, playing, i)
        decreases todo
      {
        var p := Pick(todo);
        if links[p].Receives() && p in queued && queued[p] != [] {
          ghost var was := done;
          Accumulate(queued[p][0], playing);
          done := done + {p};
          forall i | 0 <= i < SAMPLES
            ensures MixedBy(State(), done, playing, i)
                 == MixedBy(State(), was, playing, i) + Attenuated(Sample(Queue(State(), p)[0], i), playing)
          {
            SumTake(done, Parts(State(), playing, i), p);
            assert done - {p} == was;
          }
        }
        todo := todo - {p};
      }
      assert done == Contributors(State());
    }

    // The frame for one listener, from the full sum: take out its own part, scale, clip.
    method MixFor(p: Conn, playing: bool) returns (out: Samples)
      requires buffer.Length == SAMPLES && p in links && p in volumes
      ensures forall i | 0 <= i < SAMPLES ::
                out[i] == Clip16(CDiv((buffer[i] - Own(State(), playing, p, i)) * volumes[p], 100))
    {
      var volume := volumes[p];
      var own := NullBuffer;
      if p in queued && queued[p] != [] && links[p].Receives() {
        own := queued[p][0].buffer;
      }
      var cells: seq<Short> := [];
      for i := 0 to SAMPLES
        invariant |cells| == i
        invariant forall k | 0 <= k < i ::
          cells[k] == Clip16(Scaled(buffer[k] - (if own.Pcm? then Attenuated(own.cells[k], playing) else 0), volume))
      {
        var sum := buffer[i] - (if own.Pcm? then (if playing then CDiv(own.cells[i], 3) else own.cells[i]) else 0);
        if volume != 100 {
          sum := CDiv(sum * volume, 100);
        }
        if sum > 32767 {
          sum := 32767;
        } else if sum < -32768 {
          sum := -32768;
        }
        cells := cells + [sum];
      }
      out := cells;
    }

    method MixForAll(playing: bool) returns (out: map<Conn, Samples>)
      requires buffer.Length == SAMPLES && links.Keys <= volumes.Keys && links.Keys <= mutes.Keys
      ensures out.Keys == Listeners(State())
      ensures forall p, i | p in out && 0 <= i < SAMPLES ::
                out[p][i] == Clip16(CDiv((buffer[i] - Own(State(), playing, p, i)) * volumes[p], 100))
    {
      out := map[];
      var todo := links.Keys;
      while todo != {}
        invariant todo <= links.Keys
        invariant out.Keys == Listeners(State()) - todo
        invariant forall p, i | p in out && 0 <= i < SAMPLES ::
          out[p][i] == Clip16(CDiv((buffer[i] - Own(State(), playing, p, i)) * volumes[p], 100))
        decreases todo
      {
        var p := Pick(todo);
        if links[p].Sends() && !mutes[p] {
          var cells := MixFor(p, playing);
          out := out[p := cells];
        }
        todo := todo - {p};
      }
    }

    method PopFrames()
      modifies this`queued
      ensures State() == Popped(old(State()))
    {
      queued := map p | p in queued ::
                  if p in links && queued[p] != [] then queued[p][1..] else queued[p];
    }

    // Fills the sum buffer: what clearing leaves, the announcements, the participants.
    method Gather(longBytes: nat) returns (playing: bool)
      requires longBytes == 4 || longBytes == 8
      requires buffer.Length == SAMPLES
      modifies this`bots, buffer
      ensures State() == old(State()) && playing == (old(bots) != map[])
      ensures bots == map t | t in old(bots) :: if old(bots)[t] != [] then old(bots)[t][1..] else []
      ensures forall i | 0 <= i < SAMPLES ::
                buffer[i] == Total(old(State()), old(bots), CarryAt(longBytes, old(buffer[..]), i), i)
    {
      Clear(longBytes);
      playing := bots != map[];
      AddAnnouncements();
      if links == map[] {
        assert Contributors(State()) == {};
        return;
      }
      AddParticipants(playing);
    }

    // One round. The frames handed to the listeners are exactly what each of them should hear, on
    // top of what the clearing of the sum buffer has left; every peer's front frame is used up.
    method Round(longBytes: nat) returns (out: map<Conn, Samples>)
      requires longBytes == 4 || longBytes == 8
      requires buffer.Length == SAMPLES && links.Keys <= volumes.Keys && links.Keys <= mutes.Keys
      modifies this`bots, this`queued, buffer
      ensures State() == if links == map[] then old(State()) else Popped(old(State()))
      ensures bots == map t | t in old(bots) :: if old(bots)[t] != [] then old(bots)[t][1..] else []
      ensures out.Keys == Listeners(old(State()))
      ensures forall p, i | p in out && 0 <= i < SAMPLES ::
                out[p][i] == Heard(old(State()), old(bots), CarryAt(longBytes, old(buffer[..]), i), p, i)
      ensures forall i | 0 <= i < SAMPLES ::
                buffer[i] == Total(old(State()), old(bots), CarryAt(longBytes, old(buffer[..]), i), i)
    {
      var playing := Gather(longBytes);
      if links == map[] {
        return map[];
      }
      out := MixForAll(playing);
      forall p, i | p in out && 0 <= i < SAMPLES
        ensures out[p][i] == Heard(old(State()), old(bots), CarryAt(longBytes, old(buffer[..]), i), p, i)
      {
        HeardFromTotal(old(State()), old(bots), CarryAt(longBytes, old(buffer[..]), i), p, i);
      }
      PopFrames();
    }
  }

  class MixerPackage {
    var nodes: map<Conn, MixerNode>
    var joins: set<string>
    var notices: seq<Notice>   // the unjoin-notify events sent so far

    ghost predicate Valid()
      reads this
    {
      forall c | c in nodes :: nodes[c].conn == c
    }

    ghost function Graph(): map<Conn, NodeState>
      reads this, nodes.Values
    {
      map c | c in nodes :: nodes[c].State()
    }

    ghost function State(): Mixer
      reads this, nodes.Values
    {
      Mixer(Graph(), joins, notices)
    }

    twostate lemma OneChanged(n: MixerNode)
      requires old(Valid()) && nodes == old(nodes) && n.conn in nodes && nodes[n.conn] == n
      requires forall c | c in nodes && c != n.conn :: unchanged(nodes[c])
      ensures Graph() == old(Graph())[n.conn := n.State()]
    {
      var g := old(Graph())[n.conn := n.State()];
      forall c | c in nodes ensures Graph()[c] == g[c] {
        if c != n.conn { assert nodes[c].State() == old(nodes[c].State()); }
      }
      assert Graph().Keys == g.Keys;
    }

    constructor ()
      ensures Valid() && State() == EMPTY
    {
      nodes, joins, notices := map[], {}, [];
    }

    method NotifyUnjoin(requester: nat, id1: string, id2: string, reason: Reason)
      requires Valid()
      modifies this`joins, this`notices
      ensures Valid()
      ensures State() == MixerLinks.NotifyUnjoin(old(State()), requester, id1, id2, reason)
    {
      var k1, k2 := Key(id1, id2), Key(id2, id1);
      if k1 !in joins && k2 !in joins {
        return;
      }
      var found := if k1 in joins && (k2 !in joins || !Before(k2, k1)) then k1 else k2;
      joins := joins - {found};
      notices := notices + [Notice(requester, id1, id2, reason)];
    }

    method Record(r: Request)
      requires Valid() && r.Join?
      modifies this`joins
      ensures Valid() && State() == Recorded(old(State()), r)
    {
      joins := joins + {Key(r.end1.id, r.end2.id)};
    }

    method CreateConference(c: Conn, requester: nat, id: string) returns (code: int)
      requires Valid()
      modifies this`nodes
      ensures Valid() && fresh(nodes.Values - old(nodes.Values))
      ensures (State(), code) == Step(old(State()), Request.CreateConference(c, requester, id))
    {
      if c in nodes {
        return 405;
      }
      var n := new MixerNode.AsConference(c, requester, id);
      nodes := nodes[c := n];
      assert Graph() == old(Graph())[c := NewConference(requester, id)];
      return 200;
    }

    // The node of a connection, created on the first join
    method NodeFor(e: Endpoint, requester: nat) returns (n: MixerNode)
      requires Valid()
      modifies this`nodes
      ensures Valid() && fresh(nodes.Values - old(nodes.Values))
      ensures State() == old(State()).(graph := WithNode(old(Graph()), e, requester))
      ensures e.conn in nodes && n == nodes[e.conn]
      ensures forall c | c in old(nodes) :: c in nodes && nodes[c] == old(nodes)[c]
    {
      if e.conn !in nodes {
        n := new MixerNode.AsConnection(e.conn, e.audio, requester, e.id);
        nodes := nodes[e.conn := n];
      }
      n := nodes[e.conn];
    }

    method Join(r: Request) returns (code: int)
      requires Valid() && r.Join?
      modifies this, nodes.Values
      ensures Valid() && fresh(nodes.Values - old(nodes.Values))
      ensures (State(), code) == DoJoin(old(State()), r)
    {
      var node1 := NodeFor(r.end1, r.requester);
      if node1.requester != r.requester {
        return 403;
      }
      var node2 := NodeFor(r.end2, r.requester);
      if node2.requester != r.requester {
        return 403;
      }
      code := CoupleNodes(r, node1, node2);
    }

    method CoupleNodes(r: Request, node1: MixerNode, node2: MixerNode) returns (code: int)
      requires Valid() && r.Join?
      requires r.end1.conn in nodes && node1 == nodes[r.end1.conn]
      requires r.end2.conn in nodes && node2 == nodes[r.end2.conn]
      modifies this`joins, this`notices, node1, node2
      ensures Valid() && (State(), code) == Couple(old(State()), r)
    {
      if node2.conn in node1.links {
        return 408;
      }
      var err := node1.Attach(node2, r.d, r.volume1);
      OneChanged(node1);
      if err < 0 {
        return if err == -2 then 408 else 411;
      }
      if node1 == node2 {
        Record(r);
        return 200;
      }
      code := CoupleBackNodes(r, node1, node2);
    }

    method CoupleBackNodes(r: Request, node1: MixerNode, node2: MixerNode) returns (code: int)
      requires Valid() && r.Join? && node1 != node2
      requires r.end1.conn in nodes && node1 == nodes[r.end1.conn]
      requires r.end2.conn in nodes && node2 == nodes[r.end2.conn]
      modifies this`joins, this`notices, node1, node2
      ensures Valid() && (State(), code) == CoupleBack(old(State()), r)
    {
      if node1.conn in node2.links {
        return 408;
      }
      var err := node2.Attach(node1, Reverse(r.d), r.volume2);
      OneChanged(node2);
      if err == -2 {
        return 408;
      }
      if err < 0 {
        UndoFirst(r, node1, node2);
        return 411;
      }
      Record(r);
      return 200;
    }

    // The rollback of a join: the first side is detached again.
    method UndoFirst(r: Request, node1: MixerNode, node2: MixerNode)
      requires Valid() && r.Join? && node1.conn in nodes && node1 == nodes[node1.conn]
      requires node2.conn in nodes && node2 == nodes[node2.conn]
      modifies this`joins, this`notices, node1
      ensures Valid()
      ensures var m, a, b := old(State()), node1.conn, node2.conn;
              var undone := m.(graph := m.graph[a := MixerNodes.Detach(m.graph[a], b, m.graph[b].audio).0]);
              State() == MixerLinks.NotifyUnjoin(undone, r.requester, m.graph[a].id, m.graph[b].id, UnjoinError)
    {
      var err := node1.Detach(node2);
      OneChanged(node1);
      NotifyUnjoin(r.requester, node1.id, node2.id, UnjoinError);
    }

    method ModifyJoin(r: Request) returns (code: int)
      requires Valid() && r.ModifyJoin?
      modifies nodes.Values
      ensures Valid() && (State(), code) == DoModify(old(State()), r)
    {
      if r.end1.conn !in nodes {
        return 426;
      }
      var node1 := nodes[r.end1.conn];
      if node1.requester != r.requester {
        return 403;
      }
      if r.end2.conn !in nodes {
        return 426;
      }
      var node2 := nodes[r.end2.conn];
      if node2.requester != r.requester {
        return 403;
      }
      if node2.conn !in node1.links {
        return 409;
      }
      var err := node1.Modify(node2, r.d, r.volume1);
      OneChanged(node1);
      if err < 0 {
        return if err == -2 then 409 else 411;
      }
      if node1 == node2 {
        return 200;
      }
      code := ModifyBackNodes(r, node1, node2);
    }

    method ModifyBackNodes(r: Request, node1: MixerNode, node2: MixerNode) returns (code: int)
      requires Valid() && r.ModifyJoin? && node1 != node2
      requires r.end1.conn in nodes && node1 == nodes[r.end1.conn]
      requires r.end2.conn in nodes && node2 == nodes[r.end2.conn]
      modifies node2
      ensures Valid() && (State(), code) == ModifyBack(old(State()), r)
    {
      if node1.conn !in node2.links {
        return 409;
      }
      var err := node2.Modify(node1, Reverse(r.d), r.volume2);
      OneChanged(node2);
      if err < 0 {
        return if err == -2 then 409 else 411;
      }
      return 200;
    }

    method Unjoin(r: Request) returns (code: int)
      requires Valid() && r.Unjoin?
      modifies this`joins, this`notices, nodes.Values
      ensures Valid() && (State(), code) == DoUnjoin(old(State()), r)
    {
      if r.end1.conn !in nodes {
        return 426;
      }
      var node1 := nodes[r.end1.conn];
      if node1.requester != r.requester {
        return 403;
      }
      if r.end2.conn !in nodes {
        return 426;
      }
      var node2 := nodes[r.end2.conn];
      if node2.requester != r.requester {
        return 403;
      }
      if node2.conn !in node1.links {
        return 409;
      }
      var err := node1.Detach(node2);
      OneChanged(node1);
      if err < 0 {
        return if err == -2 then 409 else 411;
      }
      if node1 != node2 {
        if node1.conn !in node2.links {
          return 409;
        }
        label Second:
        err := node2.Detach(node1);
        OneChanged@Second(node2);
        if err < 0 {
          return if err == -2 then 409 else 411;
        }
      }
      NotifyUnjoin(r.requester, node1.id, node2.id, UnjoinRequest);
      return 200;
    }

    // A connection closes, or a conference is destroyed: the node is forgotten first, then its
    // destructor leaves the peers one by one.
    method Leave(c: Conn) returns (ghost order: seq<Conn>)
      requires Valid() && Inv(Graph())
      modifies this, nodes.Values
      ensures Valid()
      ensures Allowed(old(State()), Close(c, order))
      ensures State() == DoClose(old(State()), Close(c, order)).0
    {
      order := [];
      if c !in nodes {
        return;
      }
      var node := nodes[c];
      PeersKnown(Graph(), c);
      order := LeaveAll(node);
    }

    method LeaveAll(node: MixerNode) returns (ghost order: seq<Conn>)
      requires Valid() && node.conn in nodes && nodes[node.conn] == node
      requires node.links.Keys <= nodes.Keys
      modifies this, nodes.Values
      ensures Valid()
      ensures var c, before := node.conn, old(State());
              && Enumerates(order, before.graph[c].links.Keys - {c})
              && (forall p | p in order :: p in before.graph)
              && State() == Without(LeavePeers(before, c, before.graph[c], order), c)
    {
      var c := node.conn;
      ghost var before := State();
      nodes := nodes - {c};
      assert Graph() == before.graph - {c};
      order := LeavePeersOf(node);
      LeavePeersWithout(before, c, node.State(), order);
    }

    // The peers of a node that is already forgotten, one by one
    method LeavePeersOf(node: MixerNode) returns (ghost order: seq<Conn>)
      requires Valid() && node.conn !in nodes && node.links.Keys - {node.conn} <= nodes.Keys
      modifies this`joins, this`notices, nodes.Values
      ensures Valid() && nodes == old(nodes) && node.State() == old(node.State())
      ensures Enumerates(order, node.links.Keys - {node.conn})
      ensures forall p | p in order :: p in old(State()).graph
      ensures State() == LeavePeers(old(State()), node.conn, node.State(), order)
    {
      ghost var before, n := State(), node.State();
      var others := node.links.Keys - {node.conn};
      var todo := others;
      order := [];
      while todo != {}
        invariant Valid() && nodes == old(nodes) && node.State() == n
        invariant todo <= others && Enumerates(order, others - todo)
        invariant Parted(before, node, order)
        decreases todo
      {
        var p := Pick(todo);
        LeaveNext(node, before, order, p);
        order := order + [p];
        todo := todo - {p};
      }
    }

    // What is left once some peers have been left
    ghost predicate Parted(before: Mixer, node: MixerNode, order: seq<Conn>)
      reads this, nodes.Values, node
    {
      && (forall p | p in order :: p in before.graph)
      && State() == LeavePeers(before, node.conn, node.State(), order)
    }

    method LeaveNext(node: MixerNode, ghost before: Mixer, ghost order: seq<Conn>, p: Conn)
      requires Valid() && p in nodes && p != node.conn && Parted(before, node, order)
      modifies this`joins, this`notices, nodes[p]
      ensures Valid() && nodes == old(nodes) && node.State() == old(node.State())
      ensures Parted(before, node, order + [p])
    {
      assert p in before.graph;
      LeaveOneMore(before, node.conn, node.State(), order, p);
      LeaveOne(node, p);
    }

    method LeaveOne(node: MixerNode, p: Conn)
      requires Valid() && p in nodes && p != node.conn
      modifies this`joins, this`notices, nodes[p]
      ensures Valid() && nodes == old(nodes) && node.State() == old(node.State())
      ensures State() == LeaveStep(old(State()), node.conn, node.State(), p)
    {
      var peer := nodes[p];
      var err := peer.Detach(node);
      OneChanged(peer);
      NotifyUnjoin(node.requester, node.id, peer.id, Terminated);
    }
  }

  ghost function Without(m: Mixer, c: Conn): Mixer {
    m.(graph := m.graph - {c})
  }

  // Forgetting the node first or last makes no difference.
  lemma {:induction false} LeavePeersWithout(m: Mixer, c: Conn, n: NodeState, order: seq<Conn>)
    requires forall q | q in order :: q in m.graph && q != c
    ensures LeavePeers(Without(m, c), c, n, order) == Without(LeavePeers(m, c, n, order), c)
    decreases |order|
  {
    if order != [] {
      WithoutStep(m, c, n, order[0]);
      LeavePeersWithout(LeaveStep(m, c, n, order[0]), c, n, order[1..]);
    }
  }

  lemma WithoutStep(m: Mixer, c: Conn, n: NodeState, p: Conn)
    requires p in m.graph && p != c
    ensures LeaveStep(Without(m, c), c, n, p) == Without(LeaveStep(m, c, n, p), c)
  {
    var d := MixerNodes.Detach(m.graph[p], c, n.audio).0;
    assert (m.graph - {c})[p := d] == m.graph[p := d] - {c};
  }

  lemma {:induction false} LeaveOneMore(m: Mixer, c: Conn, n: NodeState, order: seq<Conn>, p: Conn)
    requires forall q | q in order :: q in m.graph
    requires p in m.graph
    ensures forall q | q in order + [p] :: q in m.graph
    ensures LeavePeers(m, c, n, order + [p]) == LeaveStep(LeavePeers(m, c, n, order), c, n, p)
    decreases |order|
  {
    if order == [] {
      assert ([] + [p])[1..] == [];
    } else {
      LeaveOneMore(LeaveStep(m, c, n, order[0]), c, n, order[1..], p);
      assert (order + [p])[1..] == order[1..] + [p];
    }
  }
}
