// The whole link graph of the mixer package: every join is stored on both sides, and join,
// modifyjoin, unjoin, a closing connection and a destroyed conference update both.
module MixerLinks {
  import opened MixerNodes

  datatype Reason = UnjoinRequest | UnjoinError | Terminated

  datatype Notice = Notice(requester: nat, id1: string, id2: string, reason: Reason)

  // joins is a list that is sorted and made unique at each addition, hence a set.
  datatype Mixer = Mixer(graph: map<Conn, NodeState>, joins: set<string>, notices: seq<Notice>)

  const EMPTY := Mixer(map[], {}, [])

  // A resolved end of a request: the sub-connection or conference that an id stands for.
  datatype Endpoint = Endpoint(conn: Conn, audio: bool, id: string)

  datatype Request =
    | CreateConference(conn: Conn, requester: nat, id: string)
    | Join(requester: nat, end1: Endpoint, end2: Endpoint, d: Direction, volume1: int, volume2: int)
    | ModifyJoin(requester: nat, end1: Endpoint, end2: Endpoint, d: Direction, volume1: int, volume2: int)
    | Unjoin(requester: nat, end1: Endpoint, end2: Endpoint)
    | Close(conn: Conn, order: seq<Conn>)   // a connection closes or a conference is destroyed

  // ---- join records and unjoin notifications ----

  function Key(id1: string, id2: string): string { id1 + "~" + id2 }

  // std::string's order, which decides what is found first in the sorted list
  predicate Before(s: string, t: string)
    decreases |s|
  {
    t != [] && (s == [] || s[0] < t[0] || (s[0] == t[0] && Before(s[1..], t[1..])))
  }

  function NotifyUnjoin(m: Mixer, requester: nat, id1: string, id2: string, reason: Reason): Mixer {
    var k1, k2 := Key(id1, id2), Key(id2, id1);
    if k1 !in m.joins && k2 !in m.joins then m
    else
      var found := if k1 in m.joins && (k2 !in m.joins || !Before(k2, k1)) then k1 else k2;
      m.(joins := m.joins - {found}, notices := m.notices + [Notice(requester, id1, id2, reason)])
  }

  // ---- requests ----

  // A node is created on the first join of a connection, whatever becomes of the join.
  function WithNode(g: map<Conn, NodeState>, e: Endpoint, requester: nat): map<Conn, NodeState> {
    if e.conn in g then g else g[e.conn := NewConnection(e.audio, requester, e.id)]
  }

  function DoJoin(m: Mixer, r: Request): (Mixer, int)
    requires r.Join?
  {
    var g1 := WithNode(m.graph, r.end1, r.requester);
    if g1[r.end1.conn].requester != r.requester then (m.(graph := g1), 403) else
    var g2 := WithNode(g1, r.end2, r.requester);
    if g2[r.end2.conn].requester != r.requester then (m.(graph := g2), 403)
    else Couple(m.(graph := g2), r)
  }

  // The first half of a join, between nodes that exist; an echo join has no second half.
  function Couple(m: Mixer, r: Request): (Mixer, int)
    requires r.Join? && r.end1.conn in m.graph && r.end2.conn in m.graph
  {
    var a, b, g := r.end1.conn, r.end2.conn, m.graph;
    if b in g[a].links then (m, 408) else
    var (na, err) := Attach(g[a], b, g[b].audio, r.d, r.volume1);
    if err < 0 then (m, if err == -2 then 408 else 411) else
    var m1 := m.(graph := g[a := na]);
    if a == b then (Recorded(m1, r), 200) else CoupleBack(m1, r)
  }

  function Recorded(m: Mixer, r: Request): Mixer
    requires r.Join?
  {
    m.(joins := m.joins + {Key(r.end1.id, r.end2.id)})
  }

  // The second half, and the undoing of the first when it fails
  function CoupleBack(m: Mixer, r: Request): (Mixer, int)
    requires r.Join? && r.end1.conn in m.graph && r.end2.conn in m.graph
  {
    var a, b, g := r.end1.conn, r.end2.conn, m.graph;
    if a in g[b].links then (m, 408) else
    var (nb, err) := Attach(g[b], a, g[a].audio, Reverse(r.d), r.volume2);
    if err == -2 then (m, 408) else
    if err < 0 then
      var undone := m.(graph := g[a := Detach(g[a], b, g[b].audio).0]);
      (NotifyUnjoin(undone, r.requester, g[a].id, g[b].id, UnjoinError), 411)
    else (Recorded(m.(graph := g[b := nb]), r), 200)
  }

  function DoModify(m: Mixer, r: Request): (Mixer, int)
    requires r.ModifyJoin?
  {
    var a, b, g := r.end1.conn, r.end2.conn, m.graph;
    if a !in g then (m, 426) else
    if g[a].requester != r.requester then (m, 403) else
    if b !in g then (m, 426) else
    if g[b].requester != r.requester then (m, 403) else
    if b !in g[a].links then (m, 409) else
    var (na, err) := Modify(g[a], b, g[b].audio, r.d, r.volume1);
    if err < 0 then (m, if err == -2 then 409 else 411) else
    var m1 := m.(graph := g[a := na]);
    if a == b then (m1, 200) else ModifyBack(m1, r)
  }

  function ModifyBack(m: Mixer, r: Request): (Mixer, int)
    requires r.ModifyJoin? && r.end1.conn in m.graph && r.end2.conn in m.graph
  {
    var a, b, g := r.end1.conn, r.end2.conn, m.graph;
    if a !in g[b].links then (m, 409) else
    var (nb, err) := Modify(g[b], a, g[a].audio, Reverse(r.d), r.volume2);
    if err < 0 then (m, if err == -2 then 409 else 411)
    else (m.(graph := g[b := nb]), 200)
  }

  function DoUnjoin(m: Mixer, r: Request): (Mixer, int)
    requires r.Unjoin?
  {
    var a, b, g := r.end1.conn, r.end2.conn, m.graph;
    if a !in g then (m, 426) else
    if g[a].requester != r.requester then (m, 403) else
    if b !in g then (m, 426) else
    if g[b].requester != r.requester then (m, 403) else
    if b !in g[a].links then (m, 409) else
    var (na, err) := Detach(g[a], b, g[b].audio);
    if err < 0 then (m, if err == -2 then 409 else 411) else
    var g1 := g[a := na];
    if a == b then (NotifyUnjoin(m.(graph := g1), r.requester, g[a].id, g[b].id, UnjoinRequest), 200) else
    if a !in g1[b].links then (m.(graph := g1), 409) else
    var (nb, err2) := Detach(g1[b], a, g1[a].audio);
    if err2 < 0 then (m.(graph := g1), if err2 == -2 then 409 else 411)
    else (NotifyUnjoin(m.(graph := g1[b := nb]), r.requester, g[a].id, g[b].id, UnjoinRequest), 200)
  }

  // The destructors: detach from each peer in turn and notify each unjoin.
  function LeaveStep(m: Mixer, c: Conn, n: NodeState, p: Conn): Mixer
    requires p in m.graph
  {
    NotifyUnjoin(m.(graph := m.graph[p := Detach(m.graph[p], c, n.audio).0]), n.requester, n.id, m.graph[p].id,
      Terminated)
  }

  function LeavePeers(m: Mixer, c: Conn, n: NodeState, order: seq<Conn>): Mixer
    requires forall p | p in order :: p in m.graph
    ensures LeavePeers(m, c, n, order).graph.Keys == m.graph.Keys
    decreases |order|
  {
    if order == [] then m else LeavePeers(LeaveStep(m, c, n, order[0]), c, n, order[1..])
  }

  // The map of peers is visited in the order of their addresses, which may be any order.
  ghost predicate Enumerates(order: seq<Conn>, s: set<Conn>) {
    && (forall p :: p in order <==> p in s)
    && (forall i, j | 0 <= i < j < |order| :: order[i] != order[j])
  }

  ghost predicate Allowed(m: Mixer, r: Request) {
    r.Close? && r.conn in m.graph ==>
      && Enumerates(r.order, m.graph[r.conn].links.Keys - {r.conn})
      && m.graph[r.conn].links.Keys <= m.graph.Keys
  }

  ghost function DoClose(m: Mixer, r: Request): (Mixer, int)
    requires r.Close? && Allowed(m, r)
  {
    if r.conn !in m.graph then (m, 0) else
    var left := LeavePeers(m, r.conn, m.graph[r.conn], r.order);
    (left.(graph := left.graph - {r.conn}), 0)
  }

  ghost function Step(m: Mixer, r: Request): (Mixer, int)
    requires Allowed(m, r)
  {
    match r
    case CreateConference(c, q, id) =>
      if c in m.graph then (m, 405) else (m.(graph := m.graph[c := NewConference(q, id)]), 200)
    case Join(_, _, _, _, _, _) => DoJoin(m, r)
    case ModifyJoin(_, _, _, _, _, _) => DoModify(m, r)
    case Unjoin(_, _, _) => DoUnjoin(m, r)
    case Close(_, _) => DoClose(m, r)
  }

  // ---- the invariant ----

  // The fields of one node; a conference queues frames of its peers only.
  ghost predicate Sound(n: NodeState) {
    if n.kind.Connection? then n.sending >= |Senders(n.links)| && Counted(n, n.sending - |Senders(n.links)|)
    else !n.audio && n.links.Keys <= n.volumes.Keys && n.links.Keys <= n.mutes.Keys && n.queued.Keys <= n.links.Keys
  }

  // The link from a to b is stored on both sides, reversed, and a conference has audio peers only.
  ghost predicate Mirrored(g: map<Conn, NodeState>, a: Conn, b: Conn)
    requires a in g && b in g[a].links
  {
    && b in g
    && (g[a].kind.Conference? ==> g[b].audio)
    && (a != b ==> a in g[b].links && g[b].links[a] == Reverse(g[a].links[b]))
  }

  ghost predicate AllMirrored(g: map<Conn, NodeState>) {
    forall a, b | a in g && b in g[a].links :: Mirrored(g, a, b)
  }

  ghost predicate AllSound(g: map<Conn, NodeState>) {
    forall a | a in g :: Sound(g[a])
  }

  ghost predicate Inv(g: map<Conn, NodeState>) { AllSound(g) && AllMirrored(g) }

  predicate Linked(g: map<Conn, NodeState>, a: Conn, b: Conn) {
    a in g && b in g[a].links
  }

  lemma InvSymmetric(g: map<Conn, NodeState>, a: Conn, b: Conn)
    requires Inv(g) && a != b
    ensures Linked(g, a, b) <==> Linked(g, b, a)
    ensures Linked(g, a, b) ==> g[b].links[a] == Reverse(g[a].links[b]) && g[a].links[b] == Reverse(g[b].links[a])
  {
    if Linked(g, a, b) { assert Mirrored(g, a, b); ReverseInvolution(g[a].links[b]); }
    if Linked(g, b, a) { assert Mirrored(g, b, a); }
  }

  lemma PeersKnown(g: map<Conn, NodeState>, c: Conn)
    requires Inv(g) && c in g
    ensures g[c].links.Keys <= g.Keys
  {
    forall p | p in g[c].links ensures p in g { assert Mirrored(g, c, p); }
  }

  // ---- updating both sides ----

  lemma AttachFields(n: NodeState, p: Conn, peerAudio: bool, d: Direction, volume: int)
    requires n.kind.Connection? ==> n.receiving == 0
    ensures var (m, err) := Attach(n, p, peerAudio, d, volume);
            && m.kind == n.kind && m.audio == n.audio && m.id == n.id && m.requester == n.requester
            && err == (if n.kind.Conference? && !peerAudio then -1 else if p in n.links then -2 else 0)
            && m.queued == n.queued && m.links == if err == 0 then n.links[p := d] else n.links
  {
    GainsVolume(n.(links := n.links[p := d]), p, volume);
  }

  lemma SoundAttach(n: NodeState, p: Conn, peerAudio: bool, d: Direction, volume: int)
    requires Sound(n)
    ensures var (m, err) := Attach(n, p, peerAudio, d, volume);
            && Sound(m) && m.kind == n.kind && m.audio == n.audio && m.id == n.id && m.requester == n.requester
            && err == (if n.kind.Conference? && !peerAudio then -1 else if p in n.links then -2 else 0)
            && m.queued == n.queued && m.links == if err == 0 then n.links[p := d] else n.links
  {
    if n.kind.Connection? {
      AttachCounted(n, p, peerAudio, d, volume, n.sending - |Senders(n.links)|);
    } else {
      GainsVolume(n.(links := n.links[p := d]), p, volume);
    }
    AttachFields(n, p, peerAudio, d, volume);
  }

  lemma SoundModify(n: NodeState, p: Conn, peerAudio: bool, d: Direction, volume: int)
    requires Sound(n)
    requires p in n.links && (n.kind.Conference? ==> peerAudio)
    ensures var (m, err) := Modify(n, p, peerAudio, d, volume);
            && Sound(m) && m.kind == n.kind && m.audio == n.audio && m.id == n.id && m.requester == n.requester
            && err == 0 && m.links == n.links[p := d]
  {
    if n.kind.Connection? {
      ModifyCounted(n, p, peerAudio, d, volume, n.sending - |Senders(n.links)|);
    } else {
      KeepsVolumes(n, p, volume);
    }
  }

  lemma SoundDetach(n: NodeState, p: Conn, peerAudio: bool)
    requires Sound(n)
    requires p in n.links && (n.kind.Conference? ==> peerAudio)
    ensures var (m, err) := Detach(n, p, peerAudio);
            && Sound(m) && m.kind == n.kind && m.audio == n.audio && m.id == n.id && m.requester == n.requester
            && err == 0 && m.links == n.links - {p}
  {
    if n.kind.Connection? {
      DetachCounted(n, p, peerAudio, n.sending - |Senders(n.links)|);
    }
  }

  ghost predicate Like(m: NodeState, n: NodeState) {
    m.kind == n.kind && m.audio == n.audio && m.id == n.id && m.requester == n.requester
  }

  // Writing the link a--b on both sides keeps all links mirrored, whether it is new or changed.
  lemma LinkKeepsMirror(g: map<Conn, NodeState>, a: Conn, na: NodeState, b: Conn, nb: NodeState, d: Direction,
                        x: Conn, y: Conn)
    requires AllMirrored(g) && a in g && b in g && a != b
    requires Like(na, g[a]) && na.links == g[a].links[b := d]
    requires Like(nb, g[b]) && nb.links == g[b].links[a := Reverse(d)]
    requires g[a].kind.Conference? ==> g[b].audio
    requires g[b].kind.Conference? ==> g[a].audio
    requires Linked(g[a := na][b := nb], x, y)
    ensures Mirrored(g[a := na][b := nb], x, y)
  {
    var h := g[a := na][b := nb];
    ReverseInvolution(d);
    assert h[a] == na && h[b] == nb;
    if x == a && y == b {
    } else if x == b && y == a {
    } else {
      assert y in g[x].links && h[x].links[y] == g[x].links[y];
      assert Mirrored(g, x, y);
      if x != y { assert h[y].links[x] == g[y].links[x]; }
    }
  }

  lemma LinkKeepsInv(g: map<Conn, NodeState>, a: Conn, na: NodeState, b: Conn, nb: NodeState, d: Direction)
    requires Inv(g) && a in g && b in g && a != b
    requires Sound(na) && Like(na, g[a]) && na.links == g[a].links[b := d]
    requires Sound(nb) && Like(nb, g[b]) && nb.links == g[b].links[a := Reverse(d)]
    requires g[a].kind.Conference? ==> g[b].audio
    requires g[b].kind.Conference? ==> g[a].audio
    ensures Inv(g[a := na][b := nb])
  {
    var h := g[a := na][b := nb];
    forall x, y | Linked(h, x, y) ensures Mirrored(h, x, y) {
      LinkKeepsMirror(g, a, na, b, nb, d, x, y);
    }
  }

  lemma UnlinkKeepsMirror(g: map<Conn, NodeState>, a: Conn, na: NodeState, b: Conn, nb: NodeState, x: Conn, y: Conn)
    requires AllMirrored(g) && a in g && b in g && a != b
    requires Like(na, g[a]) && na.links == g[a].links - {b}
    requires Like(nb, g[b]) && nb.links == g[b].links - {a}
    requires Linked(g[a := na][b := nb], x, y)
    ensures Mirrored(g[a := na][b := nb], x, y)
  {
    var h := g[a := na][b := nb];
    assert h[a] == na && h[b] == nb;
    assert y in g[x].links && h[x].links[y] == g[x].links[y];
    assert Mirrored(g, x, y);
    if x != y { assert x in h[y].links && h[y].links[x] == g[y].links[x]; }
  }

  lemma UnlinkKeepsInv(g: map<Conn, NodeState>, a: Conn, na: NodeState, b: Conn, nb: NodeState)
    requires Inv(g) && a in g && b in g && a != b
    requires Sound(na) && Like(na, g[a]) && na.links == g[a].links - {b}
    requires Sound(nb) && Like(nb, g[b]) && nb.links == g[b].links - {a}
    ensures Inv(g[a := na][b := nb])
  {
    var h := g[a := na][b := nb];
    forall x, y | Linked(h, x, y) ensures Mirrored(h, x, y) {
      UnlinkKeepsMirror(g, a, na, b, nb, x, y);
    }
  }

  // An echo link, of a connection with itself.
  lemma SelfLinkKeepsInv(g: map<Conn, NodeState>, a: Conn, na: NodeState)
    requires Inv(g) && a in g
    requires Sound(na) && Like(na, g[a]) && na.links - {a} == g[a].links - {a}
    requires a in na.links ==> g[a].kind.Connection?
    ensures Inv(g[a := na])
  {
    var h := g[a := na];
    forall x, y | Linked(h, x, y) ensures Mirrored(h, x, y) {
      if x != a || y != a {
        assert x == a ==> y in na.links - {a};
        assert y in g[x].links && h[x].links[y] == g[x].links[y];
        assert Mirrored(g, x, y);
        if y == a && x != a { assert x in g[a].links - {a} && h[a].links[x] == (na.links - {a})[x]; }
      }
    }
  }

  lemma NewNodeKeepsInv(g: map<Conn, NodeState>, c: Conn, n: NodeState)
    requires Inv(g) && c !in g && Sound(n) && n.links == map[]
    ensures Inv(g[c := n])
  {
    var h := g[c := n];
    forall x, y | Linked(h, x, y) ensures Mirrored(h, x, y) {
      assert Mirrored(g, x, y);
    }
  }

  lemma NewConnectionSound(audio: bool, requester: nat, id: string)
    ensures Sound(NewConnection(audio, requester, id))
  {
    assert Senders(map[]) == {};
  }

  lemma WithNodeKeepsInv(g: map<Conn, NodeState>, e: Endpoint, requester: nat)
    requires Inv(g)
    ensures Inv(WithNode(g, e, requester))
  {
    if e.conn !in g {
      NewConnectionSound(e.audio, requester, e.id);
      NewNodeKeepsInv(g, e.conn, NewConnection(e.audio, requester, e.id));
    }
  }

  // ---- what each request does, from any state that keeps the invariant ----

  // A conference takes audio peers only, so it cannot be joined to a conference or to itself.
  predicate Compatible(na: NodeState, nb: NodeState) {
    (na.kind.Conference? ==> nb.audio) && (nb.kind.Conference? ==> na.audio)
  }

  function Prepared(g: map<Conn, NodeState>, r: Request): map<Conn, NodeState>
    requires r.Join?
  {
    WithNode(WithNode(g, r.end1, r.requester), r.end2, r.requester)
  }

  // Only the volume and mute entries, which are never erased, may differ.
  predicate SameButVolumes(n: NodeState, o: NodeState) {
    && n.kind == o.kind && n.audio == o.audio && n.requester == o.requester && n.id == o.id
    && n.links == o.links && n.queued == o.queued
    && n.sending == o.sending && n.receiving == o.receiving && n.registered == o.registered
  }

  // The old nodes are as before and the new ones have no links.
  ghost predicate NothingLinked(g: map<Conn, NodeState>, before: map<Conn, NodeState>) {
    && before.Keys <= g.Keys
    && forall c | c in g :: if c in before then SameButVolumes(g[c], before[c]) else g[c].links == map[]
  }

  // All nodes but a and b are as in h, and those two are still the same connections.
  ghost predicate OthersSame(g: map<Conn, NodeState>, h: map<Conn, NodeState>, a: Conn, b: Conn) {
    && g.Keys == h.Keys
    && forall c | c in h :: if c == a || c == b then Like(g[c], h[c]) else g[c] == h[c]
  }

  lemma PreparedKeepsInv(m: Mixer, r: Request)
    requires r.Join? && Inv(m.graph)
    ensures Inv(WithNode(m.graph, r.end1, r.requester)) && Inv(Prepared(m.graph, r))
    ensures NothingLinked(Prepared(m.graph, r), m.graph)
  {
    WithNodeKeepsInv(m.graph, r.end1, r.requester);
    WithNodeKeepsInv(WithNode(m.graph, r.end1, r.requester), r.end2, r.requester);
  }

  lemma UpdateThenRemove(links: map<Conn, Direction>, p: Conn, d: Direction)
    requires p !in links
    ensures links[p := d] - {p} == links
  {
  }

  lemma AttachedState(n: NodeState, p: Conn, peerAudio: bool, d: Direction, volume: int)
    requires n.kind.Connection? && n.receiving == 0 && p !in n.links
    ensures var m := Attach(n, p, peerAudio, d, volume).0;
            var o := if d.Sends() then StartSending(n) else n;
            SameButVolumes(m, o.(links := n.links[p := d]))
  {
    GainsVolume(n.(links := n.links[p := d]), p, volume);
  }

  // Undoing the first half of a join leaves the node as it was, counters and registration included.
  lemma RollbackRestores(n: NodeState, p: Conn, peerAudio: bool, d: Direction, volume: int)
    requires n.kind.Connection? && n.receiving == 0 && n.sending >= 0 && (n.registered <==> n.sending > 0)
    requires p !in n.links
    ensures SameButVolumes(Detach(Attach(n, p, peerAudio, d, volume).0, p, peerAudio).0, n)
  {
    AttachedState(n, p, peerAudio, d, volume);
    UpdateThenRemove(n.links, p, d);
  }

  // The second half of a join fails exactly when a conference would get a peer that is not audio.
  lemma SecondHalfFails(h: map<Conn, NodeState>, a: Conn, b: Conn, d: Direction, volume1: int, volume2: int)
    requires Inv(h) && a in h && b in h && a != b && b !in h[a].links
    requires Attach(h[a], b, h[b].audio, d, volume1).1 == 0
    ensures a !in h[b].links
    ensures Attach(h[b], a, h[a].audio, Reverse(d), volume2).1 < 0 <==> h[b].kind.Conference? && !h[a].audio
    ensures Attach(h[b], a, h[a].audio, Reverse(d), volume2).1 < 0 ==>
              Attach(h[b], a, h[a].audio, Reverse(d), volume2).1 == -1 && h[a].kind.Connection?
  {
    InvSymmetric(h, a, b);
    SoundAttach(h[a], b, h[b].audio, d, volume1);
    SoundAttach(h[b], a, h[a].audio, Reverse(d), volume2);
  }

  ghost predicate BothSidesJoined(m: Mixer, m': Mixer, r: Request)
    requires r.Join? && r.end1.conn in m.graph && r.end2.conn in m.graph
  {
    var a, b, h := r.end1.conn, r.end2.conn, m.graph;
    && OthersSame(m'.graph, h, a, b)
    && m'.graph[a].links == h[a].links[b := r.d]
    && (a != b ==> m'.graph[b].links == h[b].links[a := Reverse(r.d)])
    && m'.graph[a].queued == h[a].queued && m'.graph[b].queued == h[b].queued
    && m'.joins == m.joins + {Key(r.end1.id, r.end2.id)}
    && m'.notices == m.notices
  }

  lemma EchoAllOrNothing(m: Mixer, r: Request)
    requires r.Join? && Inv(m.graph) && r.end1.conn == r.end2.conn && r.end1.conn in m.graph
    ensures var (m', code) := Couple(m, r);
            var a := r.end1.conn;
            && Inv(m'.graph)
            && (code == 200 <==> !Linked(m.graph, a, a) && m.graph[a].kind.Connection?)
            && (if code == 200 then BothSidesJoined(m, m', r) else m' == m)
  {
    var a, h := r.end1.conn, m.graph;
    if a !in h[a].links {
      SoundAttach(h[a], a, h[a].audio, r.d, r.volume1);
      var na := Attach(h[a], a, h[a].audio, r.d, r.volume1).0;
      if h[a].kind.Connection? {
        assert na.links - {a} == h[a].links - {a};
        SelfLinkKeepsInv(h, a, na);
      }
    }
  }

  lemma FirstHalf(m: Mixer, r: Request)
    requires r.Join? && Inv(m.graph) && r.end1.conn in m.graph && r.end2.conn in m.graph
    requires r.end1.conn != r.end2.conn
    requires var a, b, h := r.end1.conn, r.end2.conn, m.graph;
             b in h[a].links || (h[a].kind.Conference? && !h[b].audio)
    ensures Couple(m, r).0 == m && Couple(m, r).1 != 200
  {
    var a, b, h := r.end1.conn, r.end2.conn, m.graph;
    SoundAttach(h[a], b, h[b].audio, r.d, r.volume1);
  }

  lemma BothHalves(m: Mixer, r: Request)
    requires r.Join? && Inv(m.graph) && r.end1.conn in m.graph && r.end2.conn in m.graph
    requires r.end1.conn != r.end2.conn
    requires var a, b, h := r.end1.conn, r.end2.conn, m.graph;
             b !in h[a].links && Compatible(h[a], h[b])
    ensures var (m', code) := Couple(m, r);
            code == 200 && Inv(m'.graph) && BothSidesJoined(m, m', r)
  {
    var a, b, h := r.end1.conn, r.end2.conn, m.graph;
    SoundAttach(h[a], b, h[b].audio, r.d, r.volume1);
    SecondHalfFails(h, a, b, r.d, r.volume1, r.volume2);
    SoundAttach(h[b], a, h[a].audio, Reverse(r.d), r.volume2);
    var na := Attach(h[a], b, h[b].audio, r.d, r.volume1).0;
    var nb := Attach(h[b], a, h[a].audio, Reverse(r.d), r.volume2).0;
    LinkKeepsInv(h, a, na, b, nb, r.d);
  }

  lemma RolledBack(m: Mixer, r: Request)
    requires r.Join? && Inv(m.graph) && r.end1.conn in m.graph && r.end2.conn in m.graph
    requires r.end1.conn != r.end2.conn
    requires var a, b, h := r.end1.conn, r.end2.conn, m.graph;
             b !in h[a].links && h[b].kind.Conference? && !h[a].audio && (h[a].kind.Conference? ==> h[b].audio)
    ensures var (m', code) := Couple(m, r);
            var a, b, h := r.end1.conn, r.end2.conn, m.graph;
            && code == 411 && Inv(m'.graph) && m'.graph.Keys == h.Keys
            && (forall c | c in h :: if c == a then SameButVolumes(m'.graph[c], h[c]) else m'.graph[c] == h[c])
            && m' == NotifyUnjoin(m.(graph := m'.graph), r.requester, h[a].id, h[b].id, UnjoinError)
  {
    var a, b, h := r.end1.conn, r.end2.conn, m.graph;
    SoundAttach(h[a], b, h[b].audio, r.d, r.volume1);
    SecondHalfFails(h, a, b, r.d, r.volume1, r.volume2);
    RollbackRestores(h[a], b, h[b].audio, r.d, r.volume1);
    var na := Attach(h[a], b, h[b].audio, r.d, r.volume1).0;
    SoundDetach(na, b, h[b].audio);
    var nz := Detach(na, b, h[b].audio).0;
    assert h[a := na][a := nz] == h[a := nz];
    RewriteKeepsInv(h, a, nz);
  }

  lemma CoupleAllOrNothing(m: Mixer, r: Request)
    requires r.Join? && Inv(m.graph) && r.end1.conn in m.graph && r.end2.conn in m.graph
    ensures var (m', code) := Couple(m, r);
            var a, b, h := r.end1.conn, r.end2.conn, m.graph;
            && Inv(m'.graph)
            && (code == 200 <==> !Linked(h, a, b) && Compatible(h[a], h[b]))
            && (if code == 200 then BothSidesJoined(m, m', r) else
                  m'.graph.Keys == h.Keys && forall c | c in h :: SameButVolumes(m'.graph[c], h[c]))
  {
    var a, b, h := r.end1.conn, r.end2.conn, m.graph;
    if a == b {
      EchoAllOrNothing(m, r);
    } else if b in h[a].links || (h[a].kind.Conference? && !h[b].audio) {
      FirstHalf(m, r);
    } else if Compatible(h[a], h[b]) {
      BothHalves(m, r);
    } else {
      RolledBack(m, r);
    }
  }

  // A join is all or nothing: it succeeds exactly for admitted, unlinked and compatible ends,
  // and then both sides are written, in reversed directions; else no link changes at all.
  lemma JoinAllOrNothing(m: Mixer, r: Request)
    requires r.Join? && Inv(m.graph)
    ensures var (m', code) := DoJoin(m, r);
            var a, b, h := r.end1.conn, r.end2.conn, Prepared(m.graph, r);
            && Inv(m'.graph)
            && (code == 200 <==>
                  h[a].requester == r.requester && h[b].requester == r.requester
                  && !Linked(h, a, b) && Compatible(h[a], h[b]))
            && (if code == 200 then BothSidesJoined(m.(graph := h), m', r) else NothingLinked(m'.graph, m.graph))
  {
    var h := Prepared(m.graph, r);
    PreparedKeepsInv(m, r);
    CoupleAllOrNothing(m.(graph := h), r);
  }

  lemma RewriteKeepsInv(h: map<Conn, NodeState>, a: Conn, n: NodeState)
    requires Inv(h) && a in h && Sound(n) && Like(n, h[a]) && n.links == h[a].links
    ensures Inv(h[a := n])
  {
    var g := h[a := n];
    forall x, y | Linked(g, x, y) ensures Mirrored(g, x, y) {
      assert Mirrored(h, x, y);
    }
  }

  // ---- modifyjoin and unjoin ----

  predicate Reachable(g: map<Conn, NodeState>, requester: nat, a: Conn, b: Conn) {
    a in g && b in g && g[a].requester == requester && g[b].requester == requester && b in g[a].links
  }

  ghost predicate BothSidesModified(g: map<Conn, NodeState>, g': map<Conn, NodeState>, a: Conn, b: Conn, d: Direction)
    requires a in g && b in g
  {
    && OthersSame(g', g, a, b)
    && g'[a].links == g[a].links[b := d]
    && (a != b ==> g'[b].links == g[b].links[a := Reverse(d)])
  }

  // A modifyjoin succeeds exactly when the caller reaches both ends and they are linked; the
  // missing undo of its first half is never missed.
  lemma ModifyAllOrNothing(m: Mixer, r: Request)
    requires r.ModifyJoin? && Inv(m.graph)
    ensures var (m', code) := DoModify(m, r);
            var a, b := r.end1.conn, r.end2.conn;
            && Inv(m'.graph)
            && (code == 200 <==> Reachable(m.graph, r.requester, a, b))
            && (code == 200 ==> BothSidesModified(m.graph, m'.graph, a, b, r.d) && m' == m.(graph := m'.graph))
            && (code != 200 ==> m' == m)
  {
    var a, b, g := r.end1.conn, r.end2.conn, m.graph;
    if Reachable(g, r.requester, a, b) {
      assert Mirrored(g, a, b);
      SoundModify(g[a], b, g[b].audio, r.d, r.volume1);
      var na := Modify(g[a], b, g[b].audio, r.d, r.volume1).0;
      if a == b {
        assert na.links - {a} == g[a].links - {a};
        SelfLinkKeepsInv(g, a, na);
      } else {
        assert Mirrored(g, b, a);
        SoundModify(g[b], a, g[a].audio, Reverse(r.d), r.volume2);
        LinkKeepsInv(g, a, na, b, Modify(g[b], a, g[a].audio, Reverse(r.d), r.volume2).0, r.d);
      }
    }
  }

  ghost predicate BothSidesUnjoined(g: map<Conn, NodeState>, g': map<Conn, NodeState>, a: Conn, b: Conn)
    requires a in g && b in g
  {
    OthersSame(g', g, a, b) && g'[a].links == g[a].links - {b} && g'[b].links == g[b].links - {a}
  }

  // The same for unjoin, which also drops the join record and notifies.
  lemma UnjoinAllOrNothing(m: Mixer, r: Request)
    requires r.Unjoin? && Inv(m.graph)
    ensures var (m', code) := DoUnjoin(m, r);
            var a, b := r.end1.conn, r.end2.conn;
            && Inv(m'.graph)
            && (code == 200 <==> Reachable(m.graph, r.requester, a, b))
            && (code == 200 ==>
                  && BothSidesUnjoined(m.graph, m'.graph, a, b)
                  && m' == NotifyUnjoin(m.(graph := m'.graph), r.requester, m.graph[a].id, m.graph[b].id,
                     UnjoinRequest))
            && (code != 200 ==> m' == m)
  {
    var a, b, g := r.end1.conn, r.end2.conn, m.graph;
    if Reachable(g, r.requester, a, b) {
      assert Mirrored(g, a, b);
      SoundDetach(g[a], b, g[b].audio);
      var na := Detach(g[a], b, g[b].audio).0;
      if a == b {
        assert na.links - {a} == g[a].links - {a};
        SelfLinkKeepsInv(g, a, na);
      } else {
        assert Mirrored(g, b, a);
        SoundDetach(g[b], a, g[a].audio);
        UnlinkKeepsInv(g, a, na, b, Detach(g[b], a, g[a].audio).0);
      }
    }
  }

  // ---- the answers ----

  // What a join is answered: 403 for a stranger's end, 408 for ends that are linked, 411 for ends that
  // cannot carry audio to each other, and nothing else goes wrong.
  lemma JoinAnswers(m: Mixer, r: Request)
    requires r.Join? && Inv(m.graph)
    ensures var a, b, h, code := r.end1.conn, r.end2.conn, Prepared(m.graph, r), DoJoin(m, r).1;
            var mine := h[a].requester == r.requester && h[b].requester == r.requester;
            && (code == 403 <==> !mine)
            && (code == 408 <==> mine && Linked(h, a, b))
            && (code == 411 <==> mine && !Linked(h, a, b) && !Compatible(h[a], h[b]))
            && (code == 200 <==> mine && !Linked(h, a, b) && Compatible(h[a], h[b]))
  {
    var a, b, h := r.end1.conn, r.end2.conn, Prepared(m.graph, r);
    JoinAllOrNothing(m, r);
    PreparedKeepsInv(m, r);
    if h[a].requester == r.requester && h[b].requester == r.requester && !Linked(h, a, b) && !Compatible(h[a], h[b]) {
      CoupleRefuses(m.(graph := h), r);
    }
  }

  lemma CoupleRefuses(m: Mixer, r: Request)
    requires r.Join? && Inv(m.graph) && r.end1.conn in m.graph && r.end2.conn in m.graph
    requires !Linked(m.graph, r.end1.conn, r.end2.conn) && !Compatible(m.graph[r.end1.conn], m.graph[r.end2.conn])
    ensures Couple(m, r).1 == 411
  {
    var a, b, h := r.end1.conn, r.end2.conn, m.graph;
    SoundAttach(h[a], b, h[b].audio, r.d, r.volume1);
    if a != b && !(h[a].kind.Conference? && !h[b].audio) { RolledBack(m, r); }
  }

  // A new conference has a handle of its own.
  lemma CreateAnswers(m: Mixer, c: Conn, requester: nat, id: string)
    ensures var (m', code) := Step(m, CreateConference(c, requester, id));
            && (code == 405 <==> c in m.graph) && (code == 200 <==> c !in m.graph)
            && (code == 405 ==> m' == m)
            && (code == 200 ==>
                  && m'.graph.Keys == m.graph.Keys + {c} && m'.joins == m.joins && m'.notices == m.notices
                  && (forall d | d in m.graph :: m'.graph[d] == m.graph[d])
                  && m'.graph[c].kind == Conference && m'.graph[c].requester == requester && m'.graph[c].id == id
                  && m'.graph[c].links == map[] && m'.graph[c].queued == map[])
  {
  }

  // The nodes that a join makes, whatever becomes of it, are connections of its requester, by their ids.
  lemma JoinCreates(m: Mixer, r: Request, c: Conn)
    requires r.Join? && Inv(m.graph) && c in DoJoin(m, r).0.graph && c !in m.graph
    ensures var e, n := if c == r.end1.conn then r.end1 else r.end2, DoJoin(m, r).0.graph[c];
            c == e.conn && n.kind == Connection && n.requester == r.requester && n.id == e.id && n.audio == e.audio
  {
    PreparedKeepsInv(m, r);
    CoupleLikes(m.(graph := Prepared(m.graph, r)), r);
  }

  lemma CoupleLikes(m: Mixer, r: Request)
    requires r.Join? && Inv(m.graph) && r.end1.conn in m.graph && r.end2.conn in m.graph
    ensures Couple(m, r).0.graph.Keys == m.graph.Keys
    ensures forall c | c in m.graph :: Like(Couple(m, r).0.graph[c], m.graph[c])
  {
    CoupleAllOrNothing(m, r);
  }

  // A modifyjoin and an unjoin are answered alike: 426 for an end that is not there, 403 for a stranger's,
  // 409 for ends that are not linked. A second end is not looked at behind a stranger's first one.
  ghost predicate Answers(g: map<Conn, NodeState>, requester: nat, a: Conn, b: Conn, code: int) {
    var mine := a in g && g[a].requester == requester;
    && (code == 426 <==> a !in g || (mine && b !in g))
    && (code == 403 <==> a in g && (!mine || (b in g && g[b].requester != requester)))
    && (code == 409 <==> mine && b in g && g[b].requester == requester && !Linked(g, a, b))
    && (code == 200 <==> Reachable(g, requester, a, b))
  }

  lemma ModifyAnswers(m: Mixer, r: Request)
    requires r.ModifyJoin? && Inv(m.graph)
    ensures Answers(m.graph, r.requester, r.end1.conn, r.end2.conn, DoModify(m, r).1)
  {
    ModifyAllOrNothing(m, r);
  }

  lemma UnjoinAnswers(m: Mixer, r: Request)
    requires r.Unjoin? && Inv(m.graph)
    ensures Answers(m.graph, r.requester, r.end1.conn, r.end2.conn, DoUnjoin(m, r).1)
  {
    UnjoinAllOrNothing(m, r);
  }

  // ---- leaving: a connection closes, a conference is destroyed ----

  // Every peer in the order has dropped its link with c, and nothing else has changed.
  lemma {:induction false} LeavePeersGraph(m: Mixer, c: Conn, n: NodeState, order: seq<Conn>)
    requires forall i, j | 0 <= i < j < |order| :: order[i] != order[j]
    requires forall p | p in order :: p in m.graph
    ensures var g' := LeavePeers(m, c, n, order).graph;
            forall p | p in m.graph :: g'[p] == if p in order then Detach(m.graph[p], c, n.audio).0 else m.graph[p]
    decreases |order|
  {
    if order != [] {
      var p := order[0];
      LeavePeersGraph(LeaveStep(m, c, n, p), c, n, order[1..]);
      assert p !in order[1..];
      assert forall q :: q in order <==> q == p || q in order[1..];
    }
  }

  // After a node is removed, no remaining node mentions it, and no other link has changed.
  lemma CloseForgets(m: Mixer, r: Request)
    requires r.Close? && Inv(m.graph) && Allowed(m, r) && r.conn in m.graph
    ensures var g' := DoClose(m, r).0.graph;
            && Inv(g')
            && g'.Keys == m.graph.Keys - {r.conn}
            && (forall p | p in g' :: Like(g'[p], m.graph[p]) && g'[p].links == m.graph[p].links - {r.conn})
            && (forall p | p in g' :: r.conn !in m.graph[p].links ==> g'[p] == m.graph[p])
  {
    var c, g := r.conn, m.graph;
    LeavePeersGraph(m, c, g[c], r.order);
    var g' := DoClose(m, r).0.graph;
    forall p | p in g' ensures
      Sound(g'[p]) && Like(g'[p], g[p]) && g'[p].links == g[p].links - {c} && (c !in g[p].links ==> g'[p] == g[p])
    {
      InvSymmetric(g, p, c);
      if c in g[p].links {
        assert Mirrored(g, p, c);
        SoundDetach(g[p], c, g[c].audio);
      } else {
        assert g[p].links - {c} == g[p].links;
      }
    }
    forall x, y | Linked(g', x, y) ensures Mirrored(g', x, y) {
      assert Mirrored(g, x, y);
    }
  }

  // ---- over all runs ----

  lemma StepKeepsInv(m: Mixer, r: Request)
    requires Inv(m.graph) && Allowed(m, r)
    ensures Inv(Step(m, r).0.graph)
  {
    match r
    case CreateConference(c, q, id) =>
      if c !in m.graph { NewNodeKeepsInv(m.graph, c, NewConference(q, id)); }
    case Join(_, _, _, _, _, _) => JoinAllOrNothing(m, r);
    case ModifyJoin(_, _, _, _, _, _) => ModifyAllOrNothing(m, r);
    case Unjoin(_, _, _) => UnjoinAllOrNothing(m, r);
    case Close(_, _) => if r.conn in m.graph { CloseForgets(m, r); }
  }

  // The states of a run that starts with no node at all.
  ghost predicate IsRun(states: seq<Mixer>, requests: seq<Request>) {
    && |states| == |requests| + 1
    && states[0] == EMPTY
    && forall i | 0 <= i < |requests| ::
         Allowed(states[i], requests[i]) && states[i + 1] == Step(states[i], requests[i]).0
  }

  lemma {:induction false} RunKeepsInv(states: seq<Mixer>, requests: seq<Request>, i: nat)
    requires IsRun(states, requests) && i < |states|
    ensures Inv(states[i].graph)
  {
    if i > 0 {
      RunKeepsInv(states, requests, i - 1);
      assert states[i] == Step(states[i - 1], requests[i - 1]).0;
      StepKeepsInv(states[i - 1], requests[i - 1]);
    }
  }

  // In every reachable state: links are stored on both sides with reversed directions, no
  // connection counts a received stream, and one that sends is registered for its frames.
  lemma ReachableStates(states: seq<Mixer>, requests: seq<Request>, i: nat, a: Conn, b: Conn)
    requires IsRun(states, requests) && i < |states|
    requires a in states[i].graph
    ensures var g := states[i].graph;
            && (a != b ==> (Linked(g, a, b) <==> Linked(g, b, a)))
            && (a != b && Linked(g, a, b) ==> b in g && g[b].links[a] == Reverse(g[a].links[b]))
            && (b in g[a].links ==> b in g)
            && (g[a].kind.Connection? ==>
                  && g[a].receiving == 0
                  && |Senders(g[a].links)| <= g[a].sending
                  && (Senders(g[a].links) != {} ==> g[a].registered))
            && (g[a].kind.Conference? ==> !Linked(g, a, a) && (Linked(g, a, b) ==> g[b].audio))
  {
    RunKeepsInv(states, requests, i);
    var g := states[i].graph;
    if a != b { InvSymmetric(g, a, b); }
    if b in g[a].links { assert Mirrored(g, a, b); }
    if a in g[a].links { assert Mirrored(g, a, a); }
  }
}
