// At which volume the two ends of a link hear each other, and what a listener of a conference is handed.
module MixerVolumes {
  import opened MixerNodes
  import opened MixerLinks
  import opened MixerTick
  import opened Options

  // The entry of a peer after a request: muted exactly if the request says so, at the percentage that it
  // gives, or else at the one that applies without.
  ghost predicate Heeds(n: NodeState, peer: Conn, volume: int, otherwise: int) {
    && peer in n.links && peer in n.volumes && peer in n.mutes
    && (n.mutes[peer] <==> volume == VOLUME_MUTE)
    && (volume >= 0 ==> n.volumes[peer] == volume)
    && (volume < 0 ==> n.volumes[peer] == otherwise)
  }

  ghost predicate SameEntry(m: NodeState, n: NodeState, q: Conn) {
    && (q in m.volumes <==> q in n.volumes) && (q in m.mutes <==> q in n.mutes)
    && (q in n.volumes ==> m.volumes[q] == n.volumes[q]) && (q in n.mutes ==> m.mutes[q] == n.mutes[q])
  }

  lemma VolumeHeeds(n: NodeState, p: Conn, volume: int)
    requires p in n.links
    ensures Heeds(WithVolume(n, p, volume), p, volume, 100)
    ensures forall q | q != p :: SameEntry(WithVolume(n, p, volume), n, q)
  {
  }

  lemma NewVolumeHeeds(n: NodeState, p: Conn, volume: int)
    requires p in n.links && p in n.volumes
    ensures Heeds(WithNewVolume(n, p, volume), p, volume, Otherwise(n, p, volume))
    ensures forall q | q != p :: SameEntry(WithNewVolume(n, p, volume), n, q)
  {
  }

  ghost predicate SameEntries(m: NodeState, n: NodeState) {
    m.volumes == n.volumes && m.mutes == n.mutes && m.links == n.links
  }

  lemma AttachSets(n: NodeState, p: Conn, peerAudio: bool, d: Direction, volume: int)
    requires Attach(n, p, peerAudio, d, volume).1 == 0
    ensures SameEntries(Attach(n, p, peerAudio, d, volume).0, WithVolume(n.(links := n.links[p := d]), p, volume))
  {
    var v := WithVolume(n.(links := n.links[p := d]), p, volume);
    assert SameEntries(StartSending(v), v);
  }

  lemma AttachHeeds(n: NodeState, p: Conn, peerAudio: bool, d: Direction, volume: int)
    requires Attach(n, p, peerAudio, d, volume).1 == 0
    ensures Heeds(Attach(n, p, peerAudio, d, volume).0, p, volume, 100)
    ensures forall q | q != p :: SameEntry(Attach(n, p, peerAudio, d, volume).0, n, q)
  {
    AttachSets(n, p, peerAudio, d, volume);
    VolumeHeeds(n.(links := n.links[p := d]), p, volume);
  }

  // A conference that mutes or unmutes a peer forgets its percentage, a connection keeps it.
  ghost function Otherwise(n: NodeState, peer: Conn, volume: int): int
    requires peer in n.volumes
  {
    if n.kind.Conference? && (volume == VOLUME_MUTE || volume == VOLUME_UNMUTE) then 100 else n.volumes[peer]
  }

  lemma ModifyHeeds(n: NodeState, p: Conn, peerAudio: bool, d: Direction, volume: int)
    requires Sound(n) && p in n.links && (n.kind.Conference? ==> peerAudio)
    ensures p in n.volumes
    ensures Heeds(Modify(n, p, peerAudio, d, volume).0, p, volume, Otherwise(n, p, volume))
    ensures forall q | q != p :: SameEntry(Modify(n, p, peerAudio, d, volume).0, n, q)
  {
    ModifySets(n, p, peerAudio, d, volume);
    NewVolumeHeeds(n, p, volume);
  }

  lemma ModifySets(n: NodeState, p: Conn, peerAudio: bool, d: Direction, volume: int)
    requires Sound(n) && p in n.links && (n.kind.Conference? ==> peerAudio)
    ensures SameEntries(Modify(n, p, peerAudio, d, volume).0, WithNewVolume(n, p, volume).(links := n.links[p := d]))
  {
    SoundModify(n, p, peerAudio, d, volume);
    var v := WithNewVolume(n, p, volume);
    assert SameEntries(StartSending(v), v);
    assert StopSending(n).volumes == n.volumes && StopSending(n).mutes == n.mutes && StopSending(n).kind == n.kind;
  }

  lemma DetachSets(n: NodeState, p: Conn, peerAudio: bool)
    ensures Detach(n, p, peerAudio).0.volumes == n.volumes && Detach(n, p, peerAudio).0.mutes == n.mutes
  {
  }

  lemma DetachKeepsEntries(n: NodeState, p: Conn, peerAudio: bool)
    ensures forall q :: SameEntry(Detach(n, p, peerAudio).0, n, q)
  {
    DetachSets(n, p, peerAudio);
  }

  // A node that has written its link to a peer, with the volume for it
  ghost predicate Writes(m: NodeState, n: NodeState, p: Conn, d: Direction) {
    m.links == n.links[p := d] && forall q | q != p :: SameEntry(m, n, q)
  }

  lemma JoinedEnds(m: Mixer, r: Request)
    requires r.Join? && Inv(m.graph) && DoJoin(m, r).1 == 200
    ensures var a, b, g, h := r.end1.conn, r.end2.conn, DoJoin(m, r).0.graph, Prepared(m.graph, r);
            && a in g && b in g && Heeds(g[a], b, r.volume1, 100) && Writes(g[a], h[a], b, r.d)
            && (a != b ==> Heeds(g[b], a, r.volume2, 100) && Writes(g[b], h[b], a, Reverse(r.d)))
  {
    var a, b, h := r.end1.conn, r.end2.conn, Prepared(m.graph, r);
    JoinAllOrNothing(m, r);
    AttachHeeds(h[a], b, h[b].audio, r.d, r.volume1);
    AttachHeeds(h[b], a, h[a].audio, Reverse(r.d), r.volume2);
  }

  // The volume that a request gives a node for a peer
  function Asked(r: Request, a: Conn, q: Conn): Option<int> {
    if !r.Join? && !r.ModifyJoin? then None
    else if r.end1.conn == a && r.end2.conn == q then Some(r.volume1)
    else if r.end1.conn == q && r.end2.conn == a then Some(r.volume2)
    else None
  }

  // A link that is there after another request, or a failing one, was there before, with the same entry.
  ghost predicate EntryStays(g: map<Conn, NodeState>, g': map<Conn, NodeState>, a: Conn, q: Conn) {
    Linked(g', a, q) ==> Linked(g, a, q) && SameEntry(g'[a], g[a], q)
  }

  lemma WritingStays(g: map<Conn, NodeState>, h: map<Conn, NodeState>, g': map<Conn, NodeState>, r: Request,
                     d: Direction, e: Direction, a: Conn, q: Conn)
    requires r.Join? || r.ModifyJoin?
    requires r.end1.conn in h && r.end2.conn in h && NothingLinked(h, g)
    requires OthersSame(g', h, r.end1.conn, r.end2.conn) && (forall c | c in g :: h[c] == g[c])
    requires Writes(g'[r.end1.conn], h[r.end1.conn], r.end2.conn, d)
    requires r.end1.conn != r.end2.conn ==> Writes(g'[r.end2.conn], h[r.end2.conn], r.end1.conn, e)
    requires Asked(r, a, q).None?
    ensures EntryStays(g, g', a, q)
  {
    if Linked(g', a, q) {
      if a == r.end1.conn { assert q != r.end2.conn && q in h[a].links && SameEntry(g'[a], h[a], q); }
      else if a == r.end2.conn { assert q != r.end1.conn && q in h[a].links && SameEntry(g'[a], h[a], q); }
      else { assert g'[a] == h[a]; }
    }
  }

  // A successful join: the first end takes the first volume and the second end the second one, 100 percent
  // where it gives none, and no other entry changes.
  lemma JoinHeeds(m: Mixer, r: Request)
    requires r.Join? && Inv(m.graph) && DoJoin(m, r).1 == 200
    ensures var a, b, g := r.end1.conn, r.end2.conn, DoJoin(m, r).0.graph;
            && a in g && b in g && Heeds(g[a], b, r.volume1, 100) && (a != b ==> Heeds(g[b], a, r.volume2, 100))
            && forall x, y :: Asked(r, x, y).None? ==> EntryStays(m.graph, g, x, y)
  {
    JoinedEnds(m, r);
    JoinAllOrNothing(m, r);
    PreparedKeepsInv(m, r);
    forall x, y | Asked(r, x, y).None? ensures EntryStays(m.graph, DoJoin(m, r).0.graph, x, y) {
      WritingStays(m.graph, Prepared(m.graph, r), DoJoin(m, r).0.graph, r, r.d, Reverse(r.d), x, y);
    }
  }

  // The same for a modifyjoin, which keeps what it does not give.
  lemma ModifyJoinHeeds(m: Mixer, r: Request)
    requires r.ModifyJoin? && Inv(m.graph) && DoModify(m, r).1 == 200
    ensures var a, b, g, g' := r.end1.conn, r.end2.conn, m.graph, DoModify(m, r).0.graph;
            && Linked(g, a, b) && b in g[a].volumes && Linked(g', a, b)
            && Heeds(g'[a], b, r.volume1, Otherwise(g[a], b, r.volume1))
            && (a != b ==> Linked(g, b, a) && a in g[b].volumes && Linked(g', b, a)
                           && Heeds(g'[b], a, r.volume2, Otherwise(g[b], a, r.volume2)))
            && forall x, y :: Asked(r, x, y).None? ==> EntryStays(g, g', x, y)
  {
    var a, b, g, g' := r.end1.conn, r.end2.conn, m.graph, DoModify(m, r).0.graph;
    ModifiedEnds(m, r);
    ModifyAllOrNothing(m, r);
    forall x, y | Asked(r, x, y).None? ensures EntryStays(g, g', x, y) {
      WritingStays(g, g, g', r, r.d, Reverse(r.d), x, y);
    }
  }

  lemma ModifiedEnds(m: Mixer, r: Request)
    requires r.ModifyJoin? && Inv(m.graph) && DoModify(m, r).1 == 200
    ensures var a, b, g, g' := r.end1.conn, r.end2.conn, m.graph, DoModify(m, r).0.graph;
            && Linked(g, a, b) && b in g[a].volumes && a in g'
            && Heeds(g'[a], b, r.volume1, Otherwise(g[a], b, r.volume1)) && Writes(g'[a], g[a], b, r.d)
            && (a != b ==> Linked(g, b, a) && a in g[b].volumes && b in g'
                           && Heeds(g'[b], a, r.volume2, Otherwise(g[b], a, r.volume2))
                           && Writes(g'[b], g[b], a, Reverse(r.d)))
  {
    var a, b, g := r.end1.conn, r.end2.conn, m.graph;
    ModifyAllOrNothing(m, r);
    assert Mirrored(g, a, b);
    ModifyHeeds(g[a], b, g[b].audio, r.d, r.volume1);
    if a != b {
      assert Mirrored(g, b, a);
      ModifyHeeds(g[b], a, g[a].audio, Reverse(r.d), r.volume2);
    }
  }

  // ---- over whole runs ----

  lemma AskedHeeds(m: Mixer, r: Request, a: Conn, q: Conn)
    requires Inv(m.graph) && Allowed(m, r) && Step(m, r).1 == 200 && Asked(r, a, q).Some?
    ensures a in Step(m, r).0.graph
    ensures r.Join? ==> Heeds(Step(m, r).0.graph[a], q, Asked(r, a, q).value, 100)
    ensures r.ModifyJoin? ==>
              && Linked(m.graph, a, q) && q in m.graph[a].volumes
              && Heeds(Step(m, r).0.graph[a], q, Asked(r, a, q).value, Otherwise(m.graph[a], q, Asked(r, a, q).value))
  {
    if r.Join? { JoinHeeds(m, r); } else { ModifyJoinHeeds(m, r); }
  }

  lemma FailedJoinStays(m: Mixer, r: Request, a: Conn, q: Conn)
    requires r.Join? && Inv(m.graph) && DoJoin(m, r).1 != 200
    ensures EntryStays(m.graph, DoJoin(m, r).0.graph, a, q)
  {
    var x, y, h := r.end1.conn, r.end2.conn, Prepared(m.graph, r);
    PreparedKeepsInv(m, r);
    JoinAllOrNothing(m, r);
    if h[x].requester == r.requester && h[y].requester == r.requester && x != y {
      FailedCoupleStays(m.(graph := h), r, a, q);
    }
  }

  lemma FailedCoupleStays(m: Mixer, r: Request, a: Conn, q: Conn)
    requires r.Join? && Inv(m.graph) && r.end1.conn in m.graph && r.end2.conn in m.graph
    requires r.end1.conn != r.end2.conn && Couple(m, r).1 != 200
    ensures EntryStays(m.graph, Couple(m, r).0.graph, a, q)
  {
    var x, y, h := r.end1.conn, r.end2.conn, m.graph;
    CoupleAllOrNothing(m, r);
    if !Linked(h, x, y) && !(h[x].kind.Conference? && !h[y].audio) {
      RolledBack(m, r);
      UndoneEntries(m, r);
      if a == x && q == y { assert !Linked(Couple(m, r).0.graph, x, y); }
    } else {
      FirstHalf(m, r);
    }
  }

  // A rollback leaves an entry for the peer only.
  lemma UndoneEntries(m: Mixer, r: Request)
    requires r.Join? && Inv(m.graph) && r.end1.conn in m.graph && r.end2.conn in m.graph
    requires r.end1.conn != r.end2.conn && Couple(m, r).1 != 200 && !Linked(m.graph, r.end1.conn, r.end2.conn)
    requires m.graph[r.end1.conn].kind.Conference? ==> m.graph[r.end2.conn].audio
    ensures r.end1.conn in Couple(m, r).0.graph
    ensures forall q | q != r.end2.conn :: SameEntry(Couple(m, r).0.graph[r.end1.conn], m.graph[r.end1.conn], q)
  {
    var x, y, h := r.end1.conn, r.end2.conn, m.graph;
    SoundAttach(h[x], y, h[y].audio, r.d, r.volume1);
    var na := Attach(h[x], y, h[y].audio, r.d, r.volume1).0;
    AttachHeeds(h[x], y, h[y].audio, r.d, r.volume1);
    DetachKeepsEntries(na, y, h[y].audio);
    UndoneNode(m, r, na);
    forall q | q != y ensures SameEntry(Detach(na, y, h[y].audio).0, h[x], q) {
      assert SameEntry(na, h[x], q);
    }
  }

  lemma UndoneNode(m: Mixer, r: Request, na: NodeState)
    requires r.Join? && Inv(m.graph) && r.end1.conn in m.graph && r.end2.conn in m.graph
    requires r.end1.conn != r.end2.conn && Couple(m, r).1 != 200 && !Linked(m.graph, r.end1.conn, r.end2.conn)
    requires (na, 0) == Attach(m.graph[r.end1.conn], r.end2.conn, m.graph[r.end2.conn].audio, r.d, r.volume1)
    ensures r.end1.conn in Couple(m, r).0.graph
    ensures Couple(m, r).0.graph[r.end1.conn] == Detach(na, r.end2.conn, m.graph[r.end2.conn].audio).0
  {
    InvSymmetric(m.graph, r.end1.conn, r.end2.conn);
    SecondHalfFails(m.graph, r.end1.conn, r.end2.conn, r.d, r.volume1, r.volume2);
  }

  lemma OtherModifyStays(m: Mixer, r: Request, a: Conn, q: Conn)
    requires r.ModifyJoin? && Inv(m.graph) && (DoModify(m, r).1 != 200 || Asked(r, a, q).None?)
    ensures EntryStays(m.graph, DoModify(m, r).0.graph, a, q)
  {
    ModifyAllOrNothing(m, r);
    if DoModify(m, r).1 == 200 { ModifyJoinHeeds(m, r); }
  }

  lemma UnjoinStays(m: Mixer, r: Request, a: Conn, q: Conn)
    requires r.Unjoin? && Inv(m.graph)
    ensures EntryStays(m.graph, DoUnjoin(m, r).0.graph, a, q)
  {
    UnjoinAllOrNothing(m, r);
    if DoUnjoin(m, r).1 == 200 { UnjoinedEntries(m, r); }
  }

  lemma UnjoinedEntries(m: Mixer, r: Request)
    requires r.Unjoin? && Inv(m.graph) && DoUnjoin(m, r).1 == 200
    ensures var x, y, g, g' := r.end1.conn, r.end2.conn, m.graph, DoUnjoin(m, r).0.graph;
            && x in g && y in g && x in g' && y in g'
            && forall q :: SameEntry(g'[x], g[x], q) && SameEntry(g'[y], g[y], q)
  {
    var x, y, g, g' := r.end1.conn, r.end2.conn, m.graph, DoUnjoin(m, r).0.graph;
    DetachSets(g[x], y, g[y].audio);
    DetachSets(g[y], x, g[x].audio);
    assert g'[x].volumes == g[x].volumes && g'[x].mutes == g[x].mutes;
    assert g'[y].volumes == g[y].volumes && g'[y].mutes == g[y].mutes;
  }

  lemma CloseStays(m: Mixer, r: Request, a: Conn, q: Conn)
    requires r.Close? && Inv(m.graph) && Allowed(m, r)
    ensures EntryStays(m.graph, DoClose(m, r).0.graph, a, q)
  {
    if r.conn in m.graph && Linked(DoClose(m, r).0.graph, a, q) {
      CloseForgets(m, r);
      LeavePeersGraph(m, r.conn, m.graph[r.conn], r.order);
      DetachKeepsEntries(m.graph[a], r.conn, m.graph[r.conn].audio);
    }
  }

  lemma OthersStay(m: Mixer, r: Request, a: Conn, q: Conn)
    requires Inv(m.graph) && Allowed(m, r) && (Step(m, r).1 != 200 || Asked(r, a, q).None?)
    ensures EntryStays(m.graph, Step(m, r).0.graph, a, q)
  {
    match r
    case CreateConference(_, _, _) =>
    case Join(_, _, _, _, _, _) =>
      if DoJoin(m, r).1 == 200 { JoinHeeds(m, r); } else { FailedJoinStays(m, r, a, q); }
    case ModifyJoin(_, _, _, _, _, _) => OtherModifyStays(m, r, a, q);
    case Unjoin(_, _, _) => UnjoinStays(m, r, a, q);
    case Close(_, _) => CloseStays(m, r, a, q);
  }

  // What the requests so far want a node to do with a peer: whether it is muted, and at what percentage
  ghost function Wanted(states: seq<Mixer>, requests: seq<Request>, i: nat, a: Conn, q: Conn): (bool, int)
    requires IsRun(states, requests) && i < |states|
  {
    if i == 0 then (false, 100)
    else Wants(states[i - 1], requests[i - 1], a, q, Wanted(states, requests, i - 1, a, q))
  }

  ghost function Wants(m: Mixer, r: Request, a: Conn, q: Conn, before: (bool, int)): (bool, int)
    requires Allowed(m, r)
  {
    if Step(m, r).1 != 200 || Asked(r, a, q).None? then before
    else
      var v := Asked(r, a, q).value;
      var resets := r.Join? || (IsConference(m.graph, a) && v in {VOLUME_MUTE, VOLUME_UNMUTE});
      (v == VOLUME_MUTE, if v >= 0 then v else if resets then 100 else before.1)
  }

  ghost predicate Entered(g: map<Conn, NodeState>, a: Conn, q: Conn, wanted: (bool, int)) {
    Linked(g, a, q) ==> q in g[a].volumes && q in g[a].mutes && (g[a].mutes[q], g[a].volumes[q]) == wanted
  }

  lemma StepHeeds(m: Mixer, r: Request, a: Conn, q: Conn, before: (bool, int))
    requires Inv(m.graph) && Allowed(m, r) && Entered(m.graph, a, q, before)
    ensures Entered(Step(m, r).0.graph, a, q, Wants(m, r, a, q, before))
  {
    if Step(m, r).1 != 200 || Asked(r, a, q).None? {
      OthersStay(m, r, a, q);
    } else {
      AskedHeeds(m, r, a, q);
    }
  }

  // In every run, the entries of every link are what the requests want.
  lemma {:induction false} RunHeeds(states: seq<Mixer>, requests: seq<Request>, i: nat, a: Conn, q: Conn)
    requires IsRun(states, requests) && i < |states|
    ensures Entered(states[i].graph, a, q, Wanted(states, requests, i, a, q))
  {
    if i > 0 {
      RunKeepsInv(states, requests, i - 1);
      RunHeeds(states, requests, i - 1, a, q);
      assert states[i] == Step(states[i - 1], requests[i - 1]).0;
      StepHeeds(states[i - 1], requests[i - 1], a, q, Wanted(states, requests, i - 1, a, q));
    }
  }

  // In every run, a peer takes part in the mix of a round if and only if it is joined to the conference, its own
  // side of the link sends, and a frame of its waits.
  lemma RunContributes(states: seq<Mixer>, requests: seq<Request>, i: nat, c: Conn, p: Conn,
                       queued: map<Conn, seq<Frame>>)
    requires IsRun(states, requests) && i < |states| && IsConference(states[i].graph, c)
    ensures p in Contributors(states[i].graph[c].(queued := queued)) <==>
            && Linked(states[i].graph, p, c) && states[i].graph[p].links[c].Sends()
            && p in queued && queued[p] != []
  {
    var g := states[i].graph;
    RunKeepsInv(states, requests, i);
    if Linked(g, c, p) { assert Mirrored(g, c, p); }
    if p != c {
      InvSymmetric(g, c, p);
      if Linked(g, c, p) { ReverseInvolution(g[c].links[p]); }
    }
  }

  // In every run, a peer of a conference gets a frame each round if and only if its direction lets the
  // conference send to it and the requests do not want it muted.
  lemma RunListens(states: seq<Mixer>, requests: seq<Request>, i: nat, c: Conn, p: Conn)
    requires IsRun(states, requests) && i < |states| && IsConference(states[i].graph, c)
    ensures states[i].graph[c].links.Keys <= states[i].graph[c].mutes.Keys
    ensures p in Listeners(states[i].graph[c]) <==>
            && Linked(states[i].graph, p, c) && states[i].graph[p].links[c].Receives()
            && !Wanted(states, requests, i, c, p).0
  {
    RunKeepsInv(states, requests, i);
    assert Sound(states[i].graph[c]);
    RunHeeds(states, requests, i, c, p);
    if Linked(states[i].graph, c, p) || Linked(states[i].graph, p, c) { LinkedSides(states[i].graph, c, p); }
  }

  lemma LinkedSides(g: map<Conn, NodeState>, c: Conn, p: Conn)
    requires Inv(g) && IsConference(g, c) && (Linked(g, c, p) || Linked(g, p, c))
    ensures Linked(g, c, p) && Linked(g, p, c) && (g[c].links[p].Sends() <==> g[p].links[c].Receives())
  {
    if p != c { InvSymmetric(g, c, p); }
    SidesAgree(g, c, p);
  }

  ghost function OfOthers(n: NodeState, bots: Bots, p: Conn, k: nat): int
    requires k < SAMPLES
  {
    MixedBy(n, Contributors(n) - {p}, bots != map[], k)
  }

  // A sum at a percentage, and the sum itself at full volume, as far as a short goes
  ghost predicate HeardOf(h: Short, sum: int, volume: int) {
    Hundredth(h, sum * volume) && (volume == 100 && -32768 <= sum <= 32767 ==> h == sum)
  }

  // What it is handed is the sum of announcements and all other contributors at the percentage that the
  // requests want; where they give none, that is the short nearest to the sum.
  lemma RunHears(states: seq<Mixer>, requests: seq<Request>, i: nat, c: Conn, p: Conn, bots: Bots, carry: int, k: nat)
    requires IsRun(states, requests) && i < |states| && k < SAMPLES && Linked(states[i].graph, c, p)
    ensures Handed(states[i].graph, c, p, bots, carry, k, Wanted(states, requests, i, c, p).1)
  {
    RunHeeds(states, requests, i, c, p);
    EnteredHears(states[i].graph, c, p, bots, carry, k, Wanted(states, requests, i, c, p));
  }

  ghost predicate Handed(g: map<Conn, NodeState>, c: Conn, p: Conn, bots: Bots, carry: int, k: nat, volume: int)
    requires k < SAMPLES && Linked(g, c, p)
  {
    && p in g[c].volumes
    && HeardOf(Heard(g[c], bots, carry, p, k), carry + Announced(bots, k) + OfOthers(g[c], bots, p, k), volume)
  }

  lemma EnteredHears(g: map<Conn, NodeState>, c: Conn, p: Conn, bots: Bots, carry: int, k: nat, wanted: (bool, int))
    requires k < SAMPLES && Linked(g, c, p) && Entered(g, c, p, wanted)
    ensures Handed(g, c, p, bots, carry, k, wanted.1)
  {
    var sum := carry + Announced(bots, k) + OfOthers(g[c], bots, p, k);
    HeardIs(g[c], bots, carry, p, k);
    HundredthHeard(Heard(g[c], bots, carry, p, k), sum, wanted.1);
  }

  lemma HundredthHeard(h: Short, sum: int, volume: int)
    requires Hundredth(h, sum * volume)
    ensures HeardOf(h, sum, volume)
  {
    if volume == 100 { FullVolumeIsNearest(h, sum, 0); }
  }
}
