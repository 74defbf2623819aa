// The record of successful joins that keeps an unjoin from being notified twice: what it counts in every
// run, and when every link is sure to be told of when it ends.
module JoinLedger {
  import opened MixerNodes
  import opened MixerLinks
  import opened JoinRecord

  // ---- accounting, in every run ----

  // A successful join whose key is recorded already adds no entry.
  ghost predicate Merges(m: Mixer, r: Request)
    requires Allowed(m, r)
  {
    r.Join? && Step(m, r).1 == 200 && Key(r.end1.id, r.end2.id) in m.joins
  }

  ghost predicate Joins(m: Mixer, r: Request)
    requires Allowed(m, r)
  {
    r.Join? && Step(m, r).1 == 200
  }

  ghost function Successes(states: seq<Mixer>, requests: seq<Request>, i: nat): nat
    requires IsRun(states, requests) && i <= |requests|
  {
    if i == 0 then 0 else
      Successes(states, requests, i - 1) + if Joins(states[i - 1], requests[i - 1]) then 1 else 0
  }

  ghost function Merged(states: seq<Mixer>, requests: seq<Request>, i: nat): nat
    requires IsRun(states, requests) && i <= |requests|
  {
    if i == 0 then 0 else
      Merged(states, requests, i - 1) + if Merges(states[i - 1], requests[i - 1]) then 1 else 0
  }

  function Balance(m: Mixer): nat { |m.joins| + |m.notices| }

  lemma NotifyKeepsBalance(m: Mixer, requester: nat, id1: string, id2: string, reason: Reason)
    ensures Balance(NotifyUnjoin(m, requester, id1, id2, reason)) == Balance(m)
    ensures NotifyUnjoin(m, requester, id1, id2, reason).graph == m.graph
  {
  }

  lemma {:induction false} LeavePeersKeepsBalance(m: Mixer, c: Conn, n: NodeState, order: seq<Conn>)
    requires forall p | p in order :: p in m.graph
    ensures Balance(LeavePeers(m, c, n, order)) == Balance(m)
    decreases |order|
  {
    if order != [] {
      var p := order[0];
      var m1 := m.(graph := m.graph[p := Detach(m.graph[p], c, n.audio).0]);
      NotifyKeepsBalance(m1, n.requester, n.id, m.graph[p].id, Terminated);
      LeavePeersKeepsBalance(LeaveStep(m, c, n, p), c, n, order[1..]);
    }
  }

  lemma CoupleBalance(m: Mixer, r: Request)
    requires r.Join? && Inv(m.graph) && r.end1.conn in m.graph && r.end2.conn in m.graph
    ensures var (m', code) := Couple(m, r);
            Balance(m') == Balance(m) + if code == 200 && Key(r.end1.id, r.end2.id) !in m.joins then 1 else 0
  {
    CoupleAllOrNothing(m, r);
    var a, b, h := r.end1.conn, r.end2.conn, m.graph;
    if Couple(m, r).1 == 200 {
      var k := Key(r.end1.id, r.end2.id);
      if k in m.joins { assert m.joins + {k} == m.joins; }
    } else {
      if a == b {
        EchoAllOrNothing(m, r);
      } else if b in h[a].links || (h[a].kind.Conference? && !h[b].audio) {
        FirstHalf(m, r);
      } else {
        RolledBack(m, r);
        NotifyKeepsBalance(m.(graph := Couple(m, r).0.graph), r.requester, h[a].id, h[b].id, UnjoinError);
      }
    }
  }

  lemma JoinBalance(m: Mixer, r: Request)
    requires r.Join? && Inv(m.graph)
    ensures Balance(DoJoin(m, r).0) == Balance(m) + if Joins(m, r) && !Merges(m, r) then 1 else 0
  {
    PreparedKeepsInv(m, r);
    CoupleBalance(m.(graph := Prepared(m.graph, r)), r);
  }

  lemma StepBalance(m: Mixer, r: Request)
    requires Inv(m.graph) && Allowed(m, r)
    ensures Balance(Step(m, r).0) == Balance(m) + if Joins(m, r) && !Merges(m, r) then 1 else 0
  {
    match r
    case CreateConference(_, _, _) =>
    case Join(_, _, _, _, _, _) => JoinBalance(m, r);
    case ModifyJoin(_, _, _, _, _, _) => ModifyAllOrNothing(m, r);
    case Unjoin(_, _, _) =>
      UnjoinAllOrNothing(m, r);
      var m' := DoUnjoin(m, r).0;
      if Reachable(m.graph, r.requester, r.end1.conn, r.end2.conn) {
        NotifyKeepsBalance(m.(graph := m'.graph), r.requester, m.graph[r.end1.conn].id, m.graph[r.end2.conn].id,
          UnjoinRequest);
      }
    case Close(c, order) => if c in m.graph { LeavePeersKeepsBalance(m, c, m.graph[c], order); }
  }

  // In every run: unjoin notifications, entries still recorded and joins whose entry was there
  // already add up to the successful joins, so each join is notified at most once.
  lemma {:induction false} RunBalance(states: seq<Mixer>, requests: seq<Request>, i: nat)
    requires IsRun(states, requests) && i <= |requests|
    ensures |states[i].joins| + |states[i].notices| + Merged(states, requests, i) == Successes(states, requests, i)
    ensures |states[i].notices| <= Successes(states, requests, i)
  {
    if i > 0 {
      RunBalance(states, requests, i - 1);
      RunKeepsInv(states, requests, i - 1);
      StepBalance(states[i - 1], requests[i - 1]);
    }
  }

  // ---- the links between two nodes and their entries ----

  type Link = (Conn, Conn)

  // A link, named once
  function Pair(a: Conn, b: Conn): Link { if a < b then (a, b) else (b, a) }

  ghost function Pairs(g: map<Conn, NodeState>): set<Link> {
    set a, b | a in g && b in g[a].links && a < b :: (a, b)
  }

  function Ids(g: map<Conn, NodeState>): map<Conn, string> {
    map c | c in g :: g[c].id
  }

  // The two strings that a link may be recorded under; the record is sorted.
  function Wished(id1: string, id2: string): Wish<string> {
    Wish(Key(id1, id2), Key(id2, id1), Before(Key(id2, id1), Key(id1, id2)))
  }

  ghost function Wishes(ids: map<Conn, string>): Link -> Wish<string> {
    (l: Link) => if l.0 in ids && l.1 in ids then Wished(ids[l.0], ids[l.1]) else Wished("", "")
  }

  // The entries of nodes that are joined to themselves
  ghost predicate Echo(k: string) { exists z: string :: k == Key(z, z) }

  ghost function Echoes(joins: set<string>): set<string> { set k | k in joins && Echo(k) }

  // In whatever order the live links end: each of them sends its notice, and no other entry is taken than
  // theirs, so that only those of nodes joined to themselves are left.
  ghost predicate AllLinksTold(m: Mixer) {
    AllTold(m.joins, Pairs(m.graph), Wishes(Ids(m.graph)), Echoes(m.joins))
  }

  lemma {:induction false} BeforeTotal(s: string, t: string)
    ensures s == t || Before(s, t) || Before(t, s)
    ensures !(Before(s, t) && Before(t, s)) && !Before(s, s)
    decreases |s|
  {
    if s != [] {
      BeforeTotal(s[1..], s[1..]);
      if t != [] {
        BeforeTotal(s[1..], t[1..]);
        if s[0] == t[0] && s[1..] == t[1..] { assert s == [s[0]] + s[1..] == t; }
      }
    }
  }

  lemma WishedTurned(id1: string, id2: string)
    ensures Alike(Wished(id1, id2), Wished(id2, id1))
  {
    BeforeTotal(Key(id1, id2), Key(id2, id1));
  }

  // The notification takes the entry of the link, from whichever side the link is named; without an entry
  // there is no notice.
  lemma NotifyTakes(m: Mixer, c: Wish<string>, requester: nat, id1: string, id2: string, reason: Reason)
    requires Alike(c, Wished(id1, id2))
    ensures NotifyUnjoin(m, requester, id1, id2, reason) ==
            if !On(m.joins, c) then m
            else m.(joins := m.joins - {Entry(m.joins, c)},
                    notices := m.notices + [Notice(requester, id1, id2, reason)])
  {
    EntryAlike(m.joins, c, Wished(id1, id2));
  }

  // What is left for good stays the same as long as only entries of links are taken.
  lemma EchoesStay(joins: set<string>, joins': set<string>, live: set<Link>, wish: Link -> Wish<string>)
    requires joins' <= joins && AllTold(joins', live, wish, Echoes(joins))
    ensures Echoes(joins') == Echoes(joins)
  {
    ToldCounts(joins', live, wish, Echoes(joins));
  }

  // The notices that tell of two nodes
  function TellOfTwo(notices: seq<Notice>): nat {
    if notices == [] then 0
    else TellOfTwo(notices[..|notices| - 1]) + if notices[|notices| - 1].id1 != notices[|notices| - 1].id2 then 1 else 0
  }

  // A live link that ends sends one notice, and the others stay sure of theirs.
  lemma LinkEnds(m: Mixer, live: set<Link>, ids: map<Conn, string>, rest: set<string>, l: Link,
                 requester: nat, id1: string, id2: string, reason: Reason)
    requires AllTold(m.joins, live, Wishes(ids), rest) && l in live && Echoes(m.joins) <= rest
    requires Alike(Wishes(ids)(l), Wished(id1, id2))
    ensures var m' := NotifyUnjoin(m, requester, id1, id2, reason);
            && AllTold(m'.joins, live - {l}, Wishes(ids), rest) && m'.joins <= m.joins
            && m'.notices == m.notices + [Notice(requester, id1, id2, reason)] && m'.graph == m.graph
            && TellOfTwo(m'.notices) == TellOfTwo(m.notices) + 1
  {
    var c := Wishes(ids)(l);
    ToldStep(m.joins, live, Wishes(ids), rest, l);
    ToldFinds(m.joins, live, Wishes(ids), rest, l);
    NotifyTakes(m, c, requester, id1, id2, reason);
    EntryAlike(m.joins, c, Wished(id1, id2));
    assert Echo(Key(id1, id1));
    var n := Notice(requester, id1, id2, reason);
    assert (m.notices + [n])[..|m.notices|] == m.notices;
  }

  // ---- the graph ----

  lemma PairsPrepared(m: Mixer, r: Request)
    requires r.Join? && Inv(m.graph)
    ensures Pairs(Prepared(m.graph, r)) == Pairs(m.graph)
    ensures forall l | l in Pairs(m.graph) :: Wishes(Ids(Prepared(m.graph, r)))(l) == Wishes(Ids(m.graph))(l)
  {
    var h := Prepared(m.graph, r);
    assert forall c | c in m.graph :: h[c] == m.graph[c];
    assert forall c | c in h && c !in m.graph :: h[c].links == map[];
    forall l | l in Pairs(m.graph) ensures l.0 in m.graph && l.1 in m.graph { assert Mirrored(m.graph, l.0, l.1); }
  }

  lemma PairsKnown(g: map<Conn, NodeState>, l: Link)
    requires Inv(g) && l in Pairs(g)
    ensures l.0 in Ids(g) && l.1 in Ids(g) && l.0 < l.1
  {
    assert Mirrored(g, l.0, l.1);
  }

  lemma PairsLinked(g: map<Conn, NodeState>, a: Conn, b: Conn)
    requires Inv(g) && a != b
    ensures Pair(a, b) in Pairs(g) <==> Linked(g, a, b)
  {
    InvSymmetric(g, a, b);
  }

  lemma SameIds(h: map<Conn, NodeState>, g: map<Conn, NodeState>, a: Conn, b: Conn)
    requires OthersSame(g, h, a, b)
    ensures Ids(g) == Ids(h)
  {
    assert Ids(g).Keys == Ids(h).Keys;
    forall c | c in h ensures Ids(g)[c] == Ids(h)[c] {
      assert if c == a || c == b then Like(g[c], h[c]) else g[c] == h[c];
    }
  }

  lemma LinkedPairs(h: map<Conn, NodeState>, g: map<Conn, NodeState>, a: Conn, b: Conn)
    requires a in h && b in h && OthersSame(g, h, a, b)
    requires g[a].links.Keys == h[a].links.Keys + {b} && g[b].links.Keys == h[b].links.Keys + {a}
    ensures Pairs(g) == if a == b then Pairs(h) else Pairs(h) + {Pair(a, b)}
  {
  }

  lemma UnlinkedPairs(h: map<Conn, NodeState>, g: map<Conn, NodeState>, a: Conn, b: Conn)
    requires a in h && b in h && OthersSame(g, h, a, b)
    requires g[a].links.Keys == h[a].links.Keys - {b} && g[b].links.Keys == h[b].links.Keys - {a}
    ensures Pairs(g) == if a == b then Pairs(h) else Pairs(h) - {Pair(a, b)}
  {
  }

  // ---- joins ----

  // The ends of a join as the package resolves them: ids are those of the nodes, and a connection
  // end is always an audio sub-connection.
  ghost predicate Resolved(m: Mixer, r: Request)
    requires r.Join?
  {
    var h := Prepared(m.graph, r);
    && r.end1.id == h[r.end1.conn].id && r.end2.id == h[r.end2.conn].id
    && (h[r.end1.conn].kind.Connection? ==> h[r.end1.conn].audio)
  }

  // What has to be looked up before a join of two nodes. Its key is neither on the record nor one of a node
  // joined to itself; its reverse is not on the record or sorted behind it, unless a live link may have the
  // same two keys; and every other live link that may have its key is recorded under one sorted before it.
  ghost predicate ClearJoin(m: Mixer, r: Request)
    requires r.Join?
  {
    var k, v := Key(r.end1.id, r.end2.id), Key(r.end2.id, r.end1.id);
    var live, wish := Pairs(m.graph), Wishes(Ids(m.graph));
    && k !in m.joins && !Echo(k)
    && (v in m.joins && Before(v, k) ==> exists t :: t in live && Keys(wish(t)) == {k, v})
    && forall q | q in live && k in Keys(wish(q)) && Keys(wish(q)) != {k, v} :: Before(Entry(m.joins, wish(q)), k)
  }

  lemma JoinFacts(m: Mixer, r: Request)
    requires r.Join? && Inv(m.graph) && DoJoin(m, r).1 == 200 && r.end1.conn != r.end2.conn
    ensures var g, h, l := DoJoin(m, r).0.graph, Prepared(m.graph, r), Pair(r.end1.conn, r.end2.conn);
            && Pairs(g) == Pairs(m.graph) + {l} && l !in Pairs(m.graph) && Ids(g) == Ids(h)
            && DoJoin(m, r).0.joins == m.joins + {Key(r.end1.id, r.end2.id)} && DoJoin(m, r).0.notices == m.notices
  {
    var h, a, b := Prepared(m.graph, r), r.end1.conn, r.end2.conn;
    JoinAllOrNothing(m, r);
    PreparedKeepsInv(m, r);
    PairsPrepared(m, r);
    PairsLinked(h, a, b);
    SameIds(h, DoJoin(m, r).0.graph, a, b);
    LinkedPairs(h, DoJoin(m, r).0.graph, a, b);
  }

  // The wishes of all links, the new one named as it is recorded
  ghost function Named(wish: Link -> Wish<string>, l: Link, c: Wish<string>): Link -> Wish<string> {
    (k: Link) => if k == l then c else wish(k)
  }

  // A link finds its own entry before a new one exactly if that is sorted first.
  lemma OwnFirstIff(joins: set<string>, c: Wish<string>, k: string)
    requires k !in joins && On(joins, c) && c.secondFirst == Before(c.k2, c.k1)
    ensures Entry(joins + {k}, c) == Entry(joins, c) <==> (k in Keys(c) ==> Before(Entry(joins, c), k))
  {
    BeforeTotal(c.k1, c.k2);
  }

  // Looked up in strings, or link by link
  lemma ClearIff(m: Mixer, r: Request, wish: Link -> Wish<string>, l: Link)
    requires r.Join? && AllLinksTold(m) && l !in Pairs(m.graph)
    requires forall q | q in Pairs(m.graph) :: wish(q) == Wishes(Ids(m.graph))(q)
    requires wish(l) == Wished(r.end1.id, r.end2.id)
    ensures Clear(m.joins, Pairs(m.graph), wish, l) && !Echo(wish(l).k1) <==> ClearJoin(m, r)
  {
    var k, v, live := wish(l).k1, wish(l).k2, Pairs(m.graph);
    if k !in m.joins {
      forall q | q in live && k in Keys(wish(q))
        ensures Entry(m.joins + {k}, wish(q)) == Entry(m.joins, wish(q)) <==> Before(Entry(m.joins, wish(q)), k)
      {
        ToldFinds(m.joins, live, Wishes(Ids(m.graph)), Echoes(m.joins), q);
        OwnFirstIff(m.joins, wish(q), k);
      }
      forall q | q in live ensures Twins(wish, q, l) <==> Keys(Wishes(Ids(m.graph))(q)) == {k, v} { }
    }
  }

  lemma JoinWishes(m: Mixer, r: Request)
    requires r.Join? && Inv(m.graph) && Resolved(m, r) && DoJoin(m, r).1 == 200 && r.end1.conn != r.end2.conn
    ensures var l, m' := Pair(r.end1.conn, r.end2.conn), DoJoin(m, r).0;
            var now := Wishes(Ids(m'.graph));
            var wish := Named(now, l, Wished(r.end1.id, r.end2.id));
            && (forall q | q in Pairs(m.graph) :: wish(q) == Wishes(Ids(m.graph))(q))
            && (forall q :: Alike(now(q), wish(q)))
  {
    JoinFacts(m, r);
    PairsPrepared(m, r);
    WishedTurned(r.end1.id, r.end2.id);
    WishedTurned(r.end2.id, r.end1.id);
  }

  lemma RecordIff(joins: set<string>, live: set<Link>, wish: Link -> Wish<string>, l: Link)
    requires AllTold(joins, live, wish, Echoes(joins)) && l !in live
    ensures var k := wish(l).k1;
            AllTold(joins + {k}, live + {l}, wish, Echoes(joins + {k})) <==> Clear(joins, live, wish, l) && !Echo(k)
  {
    var k := wish(l).k1;
    NewToldIff(joins, live, wish, Echoes(joins), l, Echo(k));
    assert Echoes(joins + {k}) == if Echo(k) then Echoes(joins) + {k} else Echoes(joins);
  }

  lemma LinkToldIff(m: Mixer, r: Request, m': Mixer, l: Link)
    requires r.Join? && AllLinksTold(m) && l !in Pairs(m.graph)
    requires Pairs(m'.graph) == Pairs(m.graph) + {l} && m'.joins == m.joins + {Key(r.end1.id, r.end2.id)}
    requires var now := Wishes(Ids(m'.graph));
             var wish := Named(now, l, Wished(r.end1.id, r.end2.id));
             && (forall q | q in Pairs(m.graph) :: wish(q) == Wishes(Ids(m.graph))(q))
             && (forall q :: Alike(now(q), wish(q)))
    ensures AllLinksTold(m') <==> ClearJoin(m, r)
  {
    var live, now := Pairs(m.graph), Wishes(Ids(m'.graph));
    var wish := Named(now, l, Wished(r.end1.id, r.end2.id));
    ToldAlikeIff(m.joins, live, Wishes(Ids(m.graph)), wish, Echoes(m.joins));
    RecordIff(m.joins, live, wish, l);
    ToldAlikeIff(m'.joins, live + {l}, now, wish, Echoes(m'.joins));
    ClearIff(m, r, wish, l);
  }

  // A successful join of two nodes keeps every link sure of its notice if and only if the join is clear.
  lemma JoinToldIff(m: Mixer, r: Request)
    requires r.Join? && Inv(m.graph) && Resolved(m, r) && AllLinksTold(m)
    requires DoJoin(m, r).1 == 200 && r.end1.conn != r.end2.conn
    ensures AllLinksTold(DoJoin(m, r).0) <==> ClearJoin(m, r)
  {
    JoinFacts(m, r);
    JoinWishes(m, r);
    LinkToldIff(m, r, DoJoin(m, r).0, Pair(r.end1.conn, r.end2.conn));
  }

  // The key of a node joined to itself must not be found before the entry of a live link.
  ghost predicate ClearEcho(m: Mixer, r: Request)
    requires r.Join?
  {
    var k, wish := Key(r.end1.id, r.end2.id), Wishes(Ids(m.graph));
    k in m.joins || forall q | q in Pairs(m.graph) && k in Keys(wish(q)) :: Before(Entry(m.joins, wish(q)), k)
  }

  lemma EchoFacts(m: Mixer, r: Request)
    requires r.Join? && Inv(m.graph) && Resolved(m, r) && DoJoin(m, r).1 == 200 && r.end1.conn == r.end2.conn
    ensures var m' := DoJoin(m, r).0;
            && Pairs(m'.graph) == Pairs(m.graph) && m'.notices == m.notices
            && m'.joins == m.joins + {Key(r.end1.id, r.end1.id)} && r.end1.id == r.end2.id
            && forall q | q in Pairs(m.graph) :: Wishes(Ids(m'.graph))(q) == Wishes(Ids(m.graph))(q)
  {
    var h, a := Prepared(m.graph, r), r.end1.conn;
    PreparedKeepsInv(m, r);
    PairsPrepared(m, r);
    EchoAllOrNothing(m.(graph := h), r);
    SameIds(h, DoJoin(m, r).0.graph, a, a);
    LinkedPairs(h, DoJoin(m, r).0.graph, a, a);
  }

  // What a further echo does to the record
  lemma EchoRecordIff(joins: set<string>, live: set<Link>, ids: map<Conn, string>, id: string)
    requires AllTold(joins, live, Wishes(ids), Echoes(joins))
    ensures var k := Key(id, id);
            AllTold(joins + {k}, live, Wishes(ids), Echoes(joins + {k}))
            <==> k in joins
                 || forall q | q in live && k in Keys(Wishes(ids)(q)) :: Before(Entry(joins, Wishes(ids)(q)), k)
  {
    var k, wish := Key(id, id), Wishes(ids);
    assert Echo(k);
    if k in joins {
      assert joins + {k} == joins;
    } else {
      assert Echoes(joins + {k}) == Echoes(joins) + {k};
      ForGoodIff(joins, live, wish, Echoes(joins), k);
      forall q | q in live
        ensures Entry(joins + {k}, wish(q)) == Entry(joins, wish(q)) <==>
                (k in Keys(wish(q)) ==> Before(Entry(joins, wish(q)), k))
      {
        ToldFinds(joins, live, wish, Echoes(joins), q);
        OwnFirstIff(joins, wish(q), k);
      }
    }
  }

  // The same for the join of a node to itself.
  lemma EchoToldIff(m: Mixer, r: Request)
    requires r.Join? && Inv(m.graph) && Resolved(m, r) && AllLinksTold(m)
    requires DoJoin(m, r).1 == 200 && r.end1.conn == r.end2.conn
    ensures AllLinksTold(DoJoin(m, r).0) <==> ClearEcho(m, r)
  {
    var m' := DoJoin(m, r).0;
    EchoFacts(m, r);
    EchoRecordIff(m.joins, Pairs(m.graph), Ids(m.graph), r.end1.id);
    ToldAlikeIff(m'.joins, Pairs(m.graph), Wishes(Ids(m.graph)), Wishes(Ids(m'.graph)), Echoes(m'.joins));
  }

  // ---- every other request keeps every link sure of its notice ----

  ghost predicate SameWishes(g: map<Conn, NodeState>, g': map<Conn, NodeState>) {
    forall q | q in Pairs(g') :: Wishes(Ids(g'))(q) == Wishes(Ids(g))(q)
  }

  lemma LinksSame(m: Mixer, m': Mixer)
    requires AllLinksTold(m) && Pairs(m'.graph) == Pairs(m.graph) && m'.joins == m.joins
             && SameWishes(m.graph, m'.graph)
    ensures AllLinksTold(m')
  {
    ToldAlikeIff(m.joins, Pairs(m.graph), Wishes(Ids(m.graph)), Wishes(Ids(m'.graph)), Echoes(m.joins));
  }

  // What one step does to the sum of the notices that tell of two nodes and the live links
  ghost predicate Tells(m: Mixer, m': Mixer, more: nat) {
    TellOfTwo(m'.notices) + |Pairs(m'.graph)| == TellOfTwo(m.notices) + |Pairs(m.graph)| + more
  }

  // A link of two nodes is taken off the graph and its end notified.
  lemma LinkTakenOff(m: Mixer, g': map<Conn, NodeState>, l: Link, requester: nat, id1: string, id2: string,
                     reason: Reason)
    requires AllLinksTold(m) && l in Pairs(m.graph) && Pairs(g') == Pairs(m.graph) - {l} && SameWishes(m.graph, g')
    requires Alike(Wishes(Ids(m.graph))(l), Wished(id1, id2))
    ensures var m' := NotifyUnjoin(m.(graph := g'), requester, id1, id2, reason);
            AllLinksTold(m') && Tells(m, m', 0)
  {
    var live, rest := Pairs(m.graph), Echoes(m.joins);
    var m' := NotifyUnjoin(m.(graph := g'), requester, id1, id2, reason);
    LinkEnds(m.(graph := g'), live, Ids(m.graph), rest, l, requester, id1, id2, reason);
    LessOne(live, l);
    EchoesStay(m.joins, m'.joins, live - {l}, Wishes(Ids(m.graph)));
    ToldAlikeIff(m'.joins, live - {l}, Wishes(Ids(m.graph)), Wishes(Ids(g')), rest);
  }

  // The same for the link of a node to itself
  lemma EchoTakenOff(m: Mixer, g': map<Conn, NodeState>, requester: nat, id: string, reason: Reason)
    requires AllLinksTold(m) && Pairs(g') == Pairs(m.graph) && SameWishes(m.graph, g')
    ensures var m' := NotifyUnjoin(m.(graph := g'), requester, id, id, reason);
            AllLinksTold(m') && Tells(m, m', 0)
  {
    var k, n := Key(id, id), Notice(requester, id, id, reason);
    assert Echo(k);
    var m1 := m.(graph := g');
    LinksSame(m, m1);
    if k in m.joins {
      WithoutForGood(m.joins, Pairs(g'), Wishes(Ids(g')), Echoes(m.joins), k);
      assert Echoes(m.joins - {k}) == Echoes(m.joins) - {k};
      assert (m.notices + [n])[..|m.notices|] == m.notices;
    }
  }

  lemma UnjoinTold(m: Mixer, r: Request)
    requires r.Unjoin? && Inv(m.graph) && AllLinksTold(m)
    ensures AllLinksTold(DoUnjoin(m, r).0) && Tells(m, DoUnjoin(m, r).0, 0)
  {
    UnjoinAllOrNothing(m, r);
    var a, b, g := r.end1.conn, r.end2.conn, m.graph;
    if Reachable(g, r.requester, a, b) {
      var g' := DoUnjoin(m, r).0.graph;
      SameIds(g, g', a, b);
      UnlinkedPairs(g, g', a, b);
      if a == b {
        EchoTakenOff(m, g', r.requester, g[a].id, UnjoinRequest);
      } else {
        PairsLinked(g, a, b);
        WishedTurned(g[b].id, g[a].id);
        assert Alike(Wishes(Ids(g))(Pair(a, b)), Wished(g[a].id, g[b].id));
        assert SameWishes(g, g');
        LinkTakenOff(m, g', Pair(a, b), r.requester, g[a].id, g[b].id, UnjoinRequest);
      }
    }
  }

  ghost function PairsWith(c: Conn, order: seq<Conn>): set<Link> {
    set p | p in order :: Pair(c, p)
  }

  lemma PairsWithFirst(c: Conn, order: seq<Conn>)
    requires order != [] && forall i, j | 0 <= i < j < |order| :: order[i] != order[j]
    ensures PairsWith(c, order) == {Pair(c, order[0])} + PairsWith(c, order[1..])
    ensures Pair(c, order[0]) !in PairsWith(c, order[1..])
  {
    assert forall p :: p in order <==> p == order[0] || p in order[1..];
  }

  lemma PeersStay(m: Mixer, c: Conn, n: NodeState, order: seq<Conn>, live: set<Link>)
    requires order != [] && forall i, j | 0 <= i < j < |order| :: order[i] != order[j]
    requires forall p | p in order :: p in m.graph && Pair(c, p) in live
    ensures forall q | q in order[1..] ::
              && q in order && q in LeaveStep(m, c, n, order[0]).graph && Pair(c, q) in live - {Pair(c, order[0])}
              && LeaveStep(m, c, n, order[0]).graph[q] == m.graph[q]
  {
    forall q | q in order[1..] ensures q in order && q != order[0] { }
  }

  // Peers that can be left one by one, each of them sure of its notice
  ghost predicate Leavable(m: Mixer, c: Conn, n: NodeState, order: seq<Conn>,
                           live: set<Link>, ids: map<Conn, string>, rest: set<string>)
  {
    && AllTold(m.joins, live, Wishes(ids), rest) && Echoes(m.joins) <= rest
    && (forall i, j | 0 <= i < j < |order| :: order[i] != order[j])
    && (forall p | p in order :: p in m.graph && Pair(c, p) in live)
    && (forall p | p in order :: Alike(Wishes(ids)(Pair(c, p)), Wished(n.id, m.graph[p].id)))
  }

  // One of them is left and told of; the others still can be.
  lemma LeaveFirst(m: Mixer, c: Conn, n: NodeState, order: seq<Conn>,
                   live: set<Link>, ids: map<Conn, string>, rest: set<string>)
    requires order != [] && Leavable(m, c, n, order, live, ids, rest)
    ensures var p, m2 := order[0], LeaveStep(m, c, n, order[0]);
            && Leavable(m2, c, n, order[1..], live - {Pair(c, p)}, ids, rest) && m2.joins <= m.joins
            && m2.notices == m.notices + [Notice(n.requester, n.id, m.graph[p].id, Terminated)]
            && TellOfTwo(m2.notices) == TellOfTwo(m.notices) + 1
            && forall q | q in order[1..] :: q in m2.graph && m2.graph[q] == m.graph[q]
  {
    var p := order[0];
    var m1 := m.(graph := m.graph[p := Detach(m.graph[p], c, n.audio).0]);
    LinkEnds(m1, live, ids, rest, Pair(c, p), n.requester, n.id, m.graph[p].id, Terminated);
    PeersStay(m, c, n, order, live);
  }

  // Leaving the peers one by one tells of each of them.
  lemma {:induction false} LeavePeersTold(m: Mixer, c: Conn, n: NodeState, order: seq<Conn>,
                                          live: set<Link>, ids: map<Conn, string>, rest: set<string>)
    requires Leavable(m, c, n, order, live, ids, rest)
    ensures var m' := LeavePeers(m, c, n, order);
            && AllTold(m'.joins, live - PairsWith(c, order), Wishes(ids), rest) && m'.joins <= m.joins
            && TellOfTwo(m'.notices) == TellOfTwo(m.notices) + |order|
    decreases |order|
  {
    if order == [] {
      assert live - PairsWith(c, order) == live;
    } else {
      var p := order[0];
      LeaveFirst(m, c, n, order, live, ids, rest);
      PairsWithFirst(c, order);
      LeavePeersTold(LeaveStep(m, c, n, p), c, n, order[1..], live - {Pair(c, p)}, ids, rest);
      assert live - {Pair(c, p)} - PairsWith(c, order[1..]) == live - PairsWith(c, order);
    }
  }

  lemma ClosePairs(m: Mixer, r: Request)
    requires r.Close? && Inv(m.graph) && Allowed(m, r) && r.conn in m.graph
    ensures Pairs(DoClose(m, r).0.graph) == Pairs(m.graph) - PairsWith(r.conn, r.order)
    ensures PairsWith(r.conn, r.order) <= Pairs(m.graph)
  {
    CloseForgets(m, r);
    ForgottenPairs(m.graph, DoClose(m, r).0.graph, r.conn, r.order);
  }

  lemma ForgottenPairs(g: map<Conn, NodeState>, g': map<Conn, NodeState>, c: Conn, order: seq<Conn>)
    requires Inv(g) && c in g && Enumerates(order, g[c].links.Keys - {c}) && g'.Keys == g.Keys - {c}
    requires forall p | p in g' :: g'[p].links == g[p].links - {c}
    ensures Pairs(g') == Pairs(g) - PairsWith(c, order) && PairsWith(c, order) <= Pairs(g)
  {
    forall p | p in order ensures Pair(c, p) in Pairs(g) { PairsLinked(g, c, p); }
    forall l | l in Pairs(g) && (l.0 == c || l.1 == c) ensures l in PairsWith(c, order) {
      InvSymmetric(g, l.0, l.1);
      var p := if l.0 == c then l.1 else l.0;
      assert p in order && Pair(c, p) == l;
    }
    forall l | l in Pairs(g) && l.0 != c && l.1 != c ensures l in Pairs(g') { assert l.0 in g'; }
  }

  lemma {:induction false} PairsWithSize(c: Conn, order: seq<Conn>)
    requires forall i, j | 0 <= i < j < |order| :: order[i] != order[j]
    ensures |PairsWith(c, order)| == |order|
    decreases |order|
  {
    if order != [] {
      PairsWithFirst(c, order);
      PairsWithSize(c, order[1..]);
    }
  }

  // The wishes that stay when a node is forgotten
  lemma CloseWishes(m: Mixer, r: Request)
    requires r.Close? && Inv(m.graph) && Allowed(m, r) && r.conn in m.graph
    ensures SameWishes(m.graph, DoClose(m, r).0.graph)
    ensures forall p | p in r.order ::
              p in m.graph && Pair(r.conn, p) in Pairs(m.graph)
              && Alike(Wishes(Ids(m.graph))(Pair(r.conn, p)), Wished(m.graph[r.conn].id, m.graph[p].id))
  {
    var c, g, g' := r.conn, m.graph, DoClose(m, r).0.graph;
    CloseForgets(m, r);
    forall q | q in Pairs(g') ensures Wishes(Ids(g'))(q) == Wishes(Ids(g))(q) { PairsKnown(g', q); }
    forall p | p in r.order
      ensures p in g && Pair(c, p) in Pairs(g) && Alike(Wishes(Ids(g))(Pair(c, p)), Wished(g[c].id, g[p].id))
    {
      PairsLinked(g, c, p);
      WishedTurned(g[p].id, g[c].id);
    }
  }

  lemma CloseTold(m: Mixer, r: Request)
    requires r.Close? && Inv(m.graph) && Allowed(m, r) && AllLinksTold(m)
    ensures AllLinksTold(DoClose(m, r).0) && Tells(m, DoClose(m, r).0, 0)
  {
    var c, g := r.conn, m.graph;
    if c in g {
      ClosePairs(m, r);
      PairsWithSize(c, r.order);
      CloseWishes(m, r);
      LeavePeersTold(m, c, g[c], r.order, Pairs(g), Ids(g), Echoes(m.joins));
      ClosedTold(m, DoClose(m, r).0, PairsWith(c, r.order));
    }
  }

  // ---- what the notices say ----

  // An unjoin of two nodes that is sure of its notice says who asked for it, and for which ends.
  lemma UnjoinNotice(m: Mixer, r: Request)
    requires r.Unjoin? && Inv(m.graph) && AllLinksTold(m)
    requires DoUnjoin(m, r).1 == 200 && r.end1.conn != r.end2.conn
    ensures var a, b, g := r.end1.conn, r.end2.conn, m.graph;
            && a in g && b in g
            && DoUnjoin(m, r).0.notices == m.notices + [Notice(r.requester, g[a].id, g[b].id, UnjoinRequest)]
  {
    UnjoinAllOrNothing(m, r);
    var a, b, g := r.end1.conn, r.end2.conn, m.graph;
    PairsLinked(g, a, b);
    WishedTurned(g[b].id, g[a].id);
    var m1 := m.(graph := DoUnjoin(m, r).0.graph);
    LinkEnds(m1, Pairs(g), Ids(g), Echoes(m.joins), Pair(a, b), r.requester, g[a].id, g[b].id, UnjoinRequest);
  }

  ghost predicate Has(g: map<Conn, NodeState>, p: Conn) { p in g }

  // The notices of a node that leaves its peers: one each, to its own requester
  ghost function Partings(g: map<Conn, NodeState>, n: NodeState, order: seq<Conn>): seq<Notice>
    requires forall i | 0 <= i < |order| :: Has(g, order[i])
  {
    seq(|order|, i requires 0 <= i < |order| =>
      assert Has(g, order[i]); Notice(n.requester, n.id, g[order[i]].id, Terminated))
  }

  lemma PartingsFirst(g: map<Conn, NodeState>, g': map<Conn, NodeState>, n: NodeState, order: seq<Conn>)
    requires order != [] && (forall i | 0 <= i < |order| :: Has(g, order[i]))
    requires forall i | 0 <= i < |order| - 1 ::
               Has(g, order[1..][i]) && Has(g', order[1..][i]) && g'[order[1..][i]] == g[order[1..][i]]
    ensures Has(g, order[0])
    ensures Partings(g, n, order)
         == [Notice(n.requester, n.id, g[order[0]].id, Terminated)] + Partings(g', n, order[1..])
  {
    forall i | 0 < i < |order| ensures Has(g', order[i]) && g'[order[i]] == g[order[i]] {
      assert order[i] == order[1..][i - 1];
    }
  }

  lemma LeavableHas(m: Mixer, c: Conn, n: NodeState, order: seq<Conn>,
                    live: set<Link>, ids: map<Conn, string>, rest: set<string>)
    requires Leavable(m, c, n, order, live, ids, rest)
    ensures forall i | 0 <= i < |order| :: Has(m.graph, order[i])
  {
    forall i | 0 <= i < |order| ensures Has(m.graph, order[i]) { assert order[i] in order; }
  }

  lemma {:induction false} LeavePeersNotices(m: Mixer, c: Conn, n: NodeState, order: seq<Conn>,
                                             live: set<Link>, ids: map<Conn, string>, rest: set<string>)
    requires Leavable(m, c, n, order, live, ids, rest)
    ensures forall i | 0 <= i < |order| :: Has(m.graph, order[i])
    ensures LeavePeers(m, c, n, order).notices == m.notices + Partings(m.graph, n, order)
    decreases |order|
  {
    LeavableHas(m, c, n, order, live, ids, rest);
    if order != [] {
      var p, m2 := order[0], LeaveStep(m, c, n, order[0]);
      LeaveFirst(m, c, n, order, live, ids, rest);
      LeavePeersNotices(m2, c, n, order[1..], live - {Pair(c, p)}, ids, rest);
      forall i | 0 <= i < |order[1..]| ensures Has(m.graph, order[1..][i]) && order[1..][i] in order[1..] {
        assert order[1..][i] == order[i + 1];
      }
      PartingsFirst(m.graph, m2.graph, n, order);
    }
  }

  // A node that closes tells its requester of each peer, by the peer's id and as terminated.
  lemma CloseNotices(m: Mixer, r: Request)
    requires r.Close? && Inv(m.graph) && Allowed(m, r) && AllLinksTold(m) && r.conn in m.graph
    ensures forall i | 0 <= i < |r.order| :: Has(m.graph, r.order[i])
    ensures DoClose(m, r).0.notices == m.notices + Partings(m.graph, m.graph[r.conn], r.order)
  {
    CloseWishes(m, r);
    LeavePeersNotices(m, r.conn, m.graph[r.conn], r.order, Pairs(m.graph), Ids(m.graph), Echoes(m.joins));
  }

  // What is left of the record is right for what is left of the graph.
  lemma ClosedTold(m: Mixer, m': Mixer, gone: set<Link>)
    requires AllTold(m'.joins, Pairs(m.graph) - gone, Wishes(Ids(m.graph)), Echoes(m.joins)) && m'.joins <= m.joins
    requires Pairs(m'.graph) == Pairs(m.graph) - gone && gone <= Pairs(m.graph) && SameWishes(m.graph, m'.graph)
    requires TellOfTwo(m'.notices) == TellOfTwo(m.notices) + |gone|
    ensures AllLinksTold(m') && Tells(m, m', 0)
  {
    var left := Pairs(m.graph) - gone;
    EchoesStay(m.joins, m'.joins, left, Wishes(Ids(m.graph)));
    ToldAlikeIff(m'.joins, left, Wishes(Ids(m.graph)), Wishes(Ids(m'.graph)), Echoes(m.joins));
    assert Pairs(m.graph) == left + gone;
  }

  lemma ModifyTold(m: Mixer, r: Request)
    requires r.ModifyJoin? && Inv(m.graph) && AllLinksTold(m)
    ensures AllLinksTold(DoModify(m, r).0) && Tells(m, DoModify(m, r).0, 0)
  {
    ModifyAllOrNothing(m, r);
    var a, b, m' := r.end1.conn, r.end2.conn, DoModify(m, r).0;
    if DoModify(m, r).1 == 200 {
      if a != b { PairsLinked(m.graph, a, b); }
      SameIds(m.graph, m'.graph, a, b);
      LinkedPairs(m.graph, m'.graph, a, b);
      assert Pairs(m'.graph) == Pairs(m.graph) && SameWishes(m.graph, m'.graph);
      LinksSame(m, m');
    }
  }

  lemma CreateTold(m: Mixer, c: Conn, n: NodeState)
    requires Inv(m.graph) && AllLinksTold(m) && c !in m.graph && n.links == map[]
    ensures var m' := m.(graph := m.graph[c := n]); AllLinksTold(m') && Tells(m, m', 0)
  {
    var g := m.graph[c := n];
    assert Pairs(g) == Pairs(m.graph);
    forall q | q in Pairs(m.graph) ensures Wishes(Ids(g))(q) == Wishes(Ids(m.graph))(q) { PairsKnown(m.graph, q); }
    LinksSame(m, m.(graph := g));
  }

  // A join that fails leaves the record alone: resolved ends never reach the rollback.
  lemma FailedJoinTold(m: Mixer, r: Request)
    requires r.Join? && Inv(m.graph) && Resolved(m, r) && AllLinksTold(m) && DoJoin(m, r).1 != 200
    ensures AllLinksTold(DoJoin(m, r).0) && Tells(m, DoJoin(m, r).0, 0)
  {
    var h, m' := Prepared(m.graph, r), DoJoin(m, r).0;
    PreparedKeepsInv(m, r);
    PairsPrepared(m, r);
    JoinAllOrNothing(m, r);
    if h[r.end1.conn].requester == r.requester && h[r.end2.conn].requester == r.requester {
      if r.end1.conn == r.end2.conn { EchoAllOrNothing(m.(graph := h), r); } else { FirstHalf(m.(graph := h), r); }
    }
    assert m'.joins == m.joins && m'.notices == m.notices;
    assert forall c | c in m.graph :: m'.graph[c] == m.graph[c];
    assert Pairs(m'.graph) == Pairs(m.graph);
    forall q | q in Pairs(m.graph) ensures Wishes(Ids(m'.graph))(q) == Wishes(Ids(m.graph))(q) {
      PairsKnown(m.graph, q);
    }
    LinksSame(m, m');
  }

  // ---- over all runs ----

  ghost predicate ClearStep(m: Mixer, r: Request)
    requires Allowed(m, r)
  {
    r.Join? ==>
      && Resolved(m, r)
      && (Step(m, r).1 == 200 ==> if r.end1.conn != r.end2.conn then ClearJoin(m, r) else ClearEcho(m, r))
  }

  // A successful join of two nodes
  ghost predicate LinksTwo(m: Mixer, r: Request)
    requires Allowed(m, r)
  {
    Joins(m, r) && r.end1.conn != r.end2.conn
  }

  lemma StepTold(m: Mixer, r: Request)
    requires Inv(m.graph) && Allowed(m, r) && AllLinksTold(m) && ClearStep(m, r)
    ensures AllLinksTold(Step(m, r).0) && Tells(m, Step(m, r).0, if LinksTwo(m, r) then 1 else 0)
  {
    match r
    case CreateConference(c, q, id) =>
      if c !in m.graph { CreateTold(m, c, NewConference(q, id)); }
    case Join(_, _, _, _, _, _) => JoinTold(m, r);
    case ModifyJoin(_, _, _, _, _, _) => ModifyTold(m, r);
    case Unjoin(_, _, _) => UnjoinTold(m, r);
    case Close(_, _) => CloseTold(m, r);
  }

  lemma JoinTold(m: Mixer, r: Request)
    requires r.Join? && Inv(m.graph) && AllLinksTold(m) && ClearStep(m, r)
    ensures AllLinksTold(DoJoin(m, r).0) && Tells(m, DoJoin(m, r).0, if LinksTwo(m, r) then 1 else 0)
  {
    if DoJoin(m, r).1 != 200 {
      FailedJoinTold(m, r);
    } else if r.end1.conn == r.end2.conn {
      EchoToldIff(m, r);
      EchoFacts(m, r);
    } else {
      JoinToldIff(m, r);
      JoinFacts(m, r);
    }
  }

  ghost function Linkings(states: seq<Mixer>, requests: seq<Request>, i: nat): nat
    requires IsRun(states, requests) && i <= |requests|
  {
    if i == 0 then 0 else
      Linkings(states, requests, i - 1) + if LinksTwo(states[i - 1], requests[i - 1]) then 1 else 0
  }

  // In every run whose joins are clear, every live link is sure of its notice all along, and the notices
  // that tell of two nodes and the live links add up to the successful joins of two nodes.
  lemma {:induction false} RunTold(states: seq<Mixer>, requests: seq<Request>, i: nat)
    requires IsRun(states, requests) && i < |states|
    requires forall j | 0 <= j < i :: ClearStep(states[j], requests[j])
    ensures AllLinksTold(states[i])
    ensures TellOfTwo(states[i].notices) + |Pairs(states[i].graph)| == Linkings(states, requests, i)
  {
    if i == 0 {
      EmptyTold();
    } else {
      RunTold(states, requests, i - 1);
      RunKeepsInv(states, requests, i - 1);
      assert ClearStep(states[i - 1], requests[i - 1]);
      StepTold(states[i - 1], requests[i - 1]);
    }
  }

  lemma EmptyTold()
    ensures AllLinksTold(EMPTY) && Pairs(EMPTY.graph) == {}
  {
    var none: set<Link> := {};
    assert Pairs(EMPTY.graph) == none && Echoes(EMPTY.joins) == {};
    assert Fair({}, none, Wishes(Ids(EMPTY.graph)), {});
    FairIsTold({}, none, Wishes(Ids(EMPTY.graph)), {});
  }

  // ---- when two links can have a key in common ----

  function Tildes(s: string): nat {
    if s == [] then 0 else Tildes(s[1..]) + if s[0] == '~' then 1 else 0
  }

  // A conference id has no tilde, a connection id one, between the two SIP tags.
  predicate WellFormed(kind: Kind, id: string) { Tildes(id) == if kind.Connection? then 1 else 0 }

  lemma {:induction false} TildesConcat(s: string, t: string)
    ensures Tildes(s + t) == Tildes(s) + Tildes(t)
    decreases |s|
  {
    if s == [] {
      assert s + t == t;
    } else {
      TildesConcat(s[1..], t);
      assert (s + t)[1..] == s[1..] + t;
    }
  }

  lemma KeyTildes(s: string, t: string)
    ensures Tildes(Key(s, t)) == Tildes(s) + Tildes(t) + 1
  {
    TildesConcat(s, "~");
    TildesConcat(s + "~", t);
    assert Tildes("~") == 1;
  }

  // A key shows its first id and the separator behind it.
  lemma KeyFront(s: string, t: string)
    ensures Key(s, t)[..|s|] == s && Key(s, t)[|s|] == '~'
  {
  }

  lemma KeyCut(s: string, t: string, n: nat)
    requires n < |s|
    ensures Key(s, t)[..n] == s[..n] && Key(s, t)[n] == s[n]
  {
  }

  // A shorter first part would leave the separator inside the longer one.
  lemma SplitAt(a: string, b: string, c: string, d: string)
    requires Key(a, b) == Key(c, d) && |a| < |c|
    ensures Tildes(a) < Tildes(c)
  {
    var rest := c[|a| + 1..];
    KeyFront(a, b);
    KeyCut(c, d, |a|);
    assert c == c[..|a|] + [c[|a|]] + rest == Key(a, rest);
    KeyTildes(a, rest);
  }

  // Equal keys of well-formed ids name the same pair, unless one is a conference followed by a
  // connection and the other a connection followed by a conference.
  lemma KeyCollision(k1: Kind, x1: string, k2: Kind, x2: string, j1: Kind, y1: string, j2: Kind, y2: string)
    requires WellFormed(k1, x1) && WellFormed(k2, x2) && WellFormed(j1, y1) && WellFormed(j2, y2)
    requires Key(x1, x2) == Key(y1, y2)
    ensures (x1 == y1 && x2 == y2) || (k1 != k2 && j1 == k2 && j2 == k1)
  {
    KeyTildes(x1, x2);
    KeyTildes(y1, y2);
    if |x1| < |y1| { SplitAt(x1, x2, y1, y2); }
    else if |y1| < |x1| { SplitAt(y1, y2, x1, x2); }
    else {
      assert x1 == Key(x1, x2)[..|x1|] == Key(y1, y2)[..|x1|] == y1;
      assert x2 == Key(x1, x2)[|x1| + 1..] == Key(y1, y2)[|x1| + 1..] == y2;
    }
  }

  // A key of well-formed ids is an echo exactly when the two ids are the same.
  lemma EchoKey(k1: Kind, x1: string, k2: Kind, x2: string)
    requires WellFormed(k1, x1) && WellFormed(k2, x2)
    ensures Echo(Key(x1, x2)) <==> x1 == x2
  {
    if z: string :| Key(x1, x2) == Key(z, z) {
      KeyTildes(x1, x2);
      KeyTildes(z, z);
      if |x1| < |z| { SplitAt(x1, x2, z, z); }
      else if |z| < |x1| { SplitAt(z, z, x1, x2); }
      else {
        assert x1 == Key(x1, x2)[..|x1|] == Key(z, z)[..|x1|] == z;
        assert x2 == Key(x1, x2)[|x1| + 1..] == Key(z, z)[|x1| + 1..] == z;
      }
    }
  }

  // Ids as they are meant to be: well formed, and one for each node
  ghost predicate WellNamed(g: map<Conn, NodeState>) {
    && (forall c | c in g :: WellFormed(g[c].kind, g[c].id))
    && forall c, e | c in g && e in g && g[c].id == g[e].id :: c == e
  }

  // With such ids, two links have a key in common only if both are between a conference and a connection.
  lemma SharedIsMixed(g: map<Conn, NodeState>, l: Link, q: Link)
    requires WellNamed(g) && {l.0, l.1, q.0, q.1} <= g.Keys && l.0 < l.1 && q.0 < q.1 && l != q
    ensures var wish := Wishes(Ids(g));
            !(Keys(wish(l)) !! Keys(wish(q))) ==> g[l.0].kind != g[l.1].kind && g[q.0].kind != g[q.1].kind
  {
    var a, b, c, d := g[l.0], g[l.1], g[q.0], g[q.1];
    if Key(a.id, b.id) == Key(c.id, d.id) { KeyCollision(a.kind, a.id, b.kind, b.id, c.kind, c.id, d.kind, d.id); }
    if Key(a.id, b.id) == Key(d.id, c.id) { KeyCollision(a.kind, a.id, b.kind, b.id, d.kind, d.id, c.kind, c.id); }
    if Key(b.id, a.id) == Key(c.id, d.id) { KeyCollision(b.kind, b.id, a.kind, a.id, c.kind, c.id, d.kind, d.id); }
    if Key(b.id, a.id) == Key(d.id, c.id) { KeyCollision(b.kind, b.id, a.kind, a.id, d.kind, d.id, c.kind, c.id); }
  }

  // A join that shares no key with a live link is clear, whatever the ids.
  lemma UnsharedIsClear(m: Mixer, r: Request)
    requires r.Join? && AllLinksTold(m)
    requires var k, v := Key(r.end1.id, r.end2.id), Key(r.end2.id, r.end1.id);
             && !Echo(k) && !Echo(v)
             && forall q | q in Pairs(m.graph) ::
                  k !in Keys(Wishes(Ids(m.graph))(q)) && v !in Keys(Wishes(Ids(m.graph))(q))
    ensures ClearJoin(m, r)
  {
    var k, v, wish := Key(r.end1.id, r.end2.id), Key(r.end2.id, r.end1.id), Wishes(Ids(m.graph));
    if k in m.joins { Unwanted(m.joins, Pairs(m.graph), wish, Echoes(m.joins), k); }
    if v in m.joins { Unwanted(m.joins, Pairs(m.graph), wish, Echoes(m.joins), v); }
  }

  lemma UnmixedKeys(h: map<Conn, NodeState>, a: Conn, b: Conn, q: Link)
    requires WellNamed(h) && {a, b, q.0, q.1} <= h.Keys && a != b && q.0 < q.1 && Pair(a, b) != q
    requires h[a].kind == h[b].kind
    ensures var wish := Wishes(Ids(h));
            Key(h[a].id, h[b].id) !in Keys(wish(q)) && Key(h[b].id, h[a].id) !in Keys(wish(q))
  {
    SharedIsMixed(h, Pair(a, b), q);
  }

  // With well-formed ids, one for each node, a join of two conferences or of two connections is always clear.
  lemma UnmixedIsClear(m: Mixer, r: Request, h: map<Conn, NodeState>)
    requires r.Join? && AllLinksTold(m) && WellNamed(h) && r.end1.conn != r.end2.conn
    requires r.end1.conn in h && r.end2.conn in h && h[r.end1.conn].kind == h[r.end2.conn].kind
    requires h[r.end1.conn].id == r.end1.id && h[r.end2.conn].id == r.end2.id
    requires forall q | q in Pairs(m.graph) ::
               && q.0 in h && q.1 in h && q.0 < q.1 && q != Pair(r.end1.conn, r.end2.conn)
               && Wishes(Ids(h))(q) == Wishes(Ids(m.graph))(q)
    ensures ClearJoin(m, r)
  {
    var a, b := h[r.end1.conn], h[r.end2.conn];
    EchoKey(a.kind, a.id, b.kind, b.id);
    EchoKey(b.kind, b.id, a.kind, a.id);
    forall q | q in Pairs(m.graph)
      ensures Key(a.id, b.id) !in Keys(Wishes(Ids(m.graph))(q)) && Key(b.id, a.id) !in Keys(Wishes(Ids(m.graph))(q))
    {
      UnmixedKeys(h, r.end1.conn, r.end2.conn, q);
    }
    UnsharedIsClear(m, r);
  }

  // With such ids, only joins of a conference and a connection can put a notice at risk.
  lemma UnmixedJoinIsTold(m: Mixer, r: Request)
    requires r.Join? && Inv(m.graph) && Resolved(m, r) && AllLinksTold(m) && WellNamed(Prepared(m.graph, r))
    requires DoJoin(m, r).1 == 200 && r.end1.conn != r.end2.conn
    requires var h := Prepared(m.graph, r); h[r.end1.conn].kind == h[r.end2.conn].kind
    ensures AllLinksTold(DoJoin(m, r).0)
  {
    var h := Prepared(m.graph, r);
    JoinFacts(m, r);
    PairsPrepared(m, r);
    PreparedKeepsInv(m, r);
    forall q | q in Pairs(m.graph) ensures q.0 in h && q.1 in h && q.0 < q.1 { PairsKnown(h, q); }
    UnmixedIsClear(m, r, h);
    JoinToldIff(m, r);
  }

  // ---- a notice that is lost ----

  const CONF_A := Endpoint(1, false, "a")
  const CONN_BC := Endpoint(2, true, "b~c")
  const CONF_C := Endpoint(3, false, "c")
  const CONN_AB := Endpoint(4, true, "a~b")

  // Two conferences, each joined to a connection: four joins and unjoins succeed, one notice goes out.
  const CROSSED: seq<Request> := [
    CreateConference(1, 0, "a"), CreateConference(3, 0, "c"),
    Join(0, CONF_A, CONN_BC, SendRecv, 100, 100), Join(0, CONN_AB, CONF_C, SendRecv, 100, 100),
    Unjoin(0, CONF_A, CONN_BC), Unjoin(0, CONN_AB, CONF_C)]

  // One join of two ends of the run
  lemma CrossedJoin(m: Mixer, e1: Endpoint, e2: Endpoint) returns (m': Mixer)
    requires Inv(m.graph) && e1.conn != e2.conn
    requires var g := Prepared(m.graph, Join(0, e1, e2, SendRecv, 100, 100));
             && g[e1.conn].requester == g[e2.conn].requester == 0 && !Linked(g, e1.conn, e2.conn)
             && Compatible(g[e1.conn], g[e2.conn])
    ensures (m', 200) == DoJoin(m, Join(0, e1, e2, SendRecv, 100, 100)) && Inv(m'.graph)
    ensures m'.joins == m.joins + {Key(e1.id, e2.id)} && m'.notices == m.notices
    ensures var h := Prepared(m.graph, Join(0, e1, e2, SendRecv, 100, 100));
            && OthersSame(m'.graph, h, e1.conn, e2.conn)
            && m'.graph[e1.conn].links.Keys == h[e1.conn].links.Keys + {e2.conn}
            && m'.graph[e2.conn].links.Keys == h[e2.conn].links.Keys + {e1.conn}
  {
    var r := Join(0, e1, e2, SendRecv, 100, 100);
    JoinAllOrNothing(m, r);
    m' := DoJoin(m, r).0;
  }

  lemma CrossedUnjoin(m: Mixer, e1: Endpoint, e2: Endpoint) returns (m': Mixer)
    requires Inv(m.graph) && Reachable(m.graph, 0, e1.conn, e2.conn) && e1.conn != e2.conn
    ensures (m', 200) == DoUnjoin(m, Unjoin(0, e1, e2)) && Inv(m'.graph)
    ensures OthersSame(m'.graph, m.graph, e1.conn, e2.conn)
    ensures var n := NotifyUnjoin(m, 0, m.graph[e1.conn].id, m.graph[e2.conn].id, UnjoinRequest);
            m'.joins == n.joins && m'.notices == n.notices
  {
    UnjoinAllOrNothing(m, Unjoin(0, e1, e2));
    m' := DoUnjoin(m, Unjoin(0, e1, e2)).0;
  }

  // The first requests of the run all succeed.
  ghost predicate Succeeds(states: seq<Mixer>, n: nat) {
    n <= |CROSSED| && IsRun(states, CROSSED[..n]) && forall i | 0 <= i < n :: Step(states[i], CROSSED[i]).1 == 200
  }

  lemma SucceedsMore(states: seq<Mixer>, n: nat, m: Mixer)
    requires Succeeds(states, n) && n < |CROSSED| && (m, 200) == Step(states[n], CROSSED[n])
    ensures Succeeds(states + [m], n + 1)
  {
    var more := states + [m];
    assert CROSSED[..n + 1] == CROSSED[..n] + [CROSSED[n]];
    forall i | 0 <= i < n + 1
      ensures more[i + 1] == Step(more[i], CROSSED[i]).0 && Step(more[i], CROSSED[i]).1 == 200
    {
      if i < n { assert more[i] == states[i] && more[i + 1] == states[i + 1] && CROSSED[..n][i] == CROSSED[i]; }
    }
  }

  lemma CrossedBegins() returns (states: seq<Mixer>)
    ensures Succeeds(states, 2)
    ensures states[2] == Mixer(map[1 := NewConference(0, "a"), 3 := NewConference(0, "c")], {}, [])
  {
    var s1 := Mixer(map[1 := NewConference(0, "a")], {}, []);
    var s2 := Mixer(map[1 := NewConference(0, "a"), 3 := NewConference(0, "c")], {}, []);
    assert Succeeds([EMPTY], 0);
    assert EMPTY.graph[1 := NewConference(0, "a")] == s1.graph;
    SucceedsMore([EMPTY], 0, s1);
    assert s1.graph[3 := NewConference(0, "c")] == s2.graph;
    SucceedsMore([EMPTY] + [s1], 1, s2);
    states := [EMPTY] + [s1] + [s2];
  }

  // The first join is recorded,
  ghost predicate CrossedOnce(m: Mixer) {
    && m.joins == {"a~b~c"} && m.notices == [] && Inv(m.graph) && Reachable(m.graph, 0, 1, 2)
    && m.graph.Keys == {1, 2, 3} && Like(m.graph[1], NewConference(0, "a"))
    && Like(m.graph[2], NewConnection(true, 0, "b~c")) && m.graph[3] == NewConference(0, "c")
  }

  lemma CrossedFirst(m: Mixer) returns (m': Mixer)
    requires m == Mixer(map[1 := NewConference(0, "a"), 3 := NewConference(0, "c")], {}, []) && Inv(m.graph)
    ensures (m', 200) == DoJoin(m, CROSSED[2]) && CrossedOnce(m')
  {
    m' := CrossedJoin(m, CONF_A, CONN_BC);
    assert Key("a", "b~c") == "a~b~c";
  }

  // and the second under the same string.
  lemma CrossedSecond(m: Mixer) returns (m': Mixer)
    requires CrossedOnce(m)
    ensures (m', 200) == DoJoin(m, CROSSED[3]) && CrossedHalf(m')
  {
    m' := CrossedJoin(m, CONN_AB, CONF_C);
    assert Key("a~b", "c") == "a~b~c";
  }

  // Both joins are live, with one entry.
  ghost predicate CrossedHalf(m: Mixer) {
    && Inv(m.graph) && m.joins == {"a~b~c"} && m.notices == []
    && Reachable(m.graph, 0, 1, 2) && Reachable(m.graph, 0, 4, 3)
    && m.graph[1].id == "a" && m.graph[2].id == "b~c" && m.graph[4].id == "a~b" && m.graph[3].id == "c"
  }

  lemma CrossedJoins(states: seq<Mixer>) returns (more: seq<Mixer>)
    requires Succeeds(states, 2)
    requires states[2] == Mixer(map[1 := NewConference(0, "a"), 3 := NewConference(0, "c")], {}, [])
    ensures Succeeds(more, 4) && CrossedHalf(more[4])
  {
    RunKeepsInv(states, CROSSED[..2], 2);
    var m := CrossedFirst(states[2]);
    SucceedsMore(states, 2, m);
    var m' := CrossedSecond(m);
    SucceedsMore(states + [m], 3, m');
    more := states + [m] + [m'];
  }

  lemma CrossedEnds(states: seq<Mixer>) returns (more: seq<Mixer>)
    requires Succeeds(states, 4) && CrossedHalf(states[4])
    ensures Succeeds(more, 6) && more[6].notices == [Notice(0, "a", "b~c", UnjoinRequest)]
  {
    assert Key("a", "b~c") == "a~b~c" && Key("b~c", "a")[0] == 'b';
    var s5 := CrossedUnjoin(states[4], CONF_A, CONN_BC);
    SucceedsMore(states, 4, s5);
    var s6 := CrossedUnjoin(s5, CONN_AB, CONF_C);
    SucceedsMore(states + [s5], 5, s6);
    more := states + [s5] + [s6];
  }

  lemma CrossedIdsLoseNotice() returns (states: seq<Mixer>)
    ensures IsRun(states, CROSSED)
    ensures forall i | 0 <= i < |CROSSED| :: Step(states[i], CROSSED[i]).1 == 200
    ensures states[6].notices == [Notice(0, "a", "b~c", UnjoinRequest)]
  {
    states := CrossedBegins();
    states := CrossedJoins(states);
    states := CrossedEnds(states);
    assert CROSSED[..6] == CROSSED;
  }
}
