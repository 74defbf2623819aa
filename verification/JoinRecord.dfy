// A record of links, each of which may have one of two entries: which entry the end of a link takes off
// the record, and when every link is sure to find one.
module JoinRecord {

  // The two entries that a link may have, and whether the second is found first when both are there
  datatype Wish<S> = Wish(k1: S, k2: S, secondFirst: bool)

  ghost function Keys<S>(c: Wish<S>): set<S> { {c.k1, c.k2} }

  ghost predicate On<S>(joins: set<S>, c: Wish<S>) { c.k1 in joins || c.k2 in joins }

  // The entry that is found for a link
  ghost function Entry<S>(joins: set<S>, c: Wish<S>): S {
    if c.k1 in joins && (c.k2 !in joins || !c.secondFirst) then c.k1 else c.k2
  }

  // Links that end one after the other: each finds an entry and takes it off the record, and what is left
  // in the end is the given rest.
  ghost predicate Told<P, S(!new)>(joins: set<S>, order: seq<P>, wish: P -> Wish<S>, rest: set<S>)
    decreases |order|
  {
    if order == [] then joins == rest
    else On(joins, wish(order[0])) && Told(joins - {Entry(joins, wish(order[0]))}, order[1..], wish, rest)
  }

  ghost predicate Lists<P>(order: seq<P>, live: set<P>) { multiset(order) == multiset(live) }

  // The same in whatever order they end
  ghost predicate AllTold<P(!new), S(!new)>(joins: set<S>, live: set<P>, wish: P -> Wish<S>, rest: set<S>) {
    forall order | Lists(order, live) :: Told(joins, order, wish, rest)
  }

  lemma {:induction false} SomeOrder<P>(live: set<P>) returns (order: seq<P>)
    ensures Lists(order, live)
    decreases |live|
  {
    order := [];
    if l :| l in live {
      LessOne(live, l);
      var o := SomeOrder(live - {l});
      order := [l] + o;
      assert multiset(live) == multiset(live - {l}) + multiset{l};
    }
  }

  lemma LessOne<P>(live: set<P>, l: P)
    requires l in live
    ensures |live - {l}| == |live| - 1
  {
    assert live == (live - {l}) + {l};
  }

  lemma EntryThere<S>(joins: set<S>, c: Wish<S>)
    requires On(joins, c)
    ensures Entry(joins, c) in joins && Entry(joins, c) in Keys(c)
  {
  }

  // ---- links that cannot get in each other's way ----

  // Two links that may have the same two entries
  ghost predicate Twins<P, S>(wish: P -> Wish<S>, p: P, q: P) {
    p != q && Keys(wish(p)) == Keys(wish(q))
  }

  // Two entries that are both there, and not for good
  ghost predicate Both<S>(joins: set<S>, c: Wish<S>, rest: set<S>) {
    Keys(c) <= joins - rest && c.k1 != c.k2
  }

  ghost predicate Found<P(!new), S>(joins: set<S>, live: set<P>, wish: P -> Wish<S>, rest: set<S>) {
    forall p | p in live :: On(joins, wish(p)) && Entry(joins, wish(p)) !in rest
  }

  // Two links find the same entry only if they are twins, with both entries there.
  ghost predicate Shared<P(!new), S>(joins: set<S>, live: set<P>, wish: P -> Wish<S>, rest: set<S>) {
    forall p, q | p in live && q in live && p != q && Entry(joins, wish(p)) == Entry(joins, wish(q)) ::
      Twins(wish, p, q) && Both(joins, wish(p), rest)
  }

  // The entries of twins are left alone by third links,
  ghost predicate TwinsApart<P(!new), S>(joins: set<S>, live: set<P>, wish: P -> Wish<S>) {
    forall p, q, r | p in live && q in live && r in live && Twins(wish, p, q) && r != p && r != q ::
      Entry(joins, wish(r)) !in Keys(wish(p))
  }

  // also as the second choice of other twins.
  ghost predicate TwinsDisjoint<P(!new), S>(live: set<P>, wish: P -> Wish<S>) {
    forall p, q, r, s | p in live && q in live && r in live && s in live
                        && Twins(wish, p, q) && Twins(wish, r, s) && r != p && r != q ::
      Keys(wish(p)) !! Keys(wish(r))
  }

  ghost predicate Counts<P, S>(joins: set<S>, live: set<P>, rest: set<S>) {
    rest <= joins && |joins| == |rest| + |live|
  }

  ghost predicate Fair<P(!new), S>(joins: set<S>, live: set<P>, wish: P -> Wish<S>, rest: set<S>) {
    && Found(joins, live, wish, rest) && Shared(joins, live, wish, rest)
    && TwinsApart(joins, live, wish) && TwinsDisjoint(live, wish)
    && Counts(joins, live, rest)
  }

  // Without the entry of another link, a link keeps its own, and a twin has its second one.
  lemma EntryAfter<S>(joins: set<S>, c: Wish<S>, e: S)
    requires On(joins, c)
    ensures Entry(joins, c) != e ==> On(joins - {e}, c) && Entry(joins - {e}, c) == Entry(joins, c)
    ensures Keys(c) <= joins && c.k1 != c.k2 && e in Keys(c) ==>
              var o := Entry(joins - {e}, c);
              On(joins - {e}, c) && Keys(c) == {e, o} && o != e
  {
  }

  // What becomes of another link when p ends
  lemma OthersEntry<P(!new), S>(joins: set<S>, live: set<P>, wish: P -> Wish<S>, rest: set<S>, p: P, r: P)
    requires Fair(joins, live, wish, rest) && p in live && r in live && r != p
    ensures var e := Entry(joins, wish(p));
            var o := Entry(joins - {e}, wish(r));
            && On(joins - {e}, wish(r)) && o !in rest && o in joins && o != e
            && (Entry(joins, wish(r)) != e ==> o == Entry(joins, wish(r)))
            && (Entry(joins, wish(r)) == e ==>
                  Twins(wish, p, r) && Keys(wish(p)) == {e, o} && Both(joins, wish(r), rest))
  {
    var e := Entry(joins, wish(p));
    EntryAfter(joins, wish(r), e);
    EntryThere(joins, wish(r));
    EntryThere(joins, wish(p));
    if Entry(joins, wish(r)) == e { assert Both(joins, wish(r), rest) && Twins(wish, r, p); }
    EntryThere(joins - {e}, wish(r));
  }

  lemma EndKeepsShared<P(!new), S>(joins: set<S>, live: set<P>, wish: P -> Wish<S>, rest: set<S>, p: P, r: P, q: P)
    requires Fair(joins, live, wish, rest) && p in live && q in live && r in live && p != q && p != r && q != r
    requires var j := joins - {Entry(joins, wish(p))}; Entry(j, wish(r)) == Entry(j, wish(q))
    ensures Twins(wish, r, q) && Both(joins - {Entry(joins, wish(p))}, wish(r), rest)
  {
    OthersEntry(joins, live, wish, rest, p, r);
    OthersEntry(joins, live, wish, rest, p, q);
    assert Twins(wish, p, r) ==> Entry(joins, wish(q)) !in Keys(wish(p));
    assert Twins(wish, p, q) ==> Entry(joins, wish(r)) !in Keys(wish(p));
    assert Both(joins, wish(r), rest) && Twins(wish, r, q);
    assert Entry(joins, wish(p)) !in Keys(wish(r));
  }

  lemma EndKeepsApart<P(!new), S>(joins: set<S>, live: set<P>, wish: P -> Wish<S>, rest: set<S>, p: P, q: P, s: P, r: P)
    requires Fair(joins, live, wish, rest) && p in live && q in live && r in live && s in live
    requires p != q && p != r && p != s && Twins(wish, q, s) && r != q && r != s
    ensures Entry(joins - {Entry(joins, wish(p))}, wish(r)) !in Keys(wish(q))
  {
    var e := Entry(joins, wish(p));
    OthersEntry(joins, live, wish, rest, p, r);
    if Entry(joins, wish(r)) == e {
      assert Twins(wish, r, p) && Keys(wish(q)) !! Keys(wish(r));
      EntryThere(joins - {e}, wish(r));
    }
  }

  lemma DisjointLess<P(!new), S>(live: set<P>, wish: P -> Wish<S>, p: P)
    requires TwinsDisjoint(live, wish)
    ensures TwinsDisjoint(live - {p}, wish)
  {
  }

  lemma EndKeepsAllShared<P(!new), S>(joins: set<S>, live: set<P>, wish: P -> Wish<S>, rest: set<S>, p: P)
    requires Fair(joins, live, wish, rest) && p in live
    ensures var j := joins - {Entry(joins, wish(p))};
            Found(j, live - {p}, wish, rest) && Shared(j, live - {p}, wish, rest)
  {
    var j, live' := joins - {Entry(joins, wish(p))}, live - {p};
    forall r | r in live' ensures On(j, wish(r)) && Entry(j, wish(r)) !in rest {
      OthersEntry(joins, live, wish, rest, p, r);
    }
    forall r, q | r in live' && q in live' && r != q && Entry(j, wish(r)) == Entry(j, wish(q))
      ensures Twins(wish, r, q) && Both(j, wish(r), rest)
    {
      EndKeepsShared(joins, live, wish, rest, p, r, q);
    }
  }

  // Whichever link ends, the others stay fair.
  lemma EndKeepsFair<P(!new), S>(joins: set<S>, live: set<P>, wish: P -> Wish<S>, rest: set<S>, p: P)
    requires Fair(joins, live, wish, rest) && p in live
    ensures Fair(joins - {Entry(joins, wish(p))}, live - {p}, wish, rest)
  {
    var e, live' := Entry(joins, wish(p)), live - {p};
    LessOne(live, p);
    EntryThere(joins, wish(p));
    LessOne(joins, e);
    EndKeepsAllShared(joins, live, wish, rest, p);
    forall q, s, r | q in live' && s in live' && r in live' && Twins(wish, q, s) && r != q && r != s
      ensures Entry(joins - {e}, wish(r)) !in Keys(wish(q))
    {
      EndKeepsApart(joins, live, wish, rest, p, q, s, r);
    }
    DisjointLess(live, wish, p);
  }

  lemma {:induction false} FairIsToldIn<P(!new), S(!new)>(joins: set<S>, live: set<P>, wish: P -> Wish<S>,
                                                          rest: set<S>, order: seq<P>)
    requires Fair(joins, live, wish, rest) && Lists(order, live)
    ensures Told(joins, order, wish, rest)
    decreases |order|
  {
    if order == [] {
      assert multiset(live) == multiset{} && forall l | l in live :: l in multiset(live);
      assert live == {};
      SameSize(rest, joins);
    } else {
      var l := order[0];
      ListsTail(order, live);
      EndKeepsFair(joins, live, wish, rest, l);
      FairIsToldIn(joins - {Entry(joins, wish(l))}, live - {l}, wish, rest, order[1..]);
    }
  }

  lemma ListsTail<P>(order: seq<P>, live: set<P>)
    requires Lists(order, live) && order != []
    ensures order[0] in live && Lists(order[1..], live - {order[0]})
  {
    var l := order[0];
    assert order == [l] + order[1..];
    assert multiset(order) == multiset{l} + multiset(order[1..]);
    assert l in multiset(live);
    assert multiset(live) == multiset(live - {l}) + multiset{l};
    assert multiset(order[1..]) == multiset(order) - multiset{l} == multiset(live - {l});
  }

  lemma FairIsTold<P(!new), S(!new)>(joins: set<S>, live: set<P>, wish: P -> Wish<S>, rest: set<S>)
    requires Fair(joins, live, wish, rest)
    ensures AllTold(joins, live, wish, rest)
  {
    forall order | Lists(order, live) ensures Told(joins, order, wish, rest) {
      FairIsToldIn(joins, live, wish, rest, order);
    }
  }

  lemma NoLarger<T>(a: set<T>, b: set<T>)
    requires a <= b
    ensures |a| <= |b|
  {
    assert b == a + (b - a);
  }

  lemma SameSize<T>(a: set<T>, b: set<T>)
    requires a <= b && |a| == |b|
    ensures a == b
  {
    forall x | x in b ensures x in a {
      if x !in a {
        LessOne(b, x);
        NoLarger(a, b - {x});
      }
    }
    assert b <= a;
  }

  // ---- the other way ----

  lemma ToldStep<P(!new), S(!new)>(joins: set<S>, live: set<P>, wish: P -> Wish<S>, rest: set<S>, l: P)
    requires AllTold(joins, live, wish, rest) && l in live
    ensures On(joins, wish(l)) && |live - {l}| == |live| - 1
    ensures AllTold(joins - {Entry(joins, wish(l))}, live - {l}, wish, rest)
    ensures Entry(joins, wish(l)) in joins && Entry(joins, wish(l)) in Keys(wish(l))
  {
    LessOne(live, l);
    var o := SomeOrder(live - {l});
    ToldFirst(joins, live, wish, rest, l, o);
    forall order | Lists(order, live - {l}) ensures Told(joins - {Entry(joins, wish(l))}, order, wish, rest) {
      ToldFirst(joins, live, wish, rest, l, order);
    }
    EntryThere(joins, wish(l));
  }

  lemma ToldFirst<P(!new), S(!new)>(joins: set<S>, live: set<P>, wish: P -> Wish<S>, rest: set<S>, l: P, order: seq<P>)
    requires AllTold(joins, live, wish, rest) && l in live && Lists(order, live - {l})
    ensures On(joins, wish(l)) && Told(joins - {Entry(joins, wish(l))}, order, wish, rest)
  {
    var all := [l] + order;
    assert multiset(live) == multiset(live - {l}) + multiset{l};
    assert Lists(all, live);
    assert all[0] == l && all[1..] == order;
    assert Told(joins, all, wish, rest);
  }

  lemma ToldNone<P(!new), S(!new)>(joins: set<S>, wish: P -> Wish<S>, rest: set<S>)
    requires AllTold(joins, {}, wish, rest)
    ensures joins == rest
  {
    var none: seq<P> := [];
    assert Lists(none, {});
    assert Told(joins, none, wish, rest);
  }

  lemma {:induction false} ToldCounts<P(!new), S(!new)>(joins: set<S>, live: set<P>, wish: P -> Wish<S>, rest: set<S>)
    requires AllTold(joins, live, wish, rest)
    ensures Counts(joins, live, rest)
    decreases |live|
  {
    if live != {} {
      var l :| l in live;
      ToldStep(joins, live, wish, rest, l);
      var e := Entry(joins, wish(l));
      ToldCounts(joins - {e}, live - {l}, wish, rest);
      LessOne(joins, e);
    } else {
      ToldNone(joins, wish, rest);
    }
  }

  lemma ToldFinds<P(!new), S(!new)>(joins: set<S>, live: set<P>, wish: P -> Wish<S>, rest: set<S>, p: P)
    requires AllTold(joins, live, wish, rest) && p in live
    ensures On(joins, wish(p)) && Entry(joins, wish(p)) !in rest
  {
    ToldStep(joins, live, wish, rest, p);
    ToldCounts(joins - {Entry(joins, wish(p))}, live - {p}, wish, rest);
  }

  // An entry that no link wants is left in the end.
  lemma {:induction false} Unwanted<P(!new), S(!new)>(joins: set<S>, live: set<P>, wish: P -> Wish<S>, rest: set<S>,
                                                      x: S)
    requires AllTold(joins, live, wish, rest) && x in joins && forall q | q in live :: x !in Keys(wish(q))
    ensures x in rest
    decreases |live|
  {
    if live != {} {
      var l :| l in live;
      ToldStep(joins, live, wish, rest, l);
      Unwanted(joins - {Entry(joins, wish(l))}, live - {l}, wish, rest, x);
    } else {
      ToldNone(joins, wish, rest);
    }
  }

  // Twins need both their entries: a third link that takes one leaves one of them without.
  lemma ThirdTakesNone<P(!new), S(!new)>(joins: set<S>, live: set<P>, wish: P -> Wish<S>, rest: set<S>, p: P, q: P,
                                         r: P)
    requires AllTold(joins, live, wish, rest) && p in live && q in live && r in live
    requires Twins(wish, p, q) && r != p && r != q
    ensures Entry(joins, wish(r)) !in Keys(wish(p))
  {
    if Entry(joins, wish(r)) in Keys(wish(p)) {
      ToldStep(joins, live, wish, rest, r);
      var j1, l1 := joins - {Entry(joins, wish(r))}, live - {r};
      ToldStep(j1, l1, wish, rest, p);
      ToldStep(j1 - {Entry(j1, wish(p))}, l1 - {p}, wish, rest, q);
    }
  }

  // Nor can two pairs of twins do with three entries.
  lemma FourOnThree<P(!new), S(!new)>(joins: set<S>, live: set<P>, wish: P -> Wish<S>, rest: set<S>,
                                      p: P, q: P, r: P, s: P, x: S)
    requires AllTold(joins, live, wish, rest) && p in live && q in live && r in live && s in live
    requires Twins(wish, p, q) && Twins(wish, r, s) && r != p && r != q
    ensures !(x in Keys(wish(p)) && x in Keys(wish(r)))
  {
    if x in Keys(wish(p)) && x in Keys(wish(r)) {
      ThirdTakesNone(joins, live, wish, rest, p, q, r);
      ToldStep(joins, live, wish, rest, r);
      assert Keys(wish(r)) == {x, Entry(joins, wish(r))} && s != p && s != q;
      ToldStep(joins, live, wish, rest, p);
      var j1, l1 := joins - {Entry(joins, wish(p))}, live - {p};
      ToldStep(j1, l1, wish, rest, q);
      var j2, l2 := j1 - {Entry(j1, wish(q))}, l1 - {q};
      assert x !in j2;
      ToldStep(j2, l2, wish, rest, r);
      ToldStep(j2 - {Entry(j2, wish(r))}, l2 - {r}, wish, rest, s);
    }
  }

  // The other entry of a link that finds k
  ghost function Second<S>(c: Wish<S>, k: S): S { if c.k1 == k then c.k2 else c.k1 }

  // After the end of a link that found k, another that would have found it has its second.
  lemma SecondFound<P(!new), S(!new)>(joins: set<S>, live: set<P>, wish: P -> Wish<S>, rest: set<S>, p: P, q: P, k: S)
    requires AllTold(joins, live, wish, rest) && p in live && q in live && p != q
    requires Entry(joins, wish(p)) == k == Entry(joins, wish(q))
    ensures var o := Second(wish(q), k);
            && o in joins && o != k && o !in rest && k in joins && k !in rest && Keys(wish(q)) == {k, o}
            && wish(q).k1 != wish(q).k2 && Entry(joins - {k}, wish(q)) == o
  {
    ToldFinds(joins, live, wish, rest, p);
    ToldStep(joins, live, wish, rest, p);
    ToldStep(joins, live, wish, rest, q);
    ToldFinds(joins - {k}, live - {p}, wish, rest, q);
    ToldStep(joins - {k}, live - {p}, wish, rest, q);
  }

  lemma {:induction false} ToldShared<P(!new), S(!new)>(joins: set<S>, live: set<P>, wish: P -> Wish<S>,
                                                        rest: set<S>, p: P, q: P)
    requires AllTold(joins, live, wish, rest)
    requires p in live && q in live && p != q && Entry(joins, wish(p)) == Entry(joins, wish(q))
    ensures Twins(wish, p, q) && Both(joins, wish(p), rest)
    decreases |live|, 1
  {
    var k := Entry(joins, wish(p));
    SecondFound(joins, live, wish, rest, p, q, k);
    SecondFound(joins, live, wish, rest, q, p, k);
    if r :| r in live && r != p && r != q && Entry(joins, wish(r)) != k {
      var e := Entry(joins, wish(r));
      ToldStep(joins, live, wish, rest, r);
      EntryAfter(joins, wish(p), e);
      EntryAfter(joins, wish(q), e);
      ToldShared(joins - {e}, live - {r}, wish, rest, p, q);
    } else if Second(wish(p), k) != Second(wish(q), k) {
      forall r | r in live - {p} ensures Second(wish(p), k) !in Keys(wish(r)) {
        if r != q { SecondsDiffer(joins, live, wish, rest, p, q, r, k); }
      }
      ToldStep(joins, live, wish, rest, p);
      Unwanted(joins - {k}, live - {p}, wish, rest, Second(wish(p), k));
    }
  }

  // A third link that finds k too does not want the second of p.
  lemma {:induction false} SecondsDiffer<P(!new), S(!new)>(joins: set<S>, live: set<P>, wish: P -> Wish<S>,
                                                           rest: set<S>, p: P, q: P, r: P, k: S)
    requires AllTold(joins, live, wish, rest) && p in live && q in live && r in live && p != q && r != p && r != q
    requires Entry(joins, wish(p)) == Entry(joins, wish(q)) == Entry(joins, wish(r)) == k
    ensures Second(wish(p), k) !in Keys(wish(r))
    decreases |live|, 0
  {
    SecondFound(joins, live, wish, rest, q, p, k);
    SecondFound(joins, live, wish, rest, q, r, k);
    if Second(wish(p), k) in Keys(wish(r)) {
      ToldStep(joins, live, wish, rest, q);
      ToldShared(joins - {k}, live - {q}, wish, rest, p, r);
    }
  }

  lemma ToldIsFair<P(!new), S(!new)>(joins: set<S>, live: set<P>, wish: P -> Wish<S>, rest: set<S>)
    requires AllTold(joins, live, wish, rest)
    ensures Fair(joins, live, wish, rest)
  {
    ToldCounts(joins, live, wish, rest);
    forall p | p in live ensures On(joins, wish(p)) && Entry(joins, wish(p)) !in rest {
      ToldFinds(joins, live, wish, rest, p);
    }
    forall p, q | p in live && q in live && p != q && Entry(joins, wish(p)) == Entry(joins, wish(q))
      ensures Twins(wish, p, q) && Both(joins, wish(p), rest)
    {
      ToldShared(joins, live, wish, rest, p, q);
    }
    forall p, q, r | p in live && q in live && r in live && Twins(wish, p, q) && r != p && r != q
      ensures Entry(joins, wish(r)) !in Keys(wish(p))
    {
      ThirdTakesNone(joins, live, wish, rest, p, q, r);
    }
    forall p, q, r, s | p in live && q in live && r in live && s in live
                        && Twins(wish, p, q) && Twins(wish, r, s) && r != p && r != q
      ensures Keys(wish(p)) !! Keys(wish(r))
    {
      FourOnThree(joins, live, wish, rest, p, q, r, s, wish(p).k1);
      FourOnThree(joins, live, wish, rest, p, q, r, s, wish(p).k2);
    }
  }

  // ---- a new link ----

  // What has to be looked up before a link is recorded under its first entry: that this entry is not there;
  // that its second is not there or found later, unless it is a twin's; and that no link but a twin would
  // find the new entry before its own.
  ghost predicate Clear<P(!new), S>(joins: set<S>, live: set<P>, wish: P -> Wish<S>, l: P) {
    var c := wish(l);
    && c.k1 !in joins
    && (c.k2 in joins && c.secondFirst ==> exists t :: t in live && Twins(wish, t, l))
    && forall q | q in live && c.k1 in Keys(wish(q)) && !Twins(wish, q, l) ::
         Entry(joins + {c.k1}, wish(q)) == Entry(joins, wish(q))
  }

  // An entry that a link takes, at once or as its twin's second choice
  ghost predicate Takes<P(!new), S>(joins: set<S>, live: set<P>, wish: P -> Wish<S>, p: P, x: S) {
    p in live && (Entry(joins, wish(p)) == x || (x in Keys(wish(p)) && exists q :: q in live && Twins(wish, p, q)))
  }

  // Who takes an entry after the end of a link took it, or its twin did, before.
  lemma TakesBefore<P(!new), S>(joins: set<S>, live: set<P>, wish: P -> Wish<S>, rest: set<S>, l: P, p: P, x: S)
    requires Fair(joins, live, wish, rest) && l in live && p != l && Entry(joins, wish(l)) != x
    requires Takes(joins - {Entry(joins, wish(l))}, live - {l}, wish, p, x)
    ensures Takes(joins, live, wish, p, x)
  {
    var e := Entry(joins, wish(l));
    OthersEntry(joins, live, wish, rest, l, p);
    if Entry(joins - {e}, wish(p)) == x {
      if Entry(joins, wish(p)) == e { assert Twins(wish, p, l); }
    } else {
      var q :| q in live - {l} && Twins(wish, p, q);
      assert q in live;
    }
  }

  // Every entry that is not for good is taken by some link.
  lemma {:induction false} Owned<P(!new), S>(joins: set<S>, live: set<P>, wish: P -> Wish<S>, rest: set<S>,
                                             x: S) returns (p: P)
    requires Fair(joins, live, wish, rest) && x in joins && x !in rest
    ensures Takes(joins, live, wish, p, x)
    decreases |live|
  {
    if live == {} {
      SameSize(rest, joins);
    }
    var l :| l in live;
    p := l;
    if Entry(joins, wish(l)) != x {
      EndKeepsFair(joins, live, wish, rest, l);
      LessOne(live, l);
      p := Owned(joins - {Entry(joins, wish(l))}, live - {l}, wish, rest, x);
      TakesBefore(joins, live, wish, rest, l, p, x);
    }
  }

  // The books of a record with one more link
  lemma NewCounts<P(!new), S>(joins: set<S>, live: set<P>, rest: set<S>, l: P, k: S, forGood: bool)
    requires Counts(joins, live, rest) && l !in live && (forGood && k in joins ==> k in rest)
    ensures Counts(joins + {k}, live + {l}, if forGood then rest + {k} else rest) <==> k !in joins && !forGood
  {
    if k in joins {
      assert joins + {k} == joins;
      if forGood { assert rest + {k} == rest; }
    }
  }

  // Whoever takes the second entry of the new link, which is found first, is its twin.
  lemma TakerIsTwin<P(!new), S>(joins: set<S>, live: set<P>, wish: P -> Wish<S>, rest: set<S>, l: P, t: P)
    requires Shared(joins + {wish(l).k1}, live + {l}, wish, rest) && l !in live && t in live
    requires wish(l).k2 in joins && wish(l).secondFirst
    requires Entry(joins, wish(t)) == wish(l).k2
    ensures Twins(wish, t, l)
  {
    var c := wish(l);
    assert t in live + {l} && l in live + {l};
    assert c.k1 in Keys(wish(t)) ==> Keys(wish(t)) == {c.k1, c.k2} || c.k1 == c.k2;
    assert c.k1 !in Keys(wish(t)) ==> Entry(joins + {c.k1}, wish(t)) == c.k2;
  }

  lemma NewFindsTwin<P(!new), S>(joins: set<S>, live: set<P>, wish: P -> Wish<S>, rest: set<S>, l: P) returns (t: P)
    requires Fair(joins, live, wish, rest) && l !in live
    requires Fair(joins + {wish(l).k1}, live + {l}, wish, rest)
    requires wish(l).k1 !in joins && wish(l).k2 in joins && wish(l).secondFirst
    ensures t in live && Twins(wish, t, l)
  {
    var c := wish(l);
    assert l in live + {l} && Entry(joins + {c.k1}, c) == c.k2 && c.k2 !in rest;
    t := Owned(joins, live, wish, rest, c.k2);
    if Entry(joins, wish(t)) == c.k2 {
      TakerIsTwin(joins, live, wish, rest, l, t);
    }
  }

  // Whoever would find the new entry before its own is a twin.
  lemma FinderIsTwin<P(!new), S>(joins: set<S>, live: set<P>, wish: P -> Wish<S>, rest: set<S>, l: P, q: P)
    requires Fair(joins, live, wish, rest) && l !in live && wish(l).k1 !in joins
    requires Fair(joins + {wish(l).k1}, live + {l}, wish, rest)
    requires q in live && Entry(joins + {wish(l).k1}, wish(q)) != Entry(joins, wish(q))
    ensures Twins(wish, q, l)
  {
    var c := wish(l);
    var j := joins + {c.k1};
    assert On(joins, wish(q)) && Entry(j, wish(q)) == c.k1;
    assert q in live + {l} && l in live + {l};
    if Entry(j, c) != c.k1 {
      var t := NewFindsTwin(joins, live, wish, rest, l);
      assert t in live + {l} && c.k1 in Keys(wish(t));
    }
  }

  lemma NewNeedsClear<P(!new), S>(joins: set<S>, live: set<P>, wish: P -> Wish<S>, rest: set<S>, l: P)
    requires Fair(joins, live, wish, rest) && l !in live && wish(l).k1 !in joins
    requires Fair(joins + {wish(l).k1}, live + {l}, wish, rest)
    ensures Clear(joins, live, wish, l)
  {
    var c := wish(l);
    if c.k2 in joins && c.secondFirst {
      var t := NewFindsTwin(joins, live, wish, rest, l);
    }
    forall q | q in live && c.k1 in Keys(wish(q)) && !Twins(wish, q, l)
      ensures Entry(joins + {c.k1}, wish(q)) == Entry(joins, wish(q))
    {
      if Entry(joins + {c.k1}, wish(q)) != Entry(joins, wish(q)) {
        FinderIsTwin(joins, live, wish, rest, l, q);
      }
    }
  }

  // With a clear new link, no other one but its twin finds anything else than before.
  lemma NewEntries<P(!new), S>(joins: set<S>, live: set<P>, wish: P -> Wish<S>, rest: set<S>, l: P, q: P)
    requires Fair(joins, live, wish, rest) && l !in live && Clear(joins, live, wish, l) && q in live
    ensures var j, c := joins + {wish(l).k1}, wish(l);
            && On(j, wish(q)) && On(j, c) && Entry(joins, wish(q)) in joins
            && (!Twins(wish, q, l) ==> Entry(j, wish(q)) == Entry(joins, wish(q)))
            && (Twins(wish, q, l)
               ==> Entry(joins, wish(q)) == c.k2 && Entry(j, wish(q)) in {c.k1, c.k2} && c.k1 != c.k2)
  {
    EntryThere(joins, wish(q));
  }

  // What a clear new link finds
  lemma NewEntry<P(!new), S>(joins: set<S>, live: set<P>, wish: P -> Wish<S>, rest: set<S>, l: P)
    requires Fair(joins, live, wish, rest) && l !in live && Clear(joins, live, wish, l)
    ensures var j, c := joins + {wish(l).k1}, wish(l);
            && (Entry(j, c) == c.k1 || (Entry(j, c) == c.k2 && c.k2 in joins && c.k2 !in rest))
            && (Entry(j, c) == c.k2 && c.k2 != c.k1 ==>
                  exists t :: t in live && Twins(wish, t, l) && Entry(joins, wish(t)) == c.k2)
  {
    var j, c := joins + {wish(l).k1}, wish(l);
    if Entry(j, c) != c.k1 {
      var t :| t in live && Twins(wish, t, l);
      NewEntries(joins, live, wish, rest, l, t);
    }
  }

  // Nobody else finds what the twin of a clear new link finds.
  lemma TwinAlone<P(!new), S>(joins: set<S>, live: set<P>, wish: P -> Wish<S>, rest: set<S>, l: P, t: P, q: P)
    requires Fair(joins, live, wish, rest) && l !in live && Clear(joins, live, wish, l)
    requires t in live && Twins(wish, t, l) && q in live && q != t
    ensures Entry(joins, wish(q)) != wish(l).k2 && !Twins(wish, q, l)
  {
    NewEntries(joins, live, wish, rest, l, t);
    NewEntries(joins, live, wish, rest, l, q);
    assert Entry(joins, wish(q)) == Entry(joins, wish(t)) ==> Both(joins, wish(t), rest);
  }

  lemma NewShared<P(!new), S>(joins: set<S>, live: set<P>, wish: P -> Wish<S>, rest: set<S>, l: P, q: P)
    requires Fair(joins, live, wish, rest) && l !in live && Clear(joins, live, wish, l) && q in live
    requires Entry(joins + {wish(l).k1}, wish(q)) == Entry(joins + {wish(l).k1}, wish(l))
    ensures Twins(wish, q, l) && Both(joins + {wish(l).k1}, wish(q), rest) && Both(joins + {wish(l).k1}, wish(l), rest)
  {
    NewEntries(joins, live, wish, rest, l, q);
    NewEntry(joins, live, wish, rest, l);
    if !Twins(wish, q, l) {
      var t :| t in live && Twins(wish, t, l) && Entry(joins, wish(t)) == wish(l).k2;
      TwinAlone(joins, live, wish, rest, l, t, q);
    }
  }

  lemma TwinsBoth<P(!new), S>(joins: set<S>, live: set<P>, wish: P -> Wish<S>, rest: set<S>, p: P, q: P)
    requires Fair(joins, live, wish, rest) && p in live && q in live && Twins(wish, p, q)
    ensures Both(joins, wish(p), rest)
  {
    EntryThere(joins, wish(p));
    EntryThere(joins, wish(q));
  }

  lemma NewSharedOld<P(!new), S>(joins: set<S>, live: set<P>, wish: P -> Wish<S>, rest: set<S>, l: P, p: P, q: P)
    requires Fair(joins, live, wish, rest) && l !in live && Clear(joins, live, wish, l) && p in live && q in live
             && p != q
    requires Entry(joins + {wish(l).k1}, wish(p)) == Entry(joins + {wish(l).k1}, wish(q))
    ensures Twins(wish, p, q) && Both(joins + {wish(l).k1}, wish(p), rest)
  {
    NewEntries(joins, live, wish, rest, l, p);
    NewEntries(joins, live, wish, rest, l, q);
    assert Entry(joins, wish(p)) == Entry(joins, wish(q));
    assert Both(joins, wish(p), rest);
  }

  lemma NewApart<P(!new), S>(joins: set<S>, live: set<P>, wish: P -> Wish<S>, rest: set<S>, l: P, p: P, q: P, r: P)
    requires Fair(joins, live, wish, rest) && l !in live && Clear(joins, live, wish, l)
    requires p in live && q in live && Twins(wish, p, q) && (r in live || r == l) && r != p && r != q
    ensures Entry(joins + {wish(l).k1}, wish(r)) !in Keys(wish(p))
  {
    TwinsBoth(joins, live, wish, rest, p, q);
    if r == l {
      NewEntry(joins, live, wish, rest, l);
      if Entry(joins + {wish(l).k1}, wish(l)) != wish(l).k1 {
        var t :| t in live && Twins(wish, t, l) && Entry(joins, wish(t)) == wish(l).k2;
        assert t != p && t != q;
      }
    } else {
      NewEntries(joins, live, wish, rest, l, r);
    }
  }

  // The twin of a clear new link has no other one, and no third link takes their entries.
  lemma NewTwin<P(!new), S>(joins: set<S>, live: set<P>, wish: P -> Wish<S>, rest: set<S>, l: P, t: P, r: P)
    requires Fair(joins, live, wish, rest) && l !in live && Clear(joins, live, wish, l)
    requires t in live && Twins(wish, t, l) && r in live && r != t
    ensures !Twins(wish, r, l) && Entry(joins + {wish(l).k1}, wish(r)) !in Keys(wish(l))
    ensures forall s | s in live && Twins(wish, r, s) :: Keys(wish(r)) !! Keys(wish(l))
  {
    TwinAlone(joins, live, wish, rest, l, t, r);
    NewEntries(joins, live, wish, rest, l, t);
    NewEntries(joins, live, wish, rest, l, r);
    forall s | s in live && Twins(wish, r, s) ensures Keys(wish(r)) !! Keys(wish(l)) {
      TwinsBoth(joins, live, wish, rest, r, s);
      assert t != s ==> Entry(joins, wish(t)) !in Keys(wish(r));
    }
  }

  lemma NewKeepsShared<P(!new), S>(joins: set<S>, live: set<P>, wish: P -> Wish<S>, rest: set<S>, l: P)
    requires Fair(joins, live, wish, rest) && l !in live && Clear(joins, live, wish, l)
    ensures Found(joins + {wish(l).k1}, live + {l}, wish, rest) && Shared(joins + {wish(l).k1}, live + {l}, wish, rest)
  {
    var j, live' := joins + {wish(l).k1}, live + {l};
    NewEntry(joins, live, wish, rest, l);
    forall p | p in live' ensures On(j, wish(p)) && Entry(j, wish(p)) !in rest {
      if p != l { NewEntries(joins, live, wish, rest, l, p); }
    }
    forall p, q | p in live' && q in live' && p != q && Entry(j, wish(p)) == Entry(j, wish(q))
      ensures Twins(wish, p, q) && Both(j, wish(p), rest)
    {
      if p == l { NewShared(joins, live, wish, rest, l, q); }
      else if q == l { NewShared(joins, live, wish, rest, l, p); }
      else { NewSharedOld(joins, live, wish, rest, l, p, q); }
    }
  }

  lemma NewKeepsTwins<P(!new), S>(joins: set<S>, live: set<P>, wish: P -> Wish<S>, rest: set<S>, l: P)
    requires Fair(joins, live, wish, rest) && l !in live && Clear(joins, live, wish, l)
    ensures TwinsApart(joins + {wish(l).k1}, live + {l}, wish) && TwinsDisjoint(live + {l}, wish)
  {
    var j, live' := joins + {wish(l).k1}, live + {l};
    forall p, q, r | p in live' && q in live' && r in live' && Twins(wish, p, q) && r != p && r != q
      ensures Entry(j, wish(r)) !in Keys(wish(p))
    {
      if p == l { NewTwin(joins, live, wish, rest, l, q, r); }
      else if q == l { NewTwin(joins, live, wish, rest, l, p, r); }
      else { NewApart(joins, live, wish, rest, l, p, q, r); }
    }
    forall p, q, r, s | p in live' && q in live' && r in live' && s in live'
                        && Twins(wish, p, q) && Twins(wish, r, s) && r != p && r != q
      ensures Keys(wish(p)) !! Keys(wish(r))
    {
      NewDisjoint(joins, live, wish, rest, l, p, q, r, s);
    }
  }

  lemma NewDisjoint<P(!new), S>(joins: set<S>, live: set<P>, wish: P -> Wish<S>, rest: set<S>, l: P, p: P, q: P,
                                r: P, s: P)
    requires Fair(joins, live, wish, rest) && l !in live && Clear(joins, live, wish, l)
    requires p in live + {l} && q in live + {l} && r in live + {l} && s in live + {l}
    requires Twins(wish, p, q) && Twins(wish, r, s) && r != p && r != q
    ensures Keys(wish(p)) !! Keys(wish(r))
  {
    if p == l || q == l {
      NewTwin(joins, live, wish, rest, l, if p == l then q else p, r);
    } else if r == l || s == l {
      var t := if r == l then s else r;
      if t != p { NewTwin(joins, live, wish, rest, l, t, p); } else { NewTwin(joins, live, wish, rest, l, t, q); }
    }
  }

  // A record on which every link is sure to find its entry stays so with one more link if and only if the
  // new link is clear, and its entry not one that stays for good.
  lemma NewToldIff<P(!new), S(!new)>(joins: set<S>, live: set<P>, wish: P -> Wish<S>, rest: set<S>, l: P, forGood: bool)
    requires AllTold(joins, live, wish, rest) && l !in live && (forGood && wish(l).k1 in joins ==> wish(l).k1 in rest)
    ensures var k := wish(l).k1;
            AllTold(joins + {k}, live + {l}, wish, if forGood then rest + {k} else rest)
            <==> Clear(joins, live, wish, l) && !forGood
  {
    var k := wish(l).k1;
    var rest' := if forGood then rest + {k} else rest;
    ToldIsFair(joins, live, wish, rest);
    NewCounts(joins, live, rest, l, k, forGood);
    if AllTold(joins + {k}, live + {l}, wish, rest') {
      ToldIsFair(joins + {k}, live + {l}, wish, rest');
      NewNeedsClear(joins, live, wish, rest, l);
    }
    if Clear(joins, live, wish, l) && !forGood {
      NewKeepsShared(joins, live, wish, rest, l);
      NewKeepsTwins(joins, live, wish, rest, l);
      FairIsTold(joins + {k}, live + {l}, wish, rest);
    }
  }

  // ---- entries that stay for good, and other names for the same wishes ----

  // A further entry for good keeps every link sure of its own if and only if none would find it before.
  lemma ForGoodIff<P(!new), S(!new)>(joins: set<S>, live: set<P>, wish: P -> Wish<S>, rest: set<S>, k: S)
    requires AllTold(joins, live, wish, rest) && k !in joins
    ensures AllTold(joins + {k}, live, wish, rest + {k})
       <==> forall q | q in live :: Entry(joins + {k}, wish(q)) == Entry(joins, wish(q))
  {
    ToldIsFair(joins, live, wish, rest);
    if AllTold(joins + {k}, live, wish, rest + {k}) {
      forall q | q in live ensures Entry(joins + {k}, wish(q)) == Entry(joins, wish(q)) {
        ToldFinds(joins + {k}, live, wish, rest + {k}, q);
        assert On(joins, wish(q));
      }
    }
    if forall q | q in live :: Entry(joins + {k}, wish(q)) == Entry(joins, wish(q)) {
      ForGoodKeeps(joins, live, wish, rest, k);
      FairIsTold(joins + {k}, live, wish, rest + {k});
    }
  }

  lemma ForGoodKeeps<P(!new), S>(joins: set<S>, live: set<P>, wish: P -> Wish<S>, rest: set<S>, k: S)
    requires Fair(joins, live, wish, rest) && k !in joins
    requires forall q | q in live :: Entry(joins + {k}, wish(q)) == Entry(joins, wish(q))
    ensures Fair(joins + {k}, live, wish, rest + {k})
  {
    forall p | p in live ensures On(joins + {k}, wish(p)) && Entry(joins + {k}, wish(p)) !in rest + {k} {
      EntryThere(joins, wish(p));
    }
    forall p, q | p in live && q in live && p != q && Entry(joins + {k}, wish(p)) == Entry(joins + {k}, wish(q))
      ensures Twins(wish, p, q) && Both(joins + {k}, wish(p), rest + {k})
    {
      assert Entry(joins, wish(p)) == Entry(joins, wish(q));
    }
  }

  // Without an entry that was there for good nothing changes for the links.
  lemma WithoutForGood<P(!new), S(!new)>(joins: set<S>, live: set<P>, wish: P -> Wish<S>, rest: set<S>, k: S)
    requires AllTold(joins, live, wish, rest) && k in rest
    ensures AllTold(joins - {k}, live, wish, rest - {k})
  {
    ToldIsFair(joins, live, wish, rest);
    LessOne(joins, k);
    LessOne(rest, k);
    forall p | p in live
      ensures On(joins - {k}, wish(p)) && Entry(joins - {k}, wish(p)) == Entry(joins, wish(p))
              && Entry(joins, wish(p)) !in rest
    {
      EntryAfter(joins, wish(p), k);
    }
    forall p, q | p in live && q in live && p != q && Entry(joins - {k}, wish(p)) == Entry(joins - {k}, wish(q))
      ensures Twins(wish, p, q) && Both(joins - {k}, wish(p), rest - {k})
    {
      assert Both(joins, wish(p), rest);
    }
    FairIsTold(joins - {k}, live, wish, rest - {k});
  }

  // The same two entries, perhaps the other way round
  ghost predicate Alike<S>(c: Wish<S>, d: Wish<S>) {
    d == c || (d.k1 == c.k2 && d.k2 == c.k1 && (c.k1 != c.k2 ==> d.secondFirst == !c.secondFirst))
  }

  lemma EntryAlike<S>(joins: set<S>, c: Wish<S>, d: Wish<S>)
    requires Alike(c, d)
    ensures On(joins, d) == On(joins, c) && Keys(d) == Keys(c)
    ensures On(joins, c) ==> Entry(joins, d) == Entry(joins, c)
  {
  }

  lemma {:induction false} ToldAlikeIn<P(!new), S(!new)>(joins: set<S>, order: seq<P>, wish: P -> Wish<S>,
                                                         wish': P -> Wish<S>, rest: set<S>)
    requires Told(joins, order, wish, rest) && forall l | l in order :: Alike(wish(l), wish'(l))
    ensures Told(joins, order, wish', rest)
    decreases |order|
  {
    if order != [] {
      var l := order[0];
      assert l in order;
      EntryAlike(joins, wish(l), wish'(l));
      ToldAlikeIn(joins - {Entry(joins, wish(l))}, order[1..], wish, wish', rest);
    }
  }

  // Only what the live links may have matters, and not in which order it is named.
  lemma ToldAlike<P(!new), S(!new)>(joins: set<S>, live: set<P>, wish: P -> Wish<S>, wish': P -> Wish<S>, rest: set<S>)
    requires AllTold(joins, live, wish, rest) && forall l | l in live :: Alike(wish(l), wish'(l))
    ensures AllTold(joins, live, wish', rest)
  {
    forall order | Lists(order, live) ensures Told(joins, order, wish', rest) {
      forall l | l in order ensures l in live { assert l in multiset(order); assert l in multiset(live); }
      ToldAlikeIn(joins, order, wish, wish', rest);
    }
  }

  lemma ToldAlikeIff<P(!new), S(!new)>(joins: set<S>, live: set<P>, wish: P -> Wish<S>, wish': P -> Wish<S>,
                                       rest: set<S>)
    requires forall l | l in live :: Alike(wish(l), wish'(l))
    ensures AllTold(joins, live, wish, rest) <==> AllTold(joins, live, wish', rest)
  {
    if AllTold(joins, live, wish, rest) { ToldAlike(joins, live, wish, wish', rest); }
    if AllTold(joins, live, wish', rest) { ToldAlike(joins, live, wish', wish, rest); }
  }
}
