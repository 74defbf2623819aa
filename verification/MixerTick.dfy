// One round of a conference's mixing loop, every 20 ms: what each listener hears, and what
// becomes of the frames that participants have queued.
module MixerTick {
  import opened MixerNodes
  import opened MixerLinks

  // C's integer division, which truncates towards zero.
  function CDiv(a: int, b: int): int
    requires b > 0
  {
    if a >= 0 then a / b else -((-a) / b)
  }

  function Clip16(x: int): Short {
    if x > 32767 then 32767 else if x < -32768 then -32768 else x
  }

  function Scaled(x: int, volume: int): int {
    if volume == 100 then x else CDiv(x * volume, 100)
  }

  lemma ScaledByAHundred(x: int, volume: int)
    ensures Scaled(x, volume) == CDiv(x * volume, 100)
  {
  }

  // ---- sums that do not depend on the order of the peers ----

  ghost function Sum<P>(s: set<P>, part: map<P, int>): int
    requires s <= part.Keys
  {
    if s == {} then 0 else var p :| p in s; part[p] + Sum(s - {p}, part)
  }

  lemma {:induction false} SumTake<P>(s: set<P>, part: map<P, int>, p: P)
    requires s <= part.Keys && p in s
    ensures Sum(s, part) == part[p] + Sum(s - {p}, part)
    decreases s
  {
    var q :| q in s && Sum(s, part) == part[q] + Sum(s - {q}, part);
    if q != p {
      SumTake(s - {q}, part, p);
      SumTake(s - {p}, part, q);
      assert s - {q} - {p} == s - {p} - {q};
    }
  }

  // ---- the mix ----

  function Queue(n: NodeState, p: Conn): seq<Frame> {
    if p in n.queued then n.queued[p] else []
  }

  function Sample(f: Frame, i: nat): int
    requires i < SAMPLES
  {
    if f.buffer.NullBuffer? then 0 else f.buffer.cells[i]
  }

  // While announcements play, participants are attenuated to a third.
  function Attenuated(x: int, playing: bool): int {
    if playing then CDiv(x, 3) else x
  }

  // Peers whose front frame is in this round's mix
  ghost function Contributors(n: NodeState): set<Conn> {
    set p | p in n.links && n.links[p].Receives() && Queue(n, p) != []
  }

  ghost function Parts(n: NodeState, playing: bool, i: nat): map<Conn, int>
    requires i < SAMPLES
  {
    map p | p in Contributors(n) :: Attenuated(Sample(Queue(n, p)[0], i), playing)
  }

  type Bots = map<string, seq<Frame>>   // announcement frames by transaction

  ghost function Talking(bots: Bots): set<string> { set t | t in bots && bots[t] != [] }

  ghost function BotParts(bots: Bots, i: nat): map<string, int>
    requires i < SAMPLES
  {
    map t | t in Talking(bots) :: Sample(bots[t][0], i)
  }

  ghost function Announced(bots: Bots, i: nat): int
    requires i < SAMPLES
  {
    Sum(Talking(bots), BotParts(bots, i))
  }

  ghost function MixedBy(n: NodeState, who: set<Conn>, playing: bool, i: nat): int
    requires i < SAMPLES && who <= Contributors(n)
  {
    Sum(who, Parts(n, playing, i))
  }

  // Peers the conference sends its mix to
  ghost function Listeners(n: NodeState): set<Conn>
    requires n.links.Keys <= n.mutes.Keys
  {
    set p | p in n.links && n.links[p].Sends() && !n.mutes[p]
  }

  // What one round leaves in the sum buffer
  ghost function Total(n: NodeState, bots: Bots, carry: int, i: nat): int
    requires i < SAMPLES
  {
    carry + Announced(bots, i) + MixedBy(n, Contributors(n), bots != map[], i)
  }

  // What peer p hears at sample i: announcements and all the others, never itself, at its volume.
  // carry is what the sum buffer holds before the round.
  ghost function Heard(n: NodeState, bots: Bots, carry: int, p: Conn, i: nat): Short
    requires i < SAMPLES && p in n.volumes
  {
    Clip16(CDiv((carry + Announced(bots, i) + MixedBy(n, Contributors(n) - {p}, bots != map[], i)) * n.volumes[p], 100))
  }

  // A listener's own part of the mix
  ghost function Own(n: NodeState, playing: bool, p: Conn, i: nat): int
    requires i < SAMPLES
  {
    if p in Contributors(n) then Attenuated(Sample(Queue(n, p)[0], i), playing) else 0
  }

  // Taking one's own attenuated sample out of the sum leaves exactly the others.
  lemma OwnVoiceCancels(n: NodeState, playing: bool, p: Conn, i: nat)
    requires i < SAMPLES
    ensures MixedBy(n, Contributors(n) - {p}, playing, i) ==
            MixedBy(n, Contributors(n), playing, i) - Own(n, playing, p, i)
  {
    if p in Contributors(n) {
      SumTake(Contributors(n), Parts(n, playing, i), p);
    } else {
      assert Contributors(n) - {p} == Contributors(n);
    }
  }

  lemma HeardFromTotal(n: NodeState, bots: Bots, carry: int, p: Conn, i: nat)
    requires i < SAMPLES && p in n.volumes
    ensures Heard(n, bots, carry, p, i)
         == Clip16(CDiv((Total(n, bots, carry, i) - Own(n, bots != map[], p, i)) * n.volumes[p], 100))
  {
    OwnVoiceCancels(n, bots != map[], p, i);
  }

  // ---- what the listeners are handed ----

  // A short is a hundredth of s, rounded towards zero, or the outermost short if that is beyond it.
  ghost predicate Hundredth(h: Short, s: int) {
    && (s >= 3276800 ==> h == 32767)
    && (s <= -3276900 ==> h == -32768)
    && (0 <= s < 3276800 ==> 0 <= s - 100 * h < 100)
    && (-3276900 < s <= 0 ==> -100 < s - 100 * h <= 0)
  }

  lemma CDivIs(a: int, b: int)
    requires b > 0
    ensures a >= 0 ==> 0 <= a - b * CDiv(a, b) < b
    ensures a <= 0 ==> -b < a - b * CDiv(a, b) <= 0
  {
    if a < 0 { assert (-a) == b * ((-a) / b) + (-a) % b; }
  }

  // A listener hears the announcements and all the others at its percentage, clipped where that is too loud.
  lemma HeardIs(n: NodeState, bots: Bots, carry: int, p: Conn, i: nat)
    requires i < SAMPLES && p in n.volumes
    ensures Hundredth(Heard(n, bots, carry, p, i),
                      (carry + Announced(bots, i) + MixedBy(n, Contributors(n) - {p}, bots != map[], i)) * n.volumes[p])
  {
    CDivIs((carry + Announced(bots, i) + MixedBy(n, Contributors(n) - {p}, bots != map[], i)) * n.volumes[p], 100);
  }

  // At full volume it is the short that is nearest to the sum.
  lemma FullVolumeIsNearest(h: Short, sum: int, y: Short)
    requires Hundredth(h, sum * 100)
    ensures (if sum >= h then sum - h else h - sum) <= (if sum >= y then sum - y else y - sum)
    ensures -32768 <= sum <= 32767 ==> h == sum
  {
  }

  // Louder is never lower.
  lemma HundredthGrows(h: Short, s: int, k: Short, t: int)
    requires Hundredth(h, s) && Hundredth(k, t) && s <= t
    ensures h <= k
  {
  }

  lemma AttenuatedIs(x: int)
    ensures Attenuated(x, false) == x
    ensures x >= 0 ==> 0 <= x - 3 * Attenuated(x, true) <= 2
    ensures x <= 0 ==> -2 <= x - 3 * Attenuated(x, true) <= 0
  {
    CDivIs(x, 3);
  }

  // While announcements play the participants are mixed at a third, but for what each of them is rounded by.
  lemma {:induction false} ThirdOfMix(n: NodeState, who: set<Conn>, i: nat)
    requires i < SAMPLES && who <= Contributors(n)
    ensures -2 * |who| <= MixedBy(n, who, false, i) - 3 * MixedBy(n, who, true, i) <= 2 * |who|
    decreases |who|
  {
    if p :| p in who {
      SumTake(who, Parts(n, false, i), p);
      SumTake(who, Parts(n, true, i), p);
      AttenuatedIs(Sample(Queue(n, p)[0], i));
      ThirdOfMix(n, who - {p}, i);
    }
  }

  // Whoever contributes, it is with the frame that leaves its queue as mixed.
  lemma MixedIsLeaving(n: NodeState, p: Conn, i: nat)
    requires i < SAMPLES
    ensures p in Contributors(n) <==> |Leaving(n, Tick, p)| == 1 && Leaving(n, Tick, p)[0].1 == Mixed
    ensures p in Contributors(n) ==> Parts(n, false, i)[p] == Sample(Leaving(n, Tick, p)[0].0, i)
  {
  }

  // The announcements after some rounds
  function Played(bots: Bots, rounds: nat): Bots {
    if rounds == 0 then bots
    else
      var before := Played(bots, rounds - 1);
      map t | t in before :: if before[t] != [] then before[t][1..] else []
  }

  lemma {:induction false} PlayedIs(bots: Bots, rounds: nat)
    ensures Played(bots, rounds) == map t | t in bots :: if |bots[t]| > rounds then bots[t][rounds..] else []
    decreases rounds
  {
    if rounds > 0 { PlayedIs(bots, rounds - 1); }
  }

  // Announcements are heard frame by frame, each round the next frame of every one that goes on.
  lemma AnnouncedInOrder(bots: Bots, rounds: nat, i: nat)
    requires i < SAMPLES
    ensures Talking(Played(bots, rounds)) == set t | t in bots && |bots[t]| > rounds
    ensures BotParts(Played(bots, rounds), i)
         == map t | t in bots && |bots[t]| > rounds :: Sample(bots[t][rounds], i)
  {
    PlayedIs(bots, rounds);
  }

  // The loop clears 640 bytes of a buffer of 160 longs: the cells that hold nothing before a round.
  predicate Cleared(longBytes: nat, i: nat)
    requires longBytes > 0
  {
    i < 640 / longBytes
  }

  function CarryAt(longBytes: nat, before: seq<int>, i: nat): int
    requires longBytes > 0 && i < |before|
  {
    if Cleared(longBytes, i) then 0 else before[i]
  }

  // ---- queues ----

  // After a round every peer has lost its front frame, mixed or not; a conference without peers
  // stops before that.
  function Popped(n: NodeState): NodeState {
    n.(queued := map p | p in n.queued ::
         if p in n.links && n.queued[p] != [] then n.queued[p][1..] else n.queued[p])
  }

  function Fed(n: NodeState, sender: Conn, f: Frame): NodeState {
    n.(queued := n.queued[sender := Queue(n, sender) + [f]])
  }

  datatype ConfOp = Feed(sender: Conn, frame: Frame) | Tick | Relink(op: NodeOp)

  datatype Fate = Mixed | Dropped | Erased

  function ApplyConf(n: NodeState, op: ConfOp): NodeState {
    match op
    case Feed(s, f) => Fed(n, s, f)
    case Tick => Popped(n)
    case Relink(o) => Apply(n, o)
  }

  function RunConf(n: NodeState, ops: seq<ConfOp>): NodeState
    decreases |ops|
  {
    if ops == [] then n else ApplyConf(RunConf(n, ops[..|ops| - 1]), ops[|ops| - 1])
  }

  function FedBy(ops: seq<ConfOp>, p: Conn): seq<Frame>
    decreases |ops|
  {
    if ops == [] then [] else
      FedBy(ops[..|ops| - 1], p) +
      (var op := ops[|ops| - 1]; if op.Feed? && op.sender == p then [op.frame] else [])
  }

  // The frames of p that one operation takes out of its queue, and why
  ghost function Leaving(n: NodeState, op: ConfOp, p: Conn): seq<(Frame, Fate)> {
    match op
    case Feed(_, _) => []
    case Tick =>
      if p !in n.links || Queue(n, p) == [] then []
      else [(Queue(n, p)[0], if p in Contributors(n) then Mixed else Dropped)]
    case Relink(o) =>
      if o.DetachOp? && o.peer == p && o.peerAudio && p in n.links
      then seq(|Queue(n, p)|, i requires 0 <= i < |Queue(n, p)| => (Queue(n, p)[i], Erased)) else []
  }

  ghost function Left(n: NodeState, ops: seq<ConfOp>, p: Conn): seq<(Frame, Fate)>
    decreases |ops|
  {
    if ops == [] then [] else
      Left(n, ops[..|ops| - 1], p) + Leaving(RunConf(n, ops[..|ops| - 1]), ops[|ops| - 1], p)
  }

  function Frames(l: seq<(Frame, Fate)>): seq<Frame> {
    seq(|l|, i requires 0 <= i < |l| => l[i].0)
  }

  lemma FramesConcat(l: seq<(Frame, Fate)>, k: seq<(Frame, Fate)>)
    ensures Frames(l + k) == Frames(l) + Frames(k)
  {
  }

  lemma ConferenceStays(n: NodeState, op: ConfOp)
    requires n.kind.Conference?
    ensures ApplyConf(n, op).kind.Conference?
  {
  }

  // One operation moves frames only from the back of the input to the front of the output.
  lemma StepConserves(n: NodeState, op: ConfOp, p: Conn)
    requires n.kind.Conference?
    ensures Queue(n, p) + (if op.Feed? && op.sender == p then [op.frame] else [])
         == Frames(Leaving(n, op, p)) + Queue(ApplyConf(n, op), p)
  {
    match op
    case Feed(s, f) => FeedConserves(n, s, f, p);
    case Tick => TickConserves(n, p);
    case Relink(o) => DetachErases(n, o, p);
  }

  lemma FeedConserves(n: NodeState, s: Conn, f: Frame, p: Conn)
    ensures Queue(Fed(n, s, f), p) == Queue(n, p) + if s == p then [f] else []
  {
  }

  lemma TickConserves(n: NodeState, p: Conn)
    ensures Queue(n, p) == Frames(Leaving(n, Tick, p)) + Queue(Popped(n), p)
  {
    if p in n.links && Queue(n, p) != [] { assert Queue(n, p) == [Queue(n, p)[0]] + Queue(n, p)[1..]; }
  }

  lemma DetachErases(n: NodeState, o: NodeOp, p: Conn)
    requires n.kind.Conference?
    ensures Queue(n, p) == Frames(Leaving(n, Relink(o), p)) + Queue(Apply(n, o), p)
  {
    if o.DetachOp? && o.peer == p && o.peerAudio && p in n.links {
      assert p !in Detach(n, p, o.peerAudio).0.links;
      assert Frames(Leaving(n, Relink(o), p)) == Queue(n, p);
    }
  }

  lemma Chain(fed: seq<Frame>, more: seq<Frame>, left: seq<Frame>, leaving: seq<Frame>, q: seq<Frame>, q': seq<Frame>)
    requires fed == left + q && q + more == leaving + q'
    ensures fed + more == left + leaving + q'
  {
    assert fed + more == left + (q + more);
  }

  // Over any run of a conference that starts with empty queues: the frames of each sender leave in
  // the order they were fed, each once, and every frame fed has been mixed, dropped or erased, or
  // still waits.
  lemma {:induction false} RunConserves(n: NodeState, ops: seq<ConfOp>, p: Conn)
    requires n.kind.Conference? && Queue(n, p) == []
    ensures RunConf(n, ops).kind.Conference?
    ensures FedBy(ops, p) == Frames(Left(n, ops, p)) + Queue(RunConf(n, ops), p)
    decreases |ops|
  {
    if ops != [] {
      var before, op := ops[..|ops| - 1], ops[|ops| - 1];
      var m := RunConf(n, before);
      RunConserves(n, before, p);
      ConferenceStays(m, op);
      StepConserves(m, op, p);
      FramesConcat(Left(n, before, p), Leaving(m, op, p));
      Chain(FedBy(before, p), if op.Feed? && op.sender == p then [op.frame] else [],
            Frames(Left(n, before, p)), Frames(Leaving(m, op, p)), Queue(m, p), Queue(ApplyConf(m, op), p));
    }
  }

  function Count(l: seq<(Frame, Fate)>, f: Fate): nat {
    if l == [] then 0 else (if l[0].1 == f then 1 else 0) + Count(l[1..], f)
  }

  lemma {:induction false} CountAll(l: seq<(Frame, Fate)>)
    ensures Count(l, Mixed) + Count(l, Dropped) + Count(l, Erased) == |l|
    decreases |l|
  {
    if l != [] { CountAll(l[1..]); }
  }

  // Frames fed = frames mixed + frames discarded + frames still queued.
  lemma RunCounts(n: NodeState, ops: seq<ConfOp>, p: Conn)
    requires n.kind.Conference? && Queue(n, p) == []
    ensures var l := Left(n, ops, p);
            |FedBy(ops, p)| == Count(l, Mixed) + Count(l, Dropped) + Count(l, Erased) + |Queue(RunConf(n, ops), p)|
  {
    RunConserves(n, ops, p);
    CountAll(Left(n, ops, p));
  }

  function Ticks(ops: seq<ConfOp>): nat
    decreases |ops|
  {
    if ops == [] then 0 else Ticks(ops[..|ops| - 1]) + if ops[|ops| - 1] == Tick then 1 else 0
  }

  lemma {:induction false} CountMore(l: seq<(Frame, Fate)>, k: seq<(Frame, Fate)>, f: Fate)
    ensures Count(l + k, f) == Count(l, f) + Count(k, f)
    decreases |l|
  {
    if l == [] {
      assert l + k == k;
    } else {
      assert (l + k)[1..] == l[1..] + k;
      CountMore(l[1..], k, f);
    }
  }

  lemma {:induction false} CountErased(l: seq<(Frame, Fate)>, f: Fate)
    requires f != Erased && forall i | 0 <= i < |l| :: l[i].1 == Erased
    ensures Count(l, f) == 0
    decreases |l|
  {
    if l != [] { CountErased(l[1..], f); }
  }

  // Over any run, no more frames of a peer are mixed or dropped than there are rounds.
  lemma {:induction false} OnePerRound(n: NodeState, ops: seq<ConfOp>, p: Conn)
    ensures Count(Left(n, ops, p), Mixed) + Count(Left(n, ops, p), Dropped) <= Ticks(ops)
    decreases |ops|
  {
    if ops != [] {
      var before, op := ops[..|ops| - 1], ops[|ops| - 1];
      var l, k := Left(n, before, p), Leaving(RunConf(n, before), op, p);
      OnePerRound(n, before, p);
      CountMore(l, k, Mixed);
      CountMore(l, k, Dropped);
      if op.Relink? {
        CountErased(k, Mixed);
        CountErased(k, Dropped);
      } else if k != [] {
        assert k[1..] == [];
      }
    }
  }

  // ---- several rounds ----

  // A conference and its announcements at the time of a round
  datatype Moment = Moment(n: NodeState, bots: Bots)

  // A cell of the sum buffer after some rounds; start is what the memory held before the first one.
  ghost function SumAfter(longBytes: nat, start: seq<int>, rounds: seq<Moment>, i: nat): int
    requires longBytes > 0 && i < SAMPLES == |start|
    decreases |rounds|
  {
    if rounds == [] then start[i]
    else
      var m := rounds[|rounds| - 1];
      Total(m.n, m.bots, if Cleared(longBytes, i) then 0 else SumAfter(longBytes, start, rounds[..|rounds| - 1], i), i)
  }

  // All that was mixed at a sample in some rounds
  ghost function PiledUp(rounds: seq<Moment>, i: nat): int
    requires i < SAMPLES
    decreases |rounds|
  {
    if rounds == [] then 0
    else PiledUp(rounds[..|rounds| - 1], i) + Total(rounds[|rounds| - 1].n, rounds[|rounds| - 1].bots, 0, i)
  }

  // Over any number of rounds, a cell that is not cleared holds the sum of everything mixed since the start.
  lemma {:induction false} SumsPileUp(longBytes: nat, start: seq<int>, rounds: seq<Moment>, i: nat)
    requires longBytes > 0 && i < SAMPLES == |start| && !Cleared(longBytes, i)
    ensures SumAfter(longBytes, start, rounds, i) == start[i] + PiledUp(rounds, i)
    decreases |rounds|
  {
    if rounds != [] { SumsPileUp(longBytes, start, rounds[..|rounds| - 1], i); }
  }

  // The sum buffers of consecutive rounds are these sums.
  lemma {:induction false} SumsFollow(longBytes: nat, buffers: seq<seq<int>>, rounds: seq<Moment>, i: nat)
    requires longBytes > 0 && i < SAMPLES && |buffers| == |rounds| + 1
    requires forall k | 0 <= k < |buffers| :: |buffers[k]| == SAMPLES
    requires forall k | 0 <= k < |rounds| ::
               buffers[k + 1][i] == Total(rounds[k].n, rounds[k].bots, CarryAt(longBytes, buffers[k], i), i)
    ensures buffers[|rounds|][i] == SumAfter(longBytes, buffers[0], rounds, i)
    decreases |rounds|
  {
    if rounds != [] {
      var before := rounds[..|rounds| - 1];
      assert forall k | 0 <= k < |before| :: before[k] == rounds[k];
      SumsFollow(longBytes, buffers[..|rounds|], before, i);
    }
  }

  // The sum of a round is that of its own voices if and only if the cell is cleared or the rounds before
  // it happen to cancel out.
  lemma CleanSumIff(longBytes: nat, start: seq<int>, rounds: seq<Moment>, i: nat)
    requires longBytes > 0 && i < SAMPLES == |start| && rounds != []
    ensures var m := rounds[|rounds| - 1];
            SumAfter(longBytes, start, rounds, i) == Total(m.n, m.bots, 0, i)
            <==> Cleared(longBytes, i) || start[i] + PiledUp(rounds[..|rounds| - 1], i) == 0
  {
    if !Cleared(longBytes, i) { SumsPileUp(longBytes, start, rounds[..|rounds| - 1], i); }
  }

  // All cells are cleared if and only if a long has at most four bytes.
  lemma AllClearedIff(longBytes: nat)
    requires longBytes > 0
    ensures (forall i: nat | i < SAMPLES :: Cleared(longBytes, i)) <==> longBytes <= 4
  {
    if longBytes <= 4 {
      assert 640 / longBytes >= 160 by { assert longBytes * 160 <= 640; }
    } else {
      assert 640 / longBytes < 160;
      assert !Cleared(longBytes, 159);
    }
  }

  const LOUD: Frame := Frame(0, Pcm(seq(SAMPLES, _ => 1000)))

  // Somebody speaks for one round, somebody else listens.
  const ONE_SPEAKS: seq<ConfOp> := [
    Relink(AttachOp(1, true, RecvOnly, 100)), Relink(AttachOp(2, true, SendOnly, 100)), Feed(1, LOUD)]

  lemma OneSpeaks(n: NodeState) returns (first: NodeState)
    requires n == NewConference(0, "c")
    ensures first == RunConf(n, ONE_SPEAKS)
    ensures first.links == map[1 := RecvOnly, 2 := SendOnly] && first.queued == map[1 := [LOUD]]
    ensures first.volumes == map[1 := 100, 2 := 100] && first.mutes == map[1 := false, 2 := false]
  {
    var a, b, c := ONE_SPEAKS[0], ONE_SPEAKS[1], ONE_SPEAKS[2];
    assert ONE_SPEAKS[..2] == [a, b] && [a, b][..1] == [a] && [a][..0] == [];
    var n1 := n.(links := map[1 := RecvOnly], volumes := map[1 := 100], mutes := map[1 := false]);
    assert n.links[1 := RecvOnly] == n1.links && n.volumes[1 := 100] == n1.volumes && n.mutes[1 := false] == n1.mutes;
    assert RunConf(n, [a]) == ApplyConf(n, a) == n1;
    assert RunConf(n, [a, b]) == ApplyConf(n1, b);
    first := ApplyConf(ApplyConf(n1, b), c);
    assert RunConf(n, ONE_SPEAKS) == first;
    assert first.links == n1.links[2 := SendOnly] == map[1 := RecvOnly, 2 := SendOnly];
    assert first.volumes == n1.volumes[2 := 100] == map[1 := 100, 2 := 100];
    assert first.mutes == n1.mutes[2 := false] == map[1 := false, 2 := false];
    assert Queue(ApplyConf(n1, b), 1) + [LOUD] == [LOUD];
    assert first.queued == map[1 := [LOUD]];
  }

  lemma TickMore(n: NodeState, ops: seq<ConfOp>)
    ensures RunConf(n, ops + [Tick]) == Popped(RunConf(n, ops))
  {
    assert (ops + [Tick])[..|ops|] == ops;
  }

  // Two rounds of a new conference, with longs of eight bytes: somebody speaks in the first one, nobody in
  // the second, and in its second half the listener hears the first one again.
  lemma SecondRoundReplays(i: nat) returns (first: NodeState, second: NodeState)
    requires i < SAMPLES
    ensures first == RunConf(NewConference(0, "c"), ONE_SPEAKS)
    ensures second == RunConf(NewConference(0, "c"), ONE_SPEAKS + [Tick])
    ensures 2 in first.volumes && Heard(first, map[], 0, 2, i) == 1000
    ensures 2 in second.volumes && Contributors(second) == {}
    ensures var carry := if Cleared(8, i) then 0 else SumAfter(8, seq(SAMPLES, _ => 0), [Moment(first, map[])], i);
            Heard(second, map[], carry, 2, i) == if i < 80 then 0 else 1000
  {
    first := OneSpeaks(NewConference(0, "c"));
    TickMore(NewConference(0, "c"), ONE_SPEAKS);
    second := Popped(first);
    assert second.queued == map[1 := []];
    assert Contributors(first) == {1} && Contributors(second) == {};
    assert Talking(map[]) == {};
    assert Sample(LOUD, i) == 1000;
    SumTake({1}, Parts(first, false, i), 1);
    assert {1} - {1} == {} && {1} - {2} == {1};
    var rounds := [Moment(first, map[])];
    assert rounds[..0] == [];
  }

  // The two sides of a link agree on who is heard: a frame mixed for p is passed on by p, and a
  // frame that p passes to the conference is one that the conference mixes.
  lemma SidesAgree(g: map<Conn, NodeState>, c: Conn, p: Conn)
    requires Inv(g) && Linked(g, c, p) && g[c].kind.Conference?
    ensures p in g && c in g[p].links
    ensures g[c].links[p].Sends() <==> g[p].links[c].Receives()
    ensures g[c].links[p].Receives() <==> g[p].links[c].Sends()
  {
    assert Mirrored(g, c, p);
    InvSymmetric(g, c, p);
    ReverseInvolution(g[c].links[p]);
  }

  // ---- the queues in runs of the whole mixer ----

  // A request, a connection that passes a frame on to a conference, or a round of a conference
  datatype Happening = Ask(request: Request) | Pass(from: Conn, to: Conn, frame: Frame) | Round(conf: Conn)

  predicate IsConference(g: map<Conn, NodeState>, c: Conn) { c in g && g[c].kind.Conference? }

  // A connection passes frames to those peers that its own side of the link lets it send to.
  ghost predicate Possible(m: Mixer, h: Happening) {
    match h
    case Ask(r) => Allowed(m, r)
    case Pass(p, c, _) => IsConference(m.graph, c) && Linked(m.graph, p, c) && m.graph[p].links[c].Sends()
    case Round(c) => IsConference(m.graph, c)
  }

  ghost function Happen(m: Mixer, h: Happening): Mixer
    requires Possible(m, h)
  {
    match h
    case Ask(r) => Step(m, r).0
    case Pass(p, c, f) => m.(graph := m.graph[c := Fed(m.graph[c], p, f)])
    case Round(c) => m.(graph := m.graph[c := Popped(m.graph[c])])
  }

  ghost predicate IsLive(states: seq<Mixer>, events: seq<Happening>) {
    && |states| == |events| + 1
    && states[0] == EMPTY
    && forall i | 0 <= i < |events| :: Possible(states[i], events[i]) && states[i + 1] == Happen(states[i], events[i])
  }

  lemma HappenKeepsInv(m: Mixer, h: Happening)
    requires Inv(m.graph) && Possible(m, h)
    ensures Inv(Happen(m, h).graph)
  {
    match h
    case Ask(r) => StepKeepsInv(m, r);
    case Pass(p, c, f) =>
      if p != c { InvSymmetric(m.graph, p, c); }
      RewriteKeepsInv(m.graph, c, Fed(m.graph[c], p, f));
    case Round(c) => RewriteKeepsInv(m.graph, c, Popped(m.graph[c]));
  }

  lemma {:induction false} LiveKeepsInv(states: seq<Mixer>, events: seq<Happening>, i: nat)
    requires IsLive(states, events) && i < |states|
    ensures Inv(states[i].graph)
  {
    if i > 0 {
      LiveKeepsInv(states, events, i - 1);
      HappenKeepsInv(states[i - 1], events[i - 1]);
      assert states[i] == Happen(states[i - 1], events[i - 1]);
    }
  }

  // In every run of requests, frames and rounds: a conference queues frames of its peers only,
  lemma QueuesOfPeers(states: seq<Mixer>, events: seq<Happening>, i: nat, c: Conn, p: Conn)
    requires IsLive(states, events) && i < |states| && IsConference(states[i].graph, c)
    requires Queue(states[i].graph[c], p) != []
    ensures Linked(states[i].graph, c, p) && Linked(states[i].graph, p, c)
  {
    LiveKeepsInv(states, events, i);
    assert Sound(states[i].graph[c]);
    if p != c { InvSymmetric(states[i].graph, p, c); }
  }

  lemma OnlyJoinsLink(m: Mixer, h: Happening, c: Conn, p: Conn)
    requires Inv(m.graph) && Possible(m, h) && IsConference(m.graph, c)
    requires !Linked(m.graph, c, p) && Linked(Happen(m, h).graph, c, p)
    ensures h.Ask? && h.request.Join? && DoJoin(m, h.request).1 == 200
  {
    if h.Ask? {
      match h.request
      case CreateConference(_, _, _) =>
      case Join(_, _, _, _, _, _) => JoinAllOrNothing(m, h.request);
      case ModifyJoin(_, _, _, _, _, _) => ModifyAllOrNothing(m, h.request);
      case Unjoin(_, _, _) => UnjoinAllOrNothing(m, h.request);
      case Close(_, _) => if h.request.conn in m.graph { CloseForgets(m, h.request); }
    }
  }

  // so that a peer that joins, for the first time or again, is not heard with frames of an earlier join.
  lemma JoinsWithEmptyQueue(states: seq<Mixer>, events: seq<Happening>, i: nat, c: Conn, p: Conn)
    requires IsLive(states, events) && i < |events| && IsConference(states[i].graph, c)
    requires !Linked(states[i].graph, c, p) && Linked(states[i + 1].graph, c, p)
    ensures Queue(states[i + 1].graph[c], p) == []
  {
    LiveKeepsInv(states, events, i);
    assert states[i + 1] == Happen(states[i], events[i]);
    OnlyJoinsLink(states[i], events[i], c, p);
    JoinLeavesQueues(states[i], events[i].request, c, p);
  }

  lemma JoinLeavesQueues(m: Mixer, r: Request, c: Conn, p: Conn)
    requires r.Join? && Inv(m.graph) && DoJoin(m, r).1 == 200 && IsConference(m.graph, c) && !Linked(m.graph, c, p)
    ensures c in DoJoin(m, r).0.graph && Queue(DoJoin(m, r).0.graph[c], p) == []
  {
    assert Sound(m.graph[c]);
    JoinAllOrNothing(m, r);
  }
}
