// The outgoing side of an RTP channel: which frames pass the channel lock, and the timestamp and
// marker bit each of them gets (RFC 3550 section 5.1, RFC 3551 section 4.1).
module RtpChannel {

  const CLOCKRATE := 160   // timestamp ticks of one audio frame
  const FRAME_MS := 20     // timing / 1000

  datatype FrameType = Media | Locking | Unlocking

  // owner 0 is the null pointer; an encoded frame has a payload type, a raw one has none
  datatype Frame = Frame(kind: FrameType, owner: nat, media: int, format: int, bytes: seq<int>)

  const RAW := -1

  datatype Packet = Packet(owner: nat, bytes: seq<int>, timestamp: int, marker: bool)

  datatype Notice = Locked | Unlocked

  // ---- the clock ----

  datatype Clock = Clock(last: int, num: int)

  // What one send at wall time now does, and whether the packet carries the marker
  function Advance(c: Clock, now: int): (Clock, bool) {
    var last := if c.last == 0 then now - 1 else c.last;
    if now <= last then (Clock(last, c.num), true)
    else
      var t := (now - last) / FRAME_MS;
      if t < 5 then (Clock(last + FRAME_MS, c.num + CLOCKRATE), false)
      else (Clock(now, c.num + t * CLOCKRATE), true)
  }

  // Wall time that a send skips without giving it ticks: what a silence leaves over.
  function Lost(c: Clock, now: int): nat {
    if c.last != 0 && now - c.last >= 5 * FRAME_MS then (now - c.last) % FRAME_MS else 0
  }

  predicate Burst(c: Clock, now: int) { c.last != 0 && now - c.last >= 5 * FRAME_MS }

  ghost predicate Nondecreasing(times: seq<int>) {
    forall i, j | 0 <= i <= j < |times| :: times[i] <= times[j]
  }

  // The clock after sends at the given times
  function After(times: seq<int>): Clock
    decreases |times|
  {
    if times == [] then Clock(0, 0) else Advance(After(times[..|times| - 1]), times[|times| - 1]).0
  }

  function LostIn(times: seq<int>): nat
    decreases |times|
  {
    if times == [] then 0 else
      LostIn(times[..|times| - 1]) + Lost(After(times[..|times| - 1]), times[|times| - 1])
  }

  function Bursts(times: seq<int>): nat
    decreases |times|
  {
    if times == [] then 0 else
      Bursts(times[..|times| - 1]) + if Burst(After(times[..|times| - 1]), times[|times| - 1]) then 1 else 0
  }

  // Over any run of sends at nondecreasing times: the clock stays within a few frames of the wall
  // clock, timestamps are whole frames, and they fall behind the media time only by what the
  // silences left over, less than one frame each.
  lemma {:induction false} RunClock(times: seq<int>)
    requires Nondecreasing(times) && times != [] && times[0] > 0
    ensures var c, now := After(times), times[|times| - 1];
            && c.last > 0
            && now - 79 <= c.last <= now + 19
            && c.num % CLOCKRATE == 0
            && FRAME_MS * c.num + CLOCKRATE * LostIn(times) == CLOCKRATE * (c.last - (times[0] - 1))
            && LostIn(times) <= 19 * Bursts(times)
    decreases |times|
  {
    var before, now := times[..|times| - 1], times[|times| - 1];
    if before == [] {
      assert After(before) == Clock(0, 0);
      assert times == [now];
    } else {
      RunClock(before);
      assert before[|before| - 1] <= now;
      StepClock(After(before), now);
    }
  }

  lemma StepClock(c: Clock, now: int)
    requires c.last > 0 && c.last <= now + 19 && c.num % CLOCKRATE == 0
    ensures var d := Advance(c, now).0;
            && d.last > 0 && now - 79 <= d.last <= now + 19 && d.num % CLOCKRATE == 0
            && FRAME_MS * (d.num - c.num) + CLOCKRATE * Lost(c, now) == CLOCKRATE * (d.last - c.last)
            && Lost(c, now) <= if Burst(c, now) then 19 else 0
  {
    var gone := now - c.last;
    if gone >= 5 * FRAME_MS {
      WholeFrames(gone);
      Multiple(c.num, gone / FRAME_MS);
    }
  }

  lemma WholeFrames(gone: nat)
    requires gone >= 5 * FRAME_MS
    ensures gone / FRAME_MS >= 5
    ensures FRAME_MS * (gone / FRAME_MS * CLOCKRATE) + CLOCKRATE * (gone % FRAME_MS) == CLOCKRATE * gone
  {
    assert gone == FRAME_MS * (gone / FRAME_MS) + gone % FRAME_MS;
  }

  lemma Multiple(num: int, t: nat)
    requires num % CLOCKRATE == 0
    ensures (num + t * CLOCKRATE) % CLOCKRATE == 0
  {
  }

  // Timestamps never go back, and grow exactly when the wall clock has passed the last one.
  lemma StepMonotone(c: Clock, now: int)
    requires c.last != 0
    ensures var (d, marker) := Advance(c, now);
            && (d.num > c.num <==> now > c.last)
            && (d.num == c.num <==> now <= c.last)
            && (marker <==> d.num == c.num || d.num >= c.num + 5 * CLOCKRATE)
            && (!marker <==> d.num == c.num + CLOCKRATE)
  {
  }

  // The first packet of all goes out one frame behind the start, without a marker.
  lemma FirstPacket(num: int, now: int)
    ensures Advance(Clock(0, num), now) == (Clock(now + 19, num + 160), false)
  {
  }

  function AdvanceAll(c: Clock, times: seq<int>): Clock
    decreases |times|
  {
    if times == [] then c else AdvanceAll(Advance(c, times[0]).0, times[1..])
  }

  // A clock that steps back, as the 32-bit count of milliseconds does every 49 days, stops the
  // timestamps for as long as it has not caught up: the bound does need nondecreasing times.
  lemma {:induction false} SteppingBackStalls(c: Clock, times: seq<int>)
    requires c.last != 0 && forall now | now in times :: now <= c.last
    ensures AdvanceAll(c, times) == c
    decreases |times|
  {
    if times != [] {
      assert times[0] in times && forall now | now in times[1..] :: now in times;
      SteppingBackStalls(c, times[1..]);
    }
  }

  // ---- the lock ----

  datatype Event =
    | Told(notice: Notice)
    | Sent(owner: nat)

  datatype Lock = Open | HeldBy(owner: nat)

  // The lock after a history of events that began unlocked, if the history is orderly: notices
  // alternate, and while the lock is held only its owner sends. The notice that ends an interval
  // carries no owner, so the owner of each interval is part of the history.
  datatype Entry = Entry(who: nat, event: Event)

  ghost predicate Orderly(h: seq<Entry>, lock: Lock)
    decreases |h|
  {
    if h == [] then lock == Open
    else
      var e, before := h[|h| - 1], h[..|h| - 1];
      match e.event
      case Told(Locked) => Orderly(before, Open) && e.who != 0 && lock == HeldBy(e.who)
      case Told(Unlocked) => Orderly(before, HeldBy(e.who)) && lock == Open
      case Sent(o) => o == e.who && Orderly(before, lock) && (lock.HeldBy? ==> o == lock.owner)
  }

  // The notices that a locking or unlocking frame sends, by who holds the lock
  function Notices(frame: Frame, lock: Lock): seq<Entry> {
    if frame.kind == Locking && lock == Open && frame.owner != 0 then [Entry(frame.owner, Told(Locked))]
    else if frame.kind == Unlocking && lock == HeldBy(frame.owner) then [Entry(frame.owner, Told(Unlocked))]
    else []
  }

  // The senders in a history, one for each packet
  function Senders(h: seq<Entry>): seq<nat>
    decreases |h|
  {
    if h == [] then [] else
      Senders(h[..|h| - 1]) + (var e := h[|h| - 1].event; if e.Sent? then [e.owner] else [])
  }

  function Owners(packets: seq<Packet>): seq<nat> {
    seq(|packets|, i requires 0 <= i < |packets| => packets[i].owner)
  }

  // ---- one send ----

  datatype Sender = Sender(
    media: int, dstPort: nat, pt: int, codecStarted: bool, lock: Lock, clock: Clock, sent: seq<Packet>)

  // A locking or unlocking frame moves the lock before it is known whether it can be sent.
  function Moved(lock: Lock, frame: Frame): Lock {
    if frame.kind == Locking && lock == Open && frame.owner != 0 then HeldBy(frame.owner)
    else if frame.kind == Unlocking && lock == HeldBy(frame.owner) then Open
    else lock
  }

  // What goes on the wire; encoded is what the codec makes of a raw frame.
  function Payload(s: Sender, frame: Frame, encoded: seq<int>): seq<int> {
    if frame.format == s.pt then frame.bytes
    else if frame.format == RAW && s.codecStarted then encoded
    else []
  }

  predicate Admitted(s: Sender, frame: Frame) {
    s.dstPort != 0 && (s.lock.HeldBy? ==> frame.owner == s.lock.owner) && frame.media == s.media
  }

  function Send(s: Sender, frame: Frame, encoded: seq<int>, now: int): Sender {
    if !Admitted(s, frame) then s
    else
      var moved, bytes := s.(lock := Moved(s.lock, frame)), Payload(s, frame, encoded);
      if bytes == [] then moved
      else
        var (clock, marker) := Advance(s.clock, now);
        moved.(clock := clock, sent := s.sent + [Packet(frame.owner, bytes, clock.num, marker)])
  }

  // A frame goes out exactly if it is of the channel's medium and there is a port, the channel is free or held
  // by the frame's owner, and there are bytes in the channel's format; then they make one packet. A frame of
  // another medium, of another owner than the holder, or without a port changes nothing at all.
  lemma SentIff(s: Sender, frame: Frame, encoded: seq<int>, now: int)
    ensures var s' := Send(s, frame, encoded, now);
            var mine := frame.media == s.media && s.dstPort > 0 && (s.lock == Open || s.lock == HeldBy(frame.owner));
            var bytes := if frame.format == s.pt then frame.bytes else encoded;
            var fits := frame.format == s.pt || (frame.format == RAW && s.codecStarted);
            && (|s'.sent| > |s.sent| <==> mine && fits && bytes != [])
            && (mine && fits && bytes != [] ==>
                  && |s'.sent| == |s.sent| + 1 && s.sent <= s'.sent
                  && s'.sent[|s.sent|].owner == frame.owner && s'.sent[|s.sent|].bytes == bytes
                  && s'.sent[|s.sent|].timestamp == s'.clock.num)
            && (!(mine && fits && bytes != []) ==> s'.sent == s.sent && s'.clock == s.clock)
            && (!mine ==> s' == s)
  {
  }

  // The lock is taken by a locking frame of some owner that is let in, and opened by an unlocking one.
  lemma LockIff(s: Sender, frame: Frame, encoded: seq<int>, now: int)
    requires frame.media == s.media && s.dstPort > 0
    ensures var lock := Send(s, frame, encoded, now).lock;
            && (s.lock == Open ==> (lock != Open <==> frame.kind == Locking && frame.owner > 0))
            && (s.lock == Open && lock != Open ==> lock == HeldBy(frame.owner))
            && (s.lock.HeldBy? ==>
                  if frame.kind == Unlocking && frame.owner == s.lock.owner then lock == Open else lock == s.lock)
  {
  }

  datatype Sending = Sending(frame: Frame, encoded: seq<int>, now: int)

  function SendAll(s: Sender, sendings: seq<Sending>): Sender
    decreases |sendings|
  {
    if sendings == [] then s
    else
      var last := sendings[|sendings| - 1];
      Send(SendAll(s, sendings[..|sendings| - 1]), last.frame, last.encoded, last.now)
  }

  // The payloads of the frames that are let in, in their order
  function Payloads(s: Sender, sendings: seq<Sending>): seq<seq<int>>
    decreases |sendings|
  {
    if sendings == [] then []
    else
      var last := sendings[|sendings| - 1];
      var bytes := Payload(s, last.frame, last.encoded);
      Payloads(s, sendings[..|sendings| - 1]) + if Admitted(s, last.frame) && bytes != [] then [bytes] else []
  }

  function Contents(packets: seq<Packet>): seq<seq<int>> {
    seq(|packets|, i requires 0 <= i < |packets| => packets[i].bytes)
  }

  // As long as nothing moves the lock, every frame that may be sent is, in its order and unchanged: all of
  // them on a free channel, those of the holder on a held one.
  lemma {:induction false} SendsThemAll(s: Sender, sendings: seq<Sending>)
    requires forall i | 0 <= i < |sendings| :: sendings[i].frame.kind == Media
    ensures var r := SendAll(s, sendings);
            && Contents(r.sent) == Contents(s.sent) + Payloads(s, sendings)
            && r == s.(clock := r.clock, sent := r.sent)
    decreases |sendings|
  {
    if sendings != [] {
      var before, last := sendings[..|sendings| - 1], sendings[|sendings| - 1];
      SendsThemAll(s, before);
      ContentsMore(SendAll(s, before), last);
    }
  }

  lemma ContentsMore(s: Sender, last: Sending)
    requires last.frame.kind == Media
    ensures var r, bytes := Send(s, last.frame, last.encoded, last.now), Payload(s, last.frame, last.encoded);
            && Contents(r.sent) == Contents(s.sent) + (if Admitted(s, last.frame) && bytes != [] then [bytes] else [])
            && r == s.(clock := r.clock, sent := r.sent)
  {
  }

  class Channel {
    const media: int
    var dstPort: nat
    var pt: int
    var codecStarted: bool
    var locked: bool
    var lockOwner: nat
    var lastIncomingTs: int
    var num: int
    var sent: seq<Packet>
    ghost var history: seq<Entry>

    ghost predicate Valid()
      reads this
    {
      && (locked <==> lockOwner != 0)
      && Orderly(history, Holder())
      && Senders(history) == Owners(sent)
    }

    function Holder(): Lock
      reads this
    {
      if locked then HeldBy(lockOwner) else Open
    }

    function State(): Sender
      reads this
    {
      Sender(media, dstPort, pt, codecStarted, Holder(), ClockNow(), sent)
    }

    function ClockNow(): Clock
      reads this
    {
      Clock(lastIncomingTs, num)
    }

    constructor (media: int)
      ensures Valid() && !locked && ClockNow() == Clock(0, 0) && sent == [] && history == []
    {
      this.media := media;
      dstPort, pt, codecStarted := 0, 0, false;
      locked, lockOwner, lastIncomingTs, num, sent, history := false, 0, 0, 0, [], [];
    }

    method DoLock(owner: nat)
      requires Valid()
      modifies this`locked, this`lockOwner, this`history
      ensures Valid()
      ensures if old(locked) || owner == 0 then Holder() == old(Holder()) && history == old(history)
              else Holder() == HeldBy(owner) && history == old(history) + [Entry(owner, Told(Locked))]
    {
      if locked || owner == 0 {
        return;
      }
      locked, lockOwner := true, owner;
      history := history + [Entry(owner, Told(Locked))];
    }

    method Unlock(owner: nat)
      requires Valid()
      modifies this`locked, this`lockOwner, this`history
      ensures Valid()
      ensures if old(Holder()) == HeldBy(owner)
              then Holder() == Open && history == old(history) + [Entry(owner, Told(Unlocked))]
              else Holder() == old(Holder()) && history == old(history)
    {
      if !locked || owner != lockOwner {
        return;
      }
      locked, lockOwner := false, 0;
      history := history + [Entry(owner, Told(Unlocked))];
    }

    // A locking or unlocking frame moves the lock before it is known whether it can be sent.
    method HandleLock(frame: Frame)
      requires Valid()
      modifies this`locked, this`lockOwner, this`history
      ensures Valid()
      ensures Holder() == Moved(old(Holder()), frame)
      ensures history == old(history) + Notices(frame, old(Holder()))
    {
      if frame.kind == Locking {
        DoLock(frame.owner);
      } else if frame.kind == Unlocking {
        Unlock(frame.owner);
      }
    }

    method Transmit(owner: nat, bytes: seq<int>, now: int)
      requires Valid() && (locked ==> owner == lockOwner)
      modifies this`lastIncomingTs, this`num, this`sent, this`history
      ensures Valid() && Holder() == old(Holder())
      ensures ClockNow() == Advance(old(ClockNow()), now).0
      ensures sent == old(sent) + [Packet(owner, bytes, num, Advance(old(ClockNow()), now).1)]
      ensures history == old(history) + [Entry(owner, Sent(owner))]
    {
      var marker := Tick(now);
      SentMore(history, Holder(), owner);
      sent := sent + [Packet(owner, bytes, num, marker)];
      history := history + [Entry(owner, Sent(owner))];
    }

    // Moves the clock on. The marker says that the stream does not simply go on.
    method Tick(now: int) returns (marker: bool)
      modifies this`lastIncomingTs, this`num
      ensures (ClockNow(), marker) == Advance(old(ClockNow()), now)
    {
      var t := 0;
      if lastIncomingTs == 0 {
        lastIncomingTs := now - 1;
      }
      if now > lastIncomingTs {
        t := (now - lastIncomingTs) / FRAME_MS;
        if t < 5 {
          t := 1;
          num := num + CLOCKRATE;
          lastIncomingTs := lastIncomingTs + FRAME_MS;
        } else {
          num := num + t * CLOCKRATE;
          lastIncomingTs := now;
        }
      }
      marker := t != 1;
    }

    // What goes on the wire; nothing for a format that has no codec here
    method ToSend(frame: Frame, encoded: seq<int>) returns (toSend: seq<int>)
      ensures toSend == Payload(State(), frame, encoded)
    {
      toSend := [];
      if frame.format == pt {
        toSend := frame.bytes;
      } else {
        if frame.format != RAW {
          return;
        }
        if !codecStarted {
          return;
        }
        toSend := encoded;
      }
    }

    method SendFrame(frame: Frame, encoded: seq<int>, now: int)
      requires Valid()
      modifies this`locked, this`lockOwner, this`lastIncomingTs, this`num, this`sent, this`history
      ensures Valid()
      ensures State() == Send(old(State()), frame, encoded, now)
      ensures var s := old(State());
              var told := if Admitted(s, frame) then old(history) + Notices(frame, s.lock) else old(history);
              history == if Admitted(s, frame) && Payload(s, frame, encoded) != []
                         then told + [Entry(frame.owner, Sent(frame.owner))] else told
    {
      if dstPort == 0 {
        return;
      }
      if locked && frame.owner != lockOwner {
        return;
      }
      if frame.media != media {
        return;
      }
      HandleLock(frame);
      var toSend := ToSend(frame, encoded);
      if toSend == [] {
        return;
      }
      Transmit(frame.owner, toSend, now);
    }
  }

  lemma SentMore(h: seq<Entry>, lock: Lock, owner: nat)
    requires Orderly(h, lock) && (lock.HeldBy? ==> owner == lock.owner)
    ensures Orderly(h + [Entry(owner, Sent(owner))], lock)
    ensures Senders(h + [Entry(owner, Sent(owner))]) == Senders(h) + [owner]
  {
    assert (h + [Entry(owner, Sent(owner))])[..|h|] == h;
  }

  // ---- what an orderly history means ----

  lemma {:induction false} OrderlyPrefix(h: seq<Entry>, lock: Lock, n: nat)
    requires Orderly(h, lock) && n <= |h|
    ensures exists l :: Orderly(h[..n], l)
    decreases |h|
  {
    if n == |h| {
      assert h[..n] == h;
    } else {
      var before := h[..|h| - 1];
      var l :| Orderly(before, l);
      OrderlyPrefix(before, l, n);
      assert before[..n] == h[..n];
    }
  }

  // The lock before an event that leaves lock l
  function Earlier(e: Entry, l: Lock): Lock {
    match e.event
    case Told(Unlocked) => HeldBy(e.who)
    case Told(Locked) => Open
    case Sent(_) => l
  }

  // From a lock by some owner up to the next unlock only that owner sends, nobody else locks,
  // and it is that owner who unlocks.
  lemma {:induction false} OnlyOwnerInside(h: seq<Entry>, lock: Lock, i: nat, j: nat)
    requires Orderly(h, lock) && i < j < |h| && h[i].event == Told(Locked)
    requires forall k | i < k < j :: h[k].event != Told(Unlocked)
    ensures Orderly(h[..j], HeldBy(h[i].who))
    ensures h[j].event != Told(Locked)
    ensures h[j].event == Told(Unlocked) ==> h[j].who == h[i].who
    ensures h[j].event.Sent? ==> h[j].event.owner == h[i].who
    decreases j
  {
    OrderlyPrefix(h, lock, j + 1);
    var l :| Orderly(h[..j + 1], l);
    assert h[..j + 1][..j] == h[..j];
    if j == i + 1 {
      OrderlyPrefix(h, lock, j);
      var k :| Orderly(h[..j], k);
      UniqueLock(h[..j], k, Earlier(h[j], l));
    } else {
      OnlyOwnerInside(h, lock, i, j - 1);
      assert h[..j][..j - 1] == h[..j - 1];
      OrderlyPrefix(h, lock, j);
      var k :| Orderly(h[..j], k);
      UniqueLock(h[..j], k, Earlier(h[j], l));
      UniqueLock(h[..j - 1], HeldBy(h[i].who), k);
    }
  }

  lemma {:induction false} UniqueLock(h: seq<Entry>, l: Lock, k: Lock)
    requires Orderly(h, l) && Orderly(h, k)
    ensures l == k
    decreases |h|
  {
    if h != [] && h[|h| - 1].event.Sent? {
      UniqueLock(h[..|h| - 1], l, k);
    }
  }
}
