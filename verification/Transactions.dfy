// A CFW transaction (RFC 6230 sections 6.3.1 and 6.3.2): the queue of outgoing messages, their
// acknowledgements, the sequence numbers and the refresh timer.
module Transactions {

  datatype Kind = Ok | Accepted | Update | Terminate | Error(code: int) | Control

  // seqno is what an acknowledgement must carry; shown says whether the text has a Seq line.
  datatype Message = Message(seqno: int, shown: bool, kind: Kind, waits: bool)

  datatype Status = NoReply | Replied200 | Replied202 | Updated | Terminated

  datatype Timer = Stopped | Since(start: int)

  const REFRESH_MS := 8000

  // A message pointer is the message's place in the order of queueing. The lists hold pointers.
  datatype Transaction = Transaction(
    store: seq<Message>,      // every message ever queued
    messages: seq<nat>,       // still queued
    purgeable: seq<nat>,            // to be purged at the next pass
    sent: set<nat>,           // whose sent flag is set
    handed: seq<nat>,         // given to the send step so far, in order
    acked: set<nat>,
    status: Status,
    seqno: int,
    active: bool,
    timer: Timer,
    refreshes: seq<int>)      // when the timer was started or has fired

  const NEW := Transaction([], [], [], {}, [], {}, NoReply, 0, true, Stopped, [])

  // ---- steps ----

  datatype Change = Keep | To(status: Status)

  function Queue(t: Transaction, msg: Message, change: Change): Transaction {
    if t.status == Terminated then t
    else t.(store := t.store + [msg], messages := t.messages + [|t.store|],
            status := if change.To? then change.status else t.status)
  }

  function StartTimer(t: Transaction, now: int): Transaction {
    t.(timer := Since(now), refreshes := t.refreshes + [now])
  }

  predicate Fires(t: Transaction, now: int) {
    t.active && t.timer.Since? && now - t.timer.start >= REFRESH_MS
  }

  function TimerTick(t: Transaction, now: int): Transaction {
    if !Fires(t, now) then t
    else
      var next := t.(seqno := t.seqno + 1);
      StartTimer(
        if t.status == NoReply
        then Queue(next, Message(t.seqno, false, Accepted, false), To(Replied202))
        else Queue(next, Message(t.seqno, true, Update, true), To(Updated)), now)
  }

  // messages.remove for every listed pointer
  function Without(l: seq<nat>, gone: seq<nat>): seq<nat> {
    if l == [] then [] else (if l[0] in gone then [] else [l[0]]) + Without(l[1..], gone)
  }

  function Unsent(sent: set<nat>, l: seq<nat>): seq<nat> {
    if l == [] then [] else (if l[0] in sent then [] else [l[0]]) + Unsent(sent, l[1..])
  }

  function NotWaiting(store: seq<Message>, l: seq<nat>): seq<nat> {
    if l == [] then [] else
      (if l[0] < |store| && !store[l[0]].waits then [l[0]] else []) + NotWaiting(store, l[1..])
  }

  function Purged(t: Transaction): Transaction {
    t.(messages := Without(t.messages, t.purgeable), purgeable := [])
  }

  function Sending(p: Transaction): Transaction {
    var now := Unsent(p.sent, p.messages);
    p.(handed := p.handed + now, purgeable := NotWaiting(p.store, now), sent := p.sent + Waiting(p.store, now))
  }

  function Waiting(store: seq<Message>, l: seq<nat>): set<nat> {
    set u | u in l && u < |store| && store[u].waits
  }

  // Purge, then either end the transaction or send what has not been sent yet.
  function Pump(t: Transaction): Transaction {
    if !t.active then t
    else
      var p := Purged(t);
      if p.messages != [] then Sending(p)
      else
        match p.status
        case Terminated => p.(active := false, timer := Stopped)
        case Replied200 => p.(active := false)
        case _ => p
  }

  // The queued message an acknowledgement is taken for: the first with that number
  function Match(t: Transaction, l: seq<nat>, n: int): (r: seq<nat>)
    ensures |r| <= 1
    ensures r != [] ==> r[0] in l && r[0] < |t.store| && t.store[r[0]].seqno == n
    ensures r == [] ==> forall u | u in l && u < |t.store| :: t.store[u].seqno != n
  {
    if l == [] then [] else
    if l[0] < |t.store| && t.store[l[0]].seqno == n then [l[0]] else Match(t, l[1..], n)
  }

  lemma MatchNext(t: Transaction, l: seq<nat>, i: nat, n: int)
    requires i < |l| && l[i] < |t.store|
    ensures Match(t, l[i..], n) == if t.store[l[i]].seqno == n then [l[i]] else Match(t, l[i + 1..], n)
  {
    assert l[i..][1..] == l[i + 1..];
  }

  function Ack(t: Transaction, n: int): Transaction {
    var m := Match(t, t.messages, n);
    t.(purgeable := t.purgeable + m, acked := t.acked + set u | u in m)
  }

  lemma AckFound(t: Transaction, n: int, u: nat)
    requires Match(t, t.messages, n) == [u]
    ensures Ack(t, n) == t.(purgeable := t.purgeable + [u], acked := t.acked + {u})
  {
    assert (set v | v in [u]) == {u};
  }

  lemma AckMissed(t: Transaction, n: int)
    requires Match(t, t.messages, n) == []
    ensures Ack(t, n) == t
  {
    assert t.purgeable + [] == t.purgeable;
    assert t.acked + (set u | u in []) == t.acked;
  }

  predicate KnownCode(code: int) {
    code in {200, 202, 400, 403, 405, 420, 421, 422, 423, 481, 500}
  }

  function ErrorReply(t: Transaction, code: int): Transaction {
    if !KnownCode(code) then t
    else
      Queue(t.(seqno := t.seqno + 1),
            Message(if t.seqno > 0 then t.seqno else 0, t.seqno > 0, Error(code), false),
            if code != 202 && code != 423 then To(Terminated) else Keep)
  }

  // A package's report; 1 is the stack's own code for 202, which packages may not send.
  function Report(t: Transaction, code: int): Transaction {
    if code == 1 then t
    else if code != 200 then ErrorReply(t, code)
    else
      var first := t.status == NoReply;
      Queue(t.(seqno := t.seqno + 1),
            Message(if t.seqno > 0 then t.seqno else 0, t.seqno > 0, if first then Ok else Terminate, !first),
            To(if first then Replied200 else Terminated))
  }

  // A transaction of the server's own, for a notification
  const NOTIFICATION :=
    Queue(NEW.(seqno := 1), Message(0, false, Control, true), To(Terminated))

  datatype Op =
    | OnTimer(now: int)
    | OnPump
    | OnAck(n: int)
    | OnReport(code: int)
    | OnError(code: int)

  function Step(t: Transaction, op: Op): Transaction {
    match op
    case OnTimer(now) => TimerTick(t, now)
    case OnPump => Pump(t)
    case OnAck(n) => Ack(t, n)
    case OnReport(code) => Report(t, code)
    case OnError(code) => ErrorReply(t, code)
  }

  function Run(t: Transaction, ops: seq<Op>): Transaction
    decreases |ops|
  {
    if ops == [] then t else Step(Run(t, ops[..|ops| - 1]), ops[|ops| - 1])
  }

  // ---- sequence numbers ----

  ghost predicate Numbered(t: Transaction) {
    && t.seqno >= 0
    && (forall i | 0 <= i < |t.store| :: 0 <= t.store[i].seqno < t.seqno)
    && (forall i, j | 0 <= i < j < |t.store| :: t.store[i].seqno < t.store[j].seqno)
  }

  // The queue's history only grows, and not at all after the last word.
  ghost predicate Grown(t: Transaction, q: Transaction) {
    t.store <= q.store && (t.status == Terminated ==> q.store == t.store && q.status == Terminated)
  }

  lemma QueueNumbered(t: Transaction, msg: Message, change: Change)
    requires Numbered(t) && msg.seqno == t.seqno
    ensures var q := Queue(t.(seqno := t.seqno + 1), msg, change);
            Numbered(q) && Grown(t, q)
  {
  }

  lemma ErrorNumbered(t: Transaction, code: int)
    requires Numbered(t)
    ensures Numbered(ErrorReply(t, code)) && Grown(t, ErrorReply(t, code))
  {
    QueueNumbered(t, Message(t.seqno, t.seqno > 0, Error(code), false),
                  if code != 202 && code != 423 then To(Terminated) else Keep);
  }

  lemma TimerNumbered(t: Transaction, now: int)
    requires Numbered(t)
    ensures Numbered(TimerTick(t, now)) && Grown(t, TimerTick(t, now))
  {
    if t.status == NoReply {
      QueueNumbered(t, Message(t.seqno, false, Accepted, false), To(Replied202));
    } else {
      QueueNumbered(t, Message(t.seqno, true, Update, true), To(Updated));
    }
  }

  lemma ReportNumbered(t: Transaction, code: int)
    requires Numbered(t)
    ensures Numbered(Report(t, code)) && Grown(t, Report(t, code))
  {
    var first := t.status == NoReply;
    ErrorNumbered(t, code);
    QueueNumbered(t, Message(t.seqno, t.seqno > 0, if first then Ok else Terminate, !first),
                  To(if first then Replied200 else Terminated));
  }

  lemma PumpGrows(t: Transaction)
    ensures Pump(t).store == t.store && Pump(t).seqno == t.seqno && Pump(t).status == t.status
  {
  }

  lemma StepNumbered(t: Transaction, op: Op)
    requires Numbered(t)
    ensures Numbered(Step(t, op)) && Grown(t, Step(t, op))
  {
    match op
    case OnTimer(now) => TimerNumbered(t, now);
    case OnPump => PumpGrows(t);
    case OnAck(n) =>
    case OnReport(code) => ReportNumbered(t, code);
    case OnError(code) => ErrorNumbered(t, code);
  }

  // In every run the numbers grow strictly with the queue and stay below the counter, the queue's
  // history only grows, and nothing is queued after the last word.
  lemma {:induction false} RunNumbered(t: Transaction, ops: seq<Op>)
    requires Numbered(t)
    ensures Numbered(Run(t, ops))
    ensures t.store <= Run(t, ops).store
    ensures t.status == Terminated ==> Run(t, ops).store == t.store && Run(t, ops).status == Terminated
    decreases |ops|
  {
    if ops != [] {
      RunNumbered(t, ops[..|ops| - 1]);
      StepNumbered(Run(t, ops[..|ops| - 1]), ops[|ops| - 1]);
    }
  }

  // ---- delivery ----

  ghost predicate Upto(l: seq<nat>) { forall i | 0 <= i < |l| :: l[i] == i }

  ghost predicate Increasing(l: seq<nat>) { forall i, j | 0 <= i < j < |l| :: l[i] < l[j] }

  ghost predicate Below(l: seq<nat>, n: nat) { forall i | 0 <= i < |l| :: l[i] < n }

  // What has been handed over is a prefix of what was queued, and the rest is still queued.
  ghost predicate InQueueOrder(t: Transaction) {
    && Increasing(t.messages) && Below(t.messages, |t.store|)
    && Upto(t.handed) && |t.handed| <= |t.store|
    && (forall u | |t.handed| <= u < |t.store| :: u in t.messages)
  }

  // A message still queued that was handed over awaits its acknowledgement, or its purge.
  ghost predicate Flagged(t: Transaction)
    requires InQueueOrder(t)
  {
    && (forall u | u in t.messages && u < |t.handed| :: if t.store[u].waits then u in t.sent else u in t.purgeable)
    && (forall u | u in t.sent :: u < |t.handed| && t.store[u].waits)
  }

  // What is about to leave the queue, or has left it, is done with.
  ghost predicate DoneWith(t: Transaction)
    requires InQueueOrder(t)
  {
    && (forall i, j | 0 <= i < j < |t.purgeable| :: t.purgeable[i] != t.purgeable[j])
    && (forall u | u in t.purgeable :: u in t.messages && u < |t.handed| && (t.store[u].waits ==> u in t.acked))
    && (forall u | 0 <= u < |t.handed| && u !in t.messages && t.store[u].waits :: u in t.acked)
    && (forall u | u in t.acked :: u < |t.handed| && t.store[u].waits)
  }

  ghost predicate Delivery(t: Transaction) { InQueueOrder(t) && Flagged(t) && DoneWith(t) }

  lemma QueueDelivers(t: Transaction, msg: Message, change: Change, k: int)
    requires Delivery(t)
    ensures Delivery(Queue(t.(seqno := k), msg, change))
  {
    if t.status != Terminated {
      var q := Queue(t.(seqno := k), msg, change);
      assert q.messages[|t.messages|] == |t.store|;
      assert forall u :: u in q.messages <==> u in t.messages || u == |t.store|;
    }
  }

  lemma {:induction false} WithoutMembers(l: seq<nat>, gone: seq<nat>)
    ensures forall u :: u in Without(l, gone) <==> u in l && u !in gone
  {
    if l != [] { WithoutMembers(l[1..], gone); }
  }

  lemma {:induction false} UnsentMembers(sent: set<nat>, l: seq<nat>)
    ensures forall u :: u in Unsent(sent, l) <==> u in l && u !in sent
  {
    if l != [] { UnsentMembers(sent, l[1..]); }
  }

  lemma {:induction false} NotWaitingMembers(store: seq<Message>, l: seq<nat>)
    ensures forall u :: u in NotWaiting(store, l) <==> u in l && u < |store| && !store[u].waits
  {
    if l != [] { NotWaitingMembers(store, l[1..]); }
  }

  lemma FrontIncreasing(x: nat, l: seq<nat>)
    requires Increasing(l) && (l != [] ==> x < l[0])
    ensures Increasing([x] + l)
  {
  }

  lemma TailIncreasing(l: seq<nat>)
    requires Increasing(l) && l != []
    ensures Increasing(l[1..]) && (|l| > 1 ==> l[0] < l[1] == l[1..][0])
  {
  }

  lemma {:induction false} WithoutBelow(l: seq<nat>, gone: seq<nat>, n: nat)
    requires Below(l, n)
    ensures Below(Without(l, gone), n)
  {
    if l != [] {
      assert l[0] < n && Below(l[1..], n);
      WithoutBelow(l[1..], gone, n);
    }
  }

  lemma {:induction false} WithoutIncreasing(l: seq<nat>, gone: seq<nat>)
    requires Increasing(l)
    ensures Increasing(Without(l, gone))
    ensures l != [] && Without(l, gone) != [] ==> l[0] <= Without(l, gone)[0]
  {
    if l != [] {
      TailIncreasing(l);
      WithoutIncreasing(l[1..], gone);
      FrontIncreasing(l[0], Without(l[1..], gone));
    }
  }

  lemma {:induction false} UnsentIncreasing(sent: set<nat>, l: seq<nat>)
    requires Increasing(l)
    ensures Increasing(Unsent(sent, l))
    ensures l != [] && Unsent(sent, l) != [] ==> l[0] <= Unsent(sent, l)[0]
  {
    if l != [] {
      TailIncreasing(l);
      UnsentIncreasing(sent, l[1..]);
      FrontIncreasing(l[0], Unsent(sent, l[1..]));
    }
  }

  lemma {:induction false} NotWaitingIncreasing(store: seq<Message>, l: seq<nat>)
    requires Increasing(l)
    ensures Increasing(NotWaiting(store, l))
    ensures l != [] && NotWaiting(store, l) != [] ==> l[0] <= NotWaiting(store, l)[0]
  {
    if l != [] {
      TailIncreasing(l);
      NotWaitingIncreasing(store, l[1..]);
      FrontIncreasing(l[0], NotWaiting(store, l[1..]));
    }
  }

  // An increasing list with exactly the members a, ..., b - 1 is that range.
  lemma {:induction false} RangeList(l: seq<nat>, a: nat, b: nat)
    requires Increasing(l) && a <= b
    requires forall u :: u in l <==> a <= u < b
    ensures |l| == b - a && forall i | 0 <= i < |l| :: l[i] == a + i
    decreases |l|
  {
    if l == [] {
      assert a !in l;
    } else {
      assert l[0] in l && a in l;
      var i :| 0 <= i < |l| && l[i] == a;
      assert i == 0;
      forall u ensures u in l[1..] <==> a + 1 <= u < b {
        if u in l[1..] { var j :| 1 <= j < |l| && l[j] == u; assert l[j] in l; }
        if a + 1 <= u < b { assert u in l; var j :| 0 <= j < |l| && l[j] == u; assert l[1..][j - 1] == u; }
      }
      RangeList(l[1..], a + 1, b);
      assert forall j | 1 <= j < |l| :: l[j] == l[1..][j - 1];
    }
  }

  // The purge leaves, of what was handed over, only messages that wait and carry the sent flag, so
  // a pass sends exactly what was queued since the last one.
  lemma PurgeLeaves(t: Transaction)
    requires Delivery(t)
    ensures var p := Purged(t);
            && Delivery(p)
            && (forall u | u in p.messages && u < |t.handed| :: t.store[u].waits && u in t.sent)
            && (forall u | |t.handed| <= u < |t.store| :: u in p.messages)
  {
    WithoutIncreasing(t.messages, t.purgeable);
    WithoutBelow(t.messages, t.purgeable, |t.store|);
    WithoutMembers(t.messages, t.purgeable);
  }

  lemma PassSends(t: Transaction)
    requires Delivery(t) && t.purgeable == []
    ensures var now := Unsent(t.sent, t.messages);
            && Increasing(now)
            && |now| == |t.store| - |t.handed|
            && (forall i | 0 <= i < |now| :: now[i] == |t.handed| + i)
  {
    var now := Unsent(t.sent, t.messages);
    UnsentIncreasing(t.sent, t.messages);
    UnsentMembers(t.sent, t.messages);
    forall u ensures u in now <==> |t.handed| <= u < |t.store| {
      if u in now {
        var i :| 0 <= i < |t.messages| && t.messages[i] == u;
      }
    }
    RangeList(now, |t.handed|, |t.store|);
  }

  lemma SendKeepsOrder(p: Transaction)
    requires Delivery(p) && p.purgeable == []
    ensures InQueueOrder(Sending(p)) && |Sending(p).handed| == |p.store|
    ensures forall u :: u in Unsent(p.sent, p.messages) <==> |p.handed| <= u < |p.store|
  {
    PassSends(p);
    var now := Unsent(p.sent, p.messages);
    forall u ensures u in now <==> |p.handed| <= u < |p.store| {
      if |p.handed| <= u < |p.store| { assert now[u - |p.handed|] == u; }
    }
  }

  lemma SendKeepsFlags(p: Transaction)
    requires Delivery(p) && p.purgeable == []
    ensures InQueueOrder(Sending(p)) && Flagged(Sending(p))
  {
    SendKeepsOrder(p);
    NotWaitingMembers(p.store, Unsent(p.sent, p.messages));
  }

  lemma SendKeepsDone(p: Transaction)
    requires Delivery(p) && p.purgeable == []
    ensures InQueueOrder(Sending(p)) && DoneWith(Sending(p))
  {
    SendKeepsOrder(p);
    UnsentIncreasing(p.sent, p.messages);
    UnsentMembers(p.sent, p.messages);
    NotWaitingMembers(p.store, Unsent(p.sent, p.messages));
    NotWaitingIncreasing(p.store, Unsent(p.sent, p.messages));
  }

  lemma PumpKeeps(t: Transaction)
    requires Delivery(t)
    ensures Delivery(Pump(t))
  {
    if t.active {
      PurgeLeaves(t);
      if Purged(t).messages != [] {
        SendKeepsFlags(Purged(t));
        SendKeepsDone(Purged(t));
      }
    }
  }

  lemma PumpDelivers(t: Transaction)
    requires Delivery(t)
    ensures Delivery(Pump(t))
    ensures Pump(t).store == t.store && Pump(t).acked == t.acked
    ensures t.active ==> |Pump(t).handed| == |t.store|
    ensures t.active && !Pump(t).active ==> Pump(t).messages == []
  {
    PumpKeeps(t);
    PurgeLeaves(t);
    if Purged(t).messages != [] { SendKeepsOrder(Purged(t)); } else { NothingLeft(Purged(t)); }
  }

  lemma NothingLeft(p: Transaction)
    requires InQueueOrder(p) && p.messages == []
    ensures |p.handed| == |p.store|
  {
    assert |p.handed| !in p.messages;
  }

  // An acknowledgement is in order when the message it is taken for has been delivered, awaits
  // one, and has not been acknowledged yet.
  predicate InOrder(t: Transaction, n: int) {
    var m := Match(t, t.messages, n);
    m == [] || (m[0] < |t.handed| && t.store[m[0]].waits && m[0] !in t.purgeable)
  }

  // That is exactly what the transaction relies on: any other acknowledgement makes it forget an
  // unsent message or purge one twice.
  lemma AckDeliversIff(t: Transaction, n: int)
    requires Delivery(t)
    ensures Delivery(Ack(t, n)) <==> InOrder(t, n)
  {
    var m := Match(t, t.messages, n);
    if m != [] {
      var a := Ack(t, n);
      assert a.purgeable[|t.purgeable|] == m[0];
      assert m[0] in a.purgeable && m[0] in a.acked;
      if m[0] in t.purgeable {
        var i :| 0 <= i < |t.purgeable| && t.purgeable[i] == m[0];
        assert a.purgeable[i] == m[0];
      }
    }
  }

  // Each number stands for one message, so an acknowledgement is taken for its own.
  lemma {:induction false} MatchFinds(t: Transaction, l: seq<nat>, u: nat)
    requires Numbered(t) && Below(l, |t.store|) && u in l
    ensures Match(t, l, t.store[u].seqno) == [u]
    decreases |l|
  {
    if l[0] != u {
      assert u in l[1..];
      MatchFinds(t, l[1..], u);
      assert t.store[l[0]].seqno != t.store[u].seqno by {
        if l[0] < u { } else { assert u < l[0]; }
      }
    }
  }

  lemma StepDelivers(t: Transaction, op: Op)
    requires Delivery(t) && (op.OnAck? ==> InOrder(t, op.n))
    ensures Delivery(Step(t, op))
    ensures t.active && !Step(t, op).active ==> op.OnPump?
  {
    match op
    case OnTimer(now) =>
      if t.status == NoReply {
        QueueDelivers(t, Message(t.seqno, false, Accepted, false), To(Replied202), t.seqno + 1);
      } else {
        QueueDelivers(t, Message(t.seqno, true, Update, true), To(Updated), t.seqno + 1);
      }
    case OnPump => PumpDelivers(t);
    case OnAck(n) => AckDeliversIff(t, n);
    case OnReport(code) => ReportDelivers(t, code);
    case OnError(code) => ErrorDelivers(t, code);
  }

  lemma ErrorDelivers(t: Transaction, code: int)
    requires Delivery(t)
    ensures Delivery(ErrorReply(t, code)) && ErrorReply(t, code).active == t.active
  {
    var msg := Message(if t.seqno > 0 then t.seqno else 0, t.seqno > 0, Error(code), false);
    var change := if code != 202 && code != 423 then To(Terminated) else Keep;
    QueueDelivers(t, msg, change, t.seqno + 1);
    assert KnownCode(code) ==> ErrorReply(t, code) == Queue(t.(seqno := t.seqno + 1), msg, change);
  }

  lemma ReportDelivers(t: Transaction, code: int)
    requires Delivery(t)
    ensures Delivery(Report(t, code)) && Report(t, code).active == t.active
  {
    var first := t.status == NoReply;
    ErrorDelivers(t, code);
    QueueDelivers(t, Message(if t.seqno > 0 then t.seqno else 0, t.seqno > 0, if first then Ok else Terminate, !first),
                  To(if first then Replied200 else Terminated), t.seqno + 1);
  }

  ghost predicate PeerInOrder(t: Transaction, ops: seq<Op>) {
    forall i | 0 <= i < |ops| && ops[i].OnAck? :: InOrder(Run(t, ops[..i]), ops[i].n)
  }

  lemma PeerBefore(t: Transaction, ops: seq<Op>)
    requires ops != [] && PeerInOrder(t, ops)
    ensures PeerInOrder(t, ops[..|ops| - 1])
  {
    var before := ops[..|ops| - 1];
    forall i | 0 <= i < |before| && before[i].OnAck? ensures InOrder(Run(t, before[..i]), before[i].n) {
      assert before[..i] == ops[..i];
    }
  }

  // When a transaction deactivates itself, over any run with a peer that acknowledges in order:
  // its queue is empty, everything ever queued was handed to the send step, once and in queue
  // order, and every message that waits was acknowledged.
  lemma {:induction false} RunDelivers(t: Transaction, ops: seq<Op>)
    requires Delivery(t) && t.active && PeerInOrder(t, ops)
    ensures var r := Run(t, ops);
            && Delivery(r)
            && (!r.active ==> exists n :: 0 < n <= |ops| && Delivered(Run(t, ops[..n])))
    decreases |ops|
  {
    if ops != [] {
      var before, op := ops[..|ops| - 1], ops[|ops| - 1];
      var b := Run(t, before);
      PeerBefore(t, ops);
      RunDelivers(t, before);
      StepDelivers(b, op);
      if !Run(t, ops).active {
        if b.active {
          assert ops[..|ops|] == ops;
          EndDelivered(b);
        } else {
          var n :| 0 < n <= |before| && Delivered(Run(t, before[..n]));
          assert before[..n] == ops[..n];
        }
      }
    }
  }

  // The state in which a transaction may end
  ghost predicate Delivered(t: Transaction) {
    && !t.active && t.messages == []
    && |t.handed| == |t.store| && Upto(t.handed)
    && (forall u | 0 <= u < |t.store| :: t.store[u].waits <==> u in t.acked)
    && (t.status == Terminated || t.status == Replied200)
  }

  lemma EndDelivered(t: Transaction)
    requires Delivery(t) && t.active && !Pump(t).active
    ensures Delivered(Pump(t)) && (t.status == Terminated ==> Pump(t).timer == Stopped)
  {
    PumpDelivers(t);
  }

  // Where runs begin: a transaction of the peer's, whose timer starts with its CONTROL, and one of
  // the server's own for a notification.
  lemma RunsBegin(start: int)
    ensures var t := StartTimer(NEW, start); Numbered(t) && Delivery(t) && t.active
    ensures Numbered(NOTIFICATION) && Delivery(NOTIFICATION) && NOTIFICATION.active
  {
  }

  // ---- the shape of the replies ----

  // How far a transaction has got by its replies
  datatype Phase = Fresh | Answered | Extended | Ended | Broken

  // The errors after which a transaction goes on
  predicate GoesOn(code: int) { code == 202 || code == 423 }

  // The replies that may follow: errors at any time, and a 200, or a 202 with updates and a terminate.
  // Nothing follows the last word, be it a 200, a terminate or an error.
  function Follow(p: Phase, k: Kind): Phase {
    if p == Fresh && k == Ok then Answered
    else if p == Fresh && k == Accepted then Extended
    else if p == Extended && k == Update then Extended
    else if p == Extended && k == Terminate then Ended
    else if (p == Fresh || p == Extended) && k.Error? then (if GoesOn(k.code) then p else Ended)
    else Broken
  }

  function PhaseOf(l: seq<Message>): Phase
    decreases |l|
  {
    if l == [] then Fresh else Follow(PhaseOf(l[..|l| - 1]), l[|l| - 1].kind)
  }

  // Every reply carries its place as its number. The first one and a 202 do not show theirs; updates and
  // terminates wait for their ack, and nothing else does.
  predicate NumberedReply(m: Message, i: nat) {
    m.seqno == i && (m.shown <==> i > 0 && m.kind != Accepted) && (m.waits <==> m.kind == Update || m.kind == Terminate)
  }

  ghost predicate ReplyShape(l: seq<Message>) {
    PhaseOf(l) != Broken && forall i | 0 <= i < |l| :: NumberedReply(l[i], i)
  }

  // Without error replies: either one final 200 without a number, or a 202, updates numbered 1, 2, ..., and
  // a terminate with the next number.
  ghost predicate PlainShape(l: seq<Message>) {
    || l == []
    || l == [Message(0, false, Ok, false)]
    || (&& l[0] == Message(0, false, Accepted, false)
        && forall i | 1 <= i < |l| ::
             l[i] == Message(i, true, Update, true) || (i == |l| - 1 && l[i] == Message(i, true, Terminate, true)))
  }

  lemma {:induction false} PlainPhase(l: seq<Message>)
    requires l != [] && forall i | 0 <= i < |l| :: !l[i].kind.Error?
    ensures PhaseOf(l) == Answered <==> |l| == 1 && l[0].kind == Ok
    ensures PhaseOf(l) == Extended <==> l[0].kind == Accepted && forall i | 1 <= i < |l| :: l[i].kind == Update
    ensures PhaseOf(l) == Ended <==> |l| > 1 && l[0].kind == Accepted && l[|l| - 1].kind == Terminate
                                     && forall i | 1 <= i < |l| - 1 :: l[i].kind == Update
    ensures PhaseOf(l) != Fresh
    decreases |l|
  {
    var before := l[..|l| - 1];
    if before != [] {
      PlainPhase(before);
      assert forall i | 0 <= i < |before| :: before[i] == l[i];
    }
  }

  lemma PlainShapeIff(l: seq<Message>)
    requires forall i | 0 <= i < |l| :: !l[i].kind.Error?
    ensures ReplyShape(l) <==> PlainShape(l)
  {
    if l != [] {
      PlainPhase(l);
      if ReplyShape(l) {
        assert NumberedReply(l[0], 0);
        forall i | 1 <= i < |l|
          ensures l[i] == Message(i, true, l[i].kind, l[i].kind == Update || l[i].kind == Terminate)
        {
          assert NumberedReply(l[i], i);
        }
      }
    }
  }

  lemma {:induction false} ShapePrefix(l: seq<Message>, k: seq<Message>)
    requires l <= k && ReplyShape(k)
    ensures ReplyShape(l)
    decreases |k|
  {
    if l != k {
      var before := k[..|k| - 1];
      assert l <= before && forall i | 0 <= i < |before| :: before[i] == k[i];
      ShapePrefix(l, before);
    } else {
      assert l == k;
    }
  }

  // Something would follow a 200 that is on its way.
  predicate Reopens(t: Transaction, op: Op) {
    t.status == Replied200 &&
    match op
    case OnTimer(now) => Fires(t, now)
    case OnReport(code) => code == 200 || (code != 1 && KnownCode(code))
    case OnError(code) => KnownCode(code)
    case _ => false
  }

  function PhaseFor(s: Status): Phase {
    match s
    case NoReply => Fresh
    case Replied200 => Answered
    case Replied202 => Extended
    case Updated => Extended
    case Terminated => Ended
  }

  ghost predicate WellReplied(t: Transaction) {
    ReplyShape(t.store) && PhaseOf(t.store) == PhaseFor(t.status) && (t.status != Terminated ==> t.seqno == |t.store|)
  }

  // One reply more
  lemma QueueReplies(t: Transaction, msg: Message, change: Change)
    requires WellReplied(t) && NumberedReply(msg, |t.store|) && t.seqno == |t.store|
    requires t.status != Terminated
    requires var p := Follow(PhaseOf(t.store), msg.kind);
             p == Broken || p == if change.To? then PhaseFor(change.status) else PhaseOf(t.store)
    ensures var q := Queue(t.(seqno := t.seqno + 1), msg, change);
            if Follow(PhaseOf(t.store), msg.kind) == Broken then !ReplyShape(q.store) else WellReplied(q)
  {
    assert (t.store + [msg])[..|t.store|] == t.store;
  }

  lemma TimerReplies(t: Transaction, now: int)
    requires WellReplied(t)
    ensures if Reopens(t, OnTimer(now)) then !ReplyShape(TimerTick(t, now).store) else WellReplied(TimerTick(t, now))
  {
    if Fires(t, now) && t.status != Terminated {
      if t.status == NoReply {
        QueueReplies(t, Message(t.seqno, false, Accepted, false), To(Replied202));
      } else {
        QueueReplies(t, Message(t.seqno, true, Update, true), To(Updated));
      }
    }
  }

  lemma ErrorReplies(t: Transaction, code: int)
    requires WellReplied(t)
    ensures if Reopens(t, OnError(code)) then !ReplyShape(ErrorReply(t, code).store)
            else WellReplied(ErrorReply(t, code))
  {
    if KnownCode(code) && t.status != Terminated {
      KnownErrorReplies(t, code);
    }
  }

  lemma KnownErrorReplies(t: Transaction, code: int)
    requires WellReplied(t) && KnownCode(code) && t.status != Terminated
    ensures if t.status == Replied200 then !ReplyShape(ErrorReply(t, code).store) else WellReplied(ErrorReply(t, code))
  {
    var msg, change := Message(t.seqno, t.seqno > 0, Error(code), false), if GoesOn(code) then Keep else To(Terminated);
    assert Follow(PhaseOf(t.store), msg.kind) == Broken <==> t.status == Replied200;
    QueueReplies(t, msg, change);
    assert ErrorReply(t, code) == Queue(t.(seqno := t.seqno + 1), msg, change);
  }

  lemma FirstReportReplies(t: Transaction)
    requires WellReplied(t) && t.status == NoReply
    ensures WellReplied(Report(t, 200))
  {
    QueueReplies(t, Message(t.seqno, t.seqno > 0, Ok, false), To(Replied200));
  }

  lemma LastReportReplies(t: Transaction)
    requires WellReplied(t) && t.status != NoReply && t.status != Terminated
    ensures if Reopens(t, OnReport(200)) then !ReplyShape(Report(t, 200).store) else WellReplied(Report(t, 200))
  {
    var msg := Message(t.seqno, t.seqno > 0, Terminate, true);
    assert Follow(PhaseOf(t.store), msg.kind) == Broken <==> t.status == Replied200;
    QueueReplies(t, msg, To(Terminated));
    assert Report(t, 200) == Queue(t.(seqno := t.seqno + 1), msg, To(Terminated));
  }

  lemma ReportReplies(t: Transaction, code: int)
    requires WellReplied(t)
    ensures if Reopens(t, OnReport(code)) then !ReplyShape(Report(t, code).store) else WellReplied(Report(t, code))
  {
    if code != 1 && code != 200 {
      ErrorReplies(t, code);
    } else if code == 200 && t.status == NoReply {
      FirstReportReplies(t);
    } else if code == 200 && t.status != Terminated {
      LastReportReplies(t);
    }
  }

  lemma StepReplies(t: Transaction, op: Op)
    requires WellReplied(t)
    ensures if Reopens(t, op) then !ReplyShape(Step(t, op).store) else WellReplied(Step(t, op))
  {
    match op
    case OnTimer(now) => TimerReplies(t, now);
    case OnPump => PumpGrows(t);
    case OnAck(n) =>
      var s := Step(t, op);
      assert s.store == t.store && s.status == t.status && s.seqno == t.seqno;
    case OnReport(code) => ReportReplies(t, code);
    case OnError(code) => ErrorReplies(t, code);
  }

  predicate NeverReopens(t: Transaction, ops: seq<Op>)
    decreases |ops|
  {
    ops == [] || (NeverReopens(t, ops[..|ops| - 1]) && !Reopens(Run(t, ops[..|ops| - 1]), ops[|ops| - 1]))
  }

  // For every interleaving of timer ticks, reports of any status, errors, acknowledgements and passes, the
  // replies have their shape if and only if nothing is queued while a 200 is pending.
  lemma {:induction false} RunReplies(start: int, ops: seq<Op>)
    ensures var t := Run(StartTimer(NEW, start), ops);
            && (NeverReopens(StartTimer(NEW, start), ops) ==> WellReplied(t))
            && (NeverReopens(StartTimer(NEW, start), ops) <==> ReplyShape(t.store))
    decreases |ops|
  {
    var t := StartTimer(NEW, start);
    if ops != [] {
      var before, op := ops[..|ops| - 1], ops[|ops| - 1];
      var b := Run(t, before);
      RunReplies(start, before);
      if NeverReopens(t, before) {
        StepReplies(b, op);
      } else {
        RunNumbered(t, before);
        StepNumbered(b, op);
        if ReplyShape(Step(b, op).store) { ShapePrefix(b.store, Step(b, op).store); }
      }
    }
  }

  // The timer does reopen a pending 200: a package that answers late, just before the refresh.
  lemma LateReplyReopens()
    ensures var t := Step(StartTimer(NEW, 0), OnReport(200));
            && t.status == Replied200 && Fires(t, 8000)
            && !ReplyShape(Step(t, OnTimer(8000)).store)
            && Step(t, OnTimer(8000)).status == Updated
  {
    var t := StartTimer(NEW, 0);
    assert WellReplied(t);
    StepReplies(t, OnReport(200));
    StepReplies(Step(t, OnReport(200)), OnTimer(8000));
  }

  // ---- every report is answered ----

  // What the status says of the replies so far: their count is the next number as long as another may
  // follow, and a transaction that has not been answered has had nothing but passing errors.
  ghost predicate Standing(t: Transaction) {
    && (t.status != Terminated ==> t.seqno == |t.store|)
    && (t.status == NoReply ==> forall i | 0 <= i < |t.store| :: t.store[i].kind.Error? && GoesOn(t.store[i].kind.code))
    && (t.status == Replied200 ==> exists i :: 0 <= i < |t.store| && t.store[i].kind == Ok)
    && (t.status == Replied202 || t.status == Updated ==> t.store != [])
  }

  lemma StepStanding(t: Transaction, op: Op)
    requires Standing(t)
    ensures Standing(Step(t, op))
  {
    var q := Step(t, op);
    if |q.store| > |t.store| {
      assert forall i | 0 <= i < |t.store| :: q.store[i] == t.store[i];
      if q.status == Replied200 && t.status != Replied200 { assert q.store[|t.store|].kind == Ok; }
    }
  }

  lemma {:induction false} RunStanding(start: int, ops: seq<Op>)
    ensures Standing(Run(StartTimer(NEW, start), ops))
    decreases |ops|
  {
    if ops != [] {
      RunStanding(start, ops[..|ops| - 1]);
      StepStanding(Run(StartTimer(NEW, start), ops[..|ops| - 1]), ops[|ops| - 1]);
    }
  }

  // Exactly one message more, with the next number
  ghost predicate Adds(t: Transaction, q: Transaction, kind: Kind, waits: bool) {
    q.store == t.store + [Message(|t.store|, |t.store| > 0, kind, waits)] && q.messages == t.messages + [|t.store|]
  }

  // In every run: a 200 that the package reports is passed on, as the 200 if nothing but passing errors went
  // out, else as a terminate with the next number that waits for its ack. Then the status is final. Only a
  // transaction that has had its last word passes nothing on.
  lemma SuccessIsTold(start: int, ops: seq<Op>)
    ensures var t := Run(StartTimer(NEW, start), ops); var q := Step(t, OnReport(200));
            match t.status
            case NoReply =>
              && Adds(t, q, Ok, false) && q.status == Replied200
              && forall i | 0 <= i < |t.store| :: t.store[i].kind.Error? && GoesOn(t.store[i].kind.code)
            case Terminated => q.store == t.store && q.status == Terminated
            case _ => Adds(t, q, Terminate, true) && |t.store| > 0 && q.status == Terminated
  {
    RunStanding(start, ops);
  }

  // And each of the errors of RFC 6230 is passed on by its code, be it reported or the stack's own; but for a
  // 202 and a 423 it is the last word. Other codes, and a 202 that a package reports, are not passed on.
  lemma ErrorIsTold(start: int, ops: seq<Op>, code: int, op: Op)
    requires op == OnError(code) || (op == OnReport(code) && code != 200 && code != 1)
    ensures var t := Run(StartTimer(NEW, start), ops); var q := Step(t, op);
            if t.status != Terminated && code in {200, 202, 400, 403, 405, 420, 421, 422, 423, 481, 500}
            then Adds(t, q, Error(code), false) && q.status == if code in {202, 423} then t.status else Terminated
            else q.store == t.store && q.status == t.status
    ensures var t := Run(StartTimer(NEW, start), ops); Step(t, OnReport(1)) == t
  {
    RunStanding(start, ops);
  }

  // A notification is one CONTROL without a number: a pass hands it over, and the first ack for 0, and no other
  // ack, lets the next pass end the transaction.
  lemma NotificationEnds(n: int)
    ensures var t := Pump(NOTIFICATION);
            && t.store == [Message(0, false, Control, true)] && t.handed == [0] && t.active && t.status == Terminated
            && (Pump(Ack(t, n)).active <==> n != 0)
  {
    var p, t := Purged(NOTIFICATION), Pump(NOTIFICATION);
    assert NOTIFICATION.messages == [] + [0] == [0] && NOTIFICATION.store == [] + [Message(0, false, Control, true)];
    assert [0][1..] == [] && Without([], []) == [] && Without([0], []) == [0] && p.messages == [0];
    assert Unsent({}, []) == [] && Unsent({}, [0]) == [0] && [] + [0] == [0];
    assert NotWaiting(t.store, []) == [] && NotWaiting(t.store, [0]) == [];
    assert t.messages == [0] && t.purgeable == [];
    assert Match(t, [], n) == [];
    if n == 0 {
      AckFound(t, n, 0);
      assert [] + [0] == [0] && Without([0], [0]) == [];
    } else {
      AckMissed(t, n);
    }
  }

  function Acks(numbers: seq<int>): seq<Op> {
    seq(|numbers|, i requires 0 <= i < |numbers| => OnAck(numbers[i]))
  }

  lemma RunMore(t: Transaction, ops: seq<Op>, op: Op)
    ensures Run(t, ops + [op]) == Step(Run(t, ops), op)
  {
    assert (ops + [op])[..|ops|] == ops;
  }

  // Acks only put messages on the list to be purged: at least those that they number.
  ghost predicate Purges(t: Transaction, r: Transaction, numbers: seq<int>)
    requires Below(t.messages, |t.store|)
  {
    && r == t.(purgeable := r.purgeable, acked := r.acked)
    && (forall u | u in t.purgeable :: u in r.purgeable)
    && (forall u | u in t.messages && t.store[u].seqno in numbers :: u in r.purgeable)
  }

  lemma {:induction false} AcksPurge(t: Transaction, numbers: seq<int>)
    requires Numbered(t) && Below(t.messages, |t.store|)
    ensures Purges(t, Run(t, Acks(numbers)), numbers)
    decreases |numbers|
  {
    if numbers != [] {
      var n, before := numbers[|numbers| - 1], numbers[..|numbers| - 1];
      AcksPurge(t, before);
      assert Acks(numbers) == Acks(before) + [OnAck(n)];
      RunMore(t, Acks(before), OnAck(n));
      AckPurges(t, Run(t, Acks(before)), before, n);
      assert numbers == before + [n];
    }
  }

  lemma AckPurges(t: Transaction, b: Transaction, before: seq<int>, n: int)
    requires Numbered(t) && Below(t.messages, |t.store|) && Purges(t, b, before)
    ensures Purges(t, Ack(b, n), before + [n])
  {
    var r := Ack(b, n);
    assert forall i | 0 <= i < |b.purgeable| :: r.purgeable[i] == b.purgeable[i];
    forall u | u in b.purgeable ensures u in r.purgeable {
      var i :| 0 <= i < |b.purgeable| && b.purgeable[i] == u;
      assert r.purgeable[i] == u;
    }
    forall u | u in t.messages && t.store[u].seqno in before + [n] ensures u in r.purgeable {
      if t.store[u].seqno == n {
        MatchFinds(b, b.messages, u);
        assert r.purgeable[|b.purgeable|] == u;
      }
    }
  }

  lemma {:induction false} WithoutAll(l: seq<nat>, gone: seq<nat>)
    requires forall u | u in l :: u in gone
    ensures Without(l, gone) == []
  {
    if l != [] {
      assert l[0] in gone;
      WithoutAll(l[1..], gone);
    }
  }

  lemma EndsPurged(r: Transaction)
    requires r.status == Terminated || r.status == Replied200
    requires forall u | u in r.messages :: u in r.purgeable
    ensures !Pump(r).active
  {
    WithoutAll(r.messages, r.purgeable);
  }

  // Once the status is final, a pass, acks for all that waits in whatever order and number, and another pass
  // end the transaction.
  lemma Finishes(t: Transaction, numbers: seq<int>)
    requires Delivery(t) && Numbered(t) && t.active && (t.status == Terminated || t.status == Replied200)
    requires forall u | u in Pump(t).messages && u < |t.store| && t.store[u].waits :: t.store[u].seqno in numbers
    ensures !Pump(Run(Pump(t), Acks(numbers))).active
  {
    var s := Pump(t);
    PumpDelivers(t);
    PumpGrows(t);
    PassFlags(t);
    AcksPurge(s, numbers);
    var r := Run(s, Acks(numbers));
    forall u | u in r.messages ensures u in r.purgeable {
      assert u in s.messages && u < |t.store| && (t.store[u].waits || u in s.purgeable);
    }
    EndsPurged(r);
  }

  // After a pass, what is still queued waits or is to be purged.
  lemma PassFlags(t: Transaction)
    requires Delivery(t) && t.active
    ensures forall u | u in Pump(t).messages :: u < |t.store| && (t.store[u].waits || u in Pump(t).purgeable)
  {
    PumpDelivers(t);
    var s := Pump(t);
    forall u | u in s.messages ensures u < |t.store| && (t.store[u].waits || u in s.purgeable) {
      var i :| 0 <= i < |s.messages| && s.messages[i] == u;
    }
  }

  // ---- the refresh deadline ----

  function LastTick(start: int, ops: seq<Op>): int
    decreases |ops|
  {
    if ops == [] then start
    else if ops[|ops| - 1].OnTimer? then ops[|ops| - 1].now
    else LastTick(start, ops[..|ops| - 1])
  }

  // The loop looks at the timer at least every d ms.
  predicate TicksWithin(start: int, ops: seq<Op>, d: nat)
    decreases |ops|
  {
    ops == [] ||
    (var before, op := ops[..|ops| - 1], ops[|ops| - 1];
     TicksWithin(start, before, d)
     && (op.OnTimer? ==> LastTick(start, before) <= op.now <= LastTick(start, before) + d))
  }

  ghost predicate Refreshed(t: Transaction, d: nat, last: int) {
    && t.refreshes != []
    && (forall i | 0 < i < |t.refreshes| :: REFRESH_MS <= t.refreshes[i] - t.refreshes[i - 1] < REFRESH_MS + d)
    && (t.active ==> t.timer == Since(t.refreshes[|t.refreshes| - 1]))
    && (t.active ==> 0 <= last - t.refreshes[|t.refreshes| - 1] < REFRESH_MS)
  }

  lemma OthersLeaveTimer(t: Transaction, op: Op)
    requires !op.OnTimer?
    ensures Step(t, op).refreshes == t.refreshes
    ensures Step(t, op).active ==> t.active && Step(t, op).timer == t.timer
  {
  }

  lemma TimerTickTimer(t: Transaction, now: int)
    ensures var q := TimerTick(t, now);
            && q.active == t.active
            && (if Fires(t, now) then q.timer == Since(now) && q.refreshes == t.refreshes + [now]
                else q.timer == t.timer && q.refreshes == t.refreshes)
  {
  }

  // One refresh more, not too late
  lemma FiredRefreshed(refreshes: seq<int>, d: nat, now: int)
    requires refreshes != []
    requires forall i | 0 < i < |refreshes| :: REFRESH_MS <= refreshes[i] - refreshes[i - 1] < REFRESH_MS + d
    requires REFRESH_MS <= now - refreshes[|refreshes| - 1] < REFRESH_MS + d
    ensures var r := refreshes + [now];
            forall i | 0 < i < |r| :: REFRESH_MS <= r[i] - r[i - 1] < REFRESH_MS + d
  {
  }

  lemma StepRefreshed(t: Transaction, op: Op, d: nat, last: int)
    requires Refreshed(t, d, last) && (op.OnTimer? ==> last <= op.now <= last + d)
    ensures Refreshed(Step(t, op), d, if op.OnTimer? then op.now else last)
  {
    if op.OnTimer? {
      TimerTickTimer(t, op.now);
      if Fires(t, op.now) { FiredRefreshed(t.refreshes, d, op.now); }
    } else {
      OthersLeaveTimer(t, op);
    }
  }

  // While a transaction is active its refreshes follow the start, and one another, by less than
  // the period plus one loop pass, over runs of any length.
  lemma {:induction false} RunRefreshed(start: int, ops: seq<Op>, d: nat)
    requires TicksWithin(start, ops, d)
    ensures Refreshed(Run(StartTimer(NEW, start), ops), d, LastTick(start, ops))
    decreases |ops|
  {
    if ops != [] {
      RunRefreshed(start, ops[..|ops| - 1], d);
      StepRefreshed(Run(StartTimer(NEW, start), ops[..|ops| - 1]), ops[|ops| - 1], d,
        LastTick(start, ops[..|ops| - 1]));
    }
  }

  // With passes less than two seconds apart the ten seconds announced never run out.
  lemma NeverTimesOut(start: int, ops: seq<Op>, d: nat, now: int)
    requires TicksWithin(start, ops, d) && d < 2000
    requires LastTick(start, ops) <= now <= LastTick(start, ops) + d
    ensures var t := Run(StartTimer(NEW, start), ops);
            && (forall i | 0 < i < |t.refreshes| :: 8000 <= t.refreshes[i] - t.refreshes[i - 1] < 10000)
            && (t.active ==> t.refreshes != [] && now - t.refreshes[|t.refreshes| - 1] < 10000)
  {
    RunRefreshed(start, ops, d);
  }

  // A refresh before the last word is a 202 or an update, and the same pass sends it.
  lemma RefreshIsSent(t: Transaction, now: int)
    requires Delivery(t) && Fires(t, now) && t.status != Terminated
    ensures var q := TimerTick(t, now);
            && q.store == t.store + [if t.status == NoReply then Message(t.seqno, false, Accepted, false)
                                     else Message(t.seqno, true, Update, true)]
            && |t.store| !in t.handed && |t.store| in Pump(q).handed
  {
    StepDelivers(t, OnTimer(now));
    var q := TimerTick(t, now);
    PumpDelivers(q);
    assert Pump(q).handed[|t.store|] == |t.store|;
    forall i | 0 <= i < |t.handed| ensures t.handed[i] != |t.store| { }
  }

  // ---- the object ----

  class CfwTransaction {
    var store: seq<Message>
    var messages: seq<nat>
    var oldMessages: seq<nat>
    var sent: set<nat>
    var handed: seq<nat>
    var acked: set<nat>
    var status: Status
    var seqno: int
    var active: bool
    var timer: Timer
    var refreshes: seq<int>

    function State(): Transaction
      reads this
    {
      Transaction(store, messages, oldMessages, sent, handed, acked, status, seqno, active, timer, refreshes)
    }

    constructor ()
      ensures State() == NEW
    {
      store, messages, oldMessages, sent, handed, acked := [], [], [], {}, [], {};
      status, seqno, active, timer, refreshes := NoReply, 0, true, Stopped, [];
    }

    method QueueMessage(msg: Message, change: Change)
      modifies this`store, this`messages, this`status
      ensures State() == Queue(old(State()), msg, change)
    {
      if status == Terminated {
        return;
      }
      messages := messages + [|store|];
      store := store + [msg];
      if change.To? {
        status := change.status;
      }
    }

    method Start(now: int)
      modifies this`timer, this`refreshes
      ensures State() == StartTimer(old(State()), now)
    {
      timer := Since(now);
      refreshes := refreshes + [now];
    }

    method AckReceived(n: int)
      requires Below(messages, |store|)
      modifies this`oldMessages, this`acked
      ensures State() == Ack(old(State()), n)
    {
      var i := 0;
      ghost var t, found := State(), Match(State(), messages, n);
      while i < |messages|
        invariant i <= |messages| && State() == t
        invariant found == Match(t, messages[i..], n)
      {
        MatchNext(t, messages, i, n);
        if store[messages[i]].seqno == n {
          AckFound(t, n, messages[i]);
          oldMessages := oldMessages + [messages[i]];
          acked := acked + {messages[i]};
          return;
        }
        i := i + 1;
      }
      AckMissed(t, n);
    }

    method CheckTimer(now: int)
      modifies this`store, this`messages, this`status, this`seqno, this`timer, this`refreshes
      ensures State() == TimerTick(old(State()), now)
    {
      if !active || timer.Stopped? || now - timer.start < REFRESH_MS {
        return;
      }
      var n := seqno;
      seqno := seqno + 1;
      if status == NoReply {
        QueueMessage(Message(n, false, Accepted, false), To(Replied202));
      } else {
        QueueMessage(Message(n, true, Update, true), To(Updated));
      }
      Start(now);
    }

    method Purge()
      modifies this`messages, this`oldMessages
      ensures State() == Purged(old(State()))
    {
      ghost var gone := [];
      WithoutNone(messages);
      while oldMessages != []
        invariant gone + oldMessages == old(oldMessages)
        invariant messages == Without(old(messages), gone)
        decreases |oldMessages|
      {
        var u := oldMessages[0];
        oldMessages := oldMessages[1..];
        WithoutOneMore(old(messages), gone, u);
        messages := Without(messages, [u]);
        gone := gone + [u];
      }
      assert gone == old(oldMessages);
    }

    method SendOne(u: nat)
      requires u < |store| && u !in sent
      modifies this`oldMessages, this`sent, this`handed
      ensures handed == old(handed) + [u]
      ensures oldMessages == old(oldMessages) + if store[u].waits then [] else [u]
      ensures sent == old(sent) + if store[u].waits then {u} else {}
    {
      handed := handed + [u];
      if !store[u].waits {
        oldMessages := oldMessages + [u];
      } else {
        sent := sent + {u};
      }
    }

    method SendUnsent()
      requires Increasing(messages) && Below(messages, |store|) && oldMessages == []
      modifies this`oldMessages, this`sent, this`handed
      ensures var now := Unsent(old(sent), messages);
              handed == old(handed) + now && oldMessages == NotWaiting(store, now)
                && sent == old(sent) + Waiting(store, now)
    {
      ghost var now := [];
      for i := 0 to |messages|
        invariant now == Unsent(old(sent), messages[..i])
        invariant handed == old(handed) + now
        invariant oldMessages == NotWaiting(store, now)
        invariant sent == old(sent) + Waiting(store, now)
      {
        Extend(old(sent), store, messages, i);
        if messages[i] !in sent {
          SendOne(messages[i]);
        }
        now := Unsent(old(sent), messages[..i + 1]);
      }
      assert messages[..|messages|] == messages;
    }

    // Purge, then end the transaction or send what is new
    method Flush()
      requires Delivery(State())
      modifies this
      ensures State() == Pump(old(State()))
    {
      if !active {
        return;
      }
      PurgeLeaves(State());
      Purge();
      if messages != [] {
        SendUnsent();
      } else if status == Terminated {
        timer := Stopped;
        active := false;
      } else if status == Replied200 {
        active := false;
      }
    }

    // One pass of the transaction's loop
    method Pass(now: int)
      requires Delivery(State())
      modifies this
      ensures Delivery(State())
      ensures State() == Pump(TimerTick(old(State()), now))
    {
      StepDelivers(State(), OnTimer(now));
      CheckTimer(now);
      PumpDelivers(State());
      Flush();
    }

    method ErrorCode(code: int)
      modifies this`store, this`messages, this`status, this`seqno
      ensures State() == ErrorReply(old(State()), code)
    {
      if !KnownCode(code) {
        return;
      }
      var n := if seqno > 0 then seqno else 0;
      var shown := seqno > 0;
      seqno := seqno + 1;
      QueueMessage(Message(n, shown, Error(code), false), if code != 202 && code != 423 then To(Terminated) else Keep);
    }

    method ReportStatus(code: int)
      modifies this`store, this`messages, this`status, this`seqno
      ensures State() == Report(old(State()), code)
    {
      if code == 1 {
        return;
      }
      if code != 200 {
        ErrorCode(code);
        return;
      }
      var first := status == NoReply;
      var n := if seqno > 0 then seqno else 0;
      var shown := seqno > 0;
      seqno := seqno + 1;
      QueueMessage(Message(n, shown, if first then Ok else Terminate, !first),
        To(if first then Replied200 else Terminated));
    }
  }

  // One more message of the queue: it is sent exactly if it had not been sent before.
  lemma Extend(sent: set<nat>, store: seq<Message>, messages: seq<nat>, i: nat)
    requires Increasing(messages) && Below(messages, |store|) && i < |messages|
    ensures var u, now, more := messages[i], Unsent(sent, messages[..i]), Unsent(sent, messages[..i + 1]);
            && (u in sent + Waiting(store, now) <==> u in sent)
            && more == now + (if u in sent then [] else [u])
            && NotWaiting(store, more) == NotWaiting(store, now) + (if u in sent || store[u].waits then [] else [u])
            && Waiting(store, more) == Waiting(store, now) + (if u in sent || !store[u].waits then {} else {u})
  {
    var u, now := messages[i], Unsent(sent, messages[..i]);
    assert messages[..i + 1] == messages[..i] + [u];
    assert u !in messages[..i];
    UnsentMembers(sent, messages[..i]);
    assert now + [] == now && u < |store|;
    UnsentOneMore(sent, messages[..i], u);
    NotWaitingOneMore(store, now, u);
    WaitingOneMore(store, now, u);
  }

  lemma WaitingOneMore(store: seq<Message>, l: seq<nat>, u: nat)
    requires u < |store|
    ensures Waiting(store, l + [u]) == Waiting(store, l) + if store[u].waits then {u} else {}
  {
  }

  lemma {:induction false} WithoutNone(l: seq<nat>)
    ensures Without(l, []) == l
  {
    if l != [] { WithoutNone(l[1..]); }
  }

  lemma {:induction false} WithoutOneMore(l: seq<nat>, gone: seq<nat>, u: nat)
    ensures Without(Without(l, gone), [u]) == Without(l, gone + [u])
    decreases |l|
  {
    if l != [] {
      WithoutOneMore(l[1..], gone, u);
      var rest := Without(l[1..], gone);
      if l[0] !in gone {
        assert ([l[0]] + rest)[1..] == rest;
      } else {
        assert [] + rest == rest;
      }
    }
  }

  lemma {:induction false} UnsentOneMore(sent: set<nat>, l: seq<nat>, u: nat)
    ensures Unsent(sent, l + [u]) == Unsent(sent, l) + if u in sent then [] else [u]
    decreases |l|
  {
    if l == [] {
      assert l + [u] == [u];
      assert [u][1..] == [];
    } else {
      UnsentOneMore(sent, l[1..], u);
      assert (l + [u])[1..] == l[1..] + [u] && (l + [u])[0] == l[0];
      var more := if u in sent then [] else [u];
      assert [l[0]] + Unsent(sent, l[1..]) + more == [l[0]] + (Unsent(sent, l[1..]) + more);
    }
  }

  lemma {:induction false} NotWaitingOneMore(store: seq<Message>, l: seq<nat>, u: nat)
    ensures NotWaiting(store, l + [u]) == NotWaiting(store, l) + if u < |store| && !store[u].waits then [u] else []
    decreases |l|
  {
    if l == [] {
      assert l + [u] == [u];
      assert [u][1..] == [];
    } else {
      NotWaitingOneMore(store, l[1..], u);
      assert (l + [u])[1..] == l[1..] + [u] && (l + [u])[0] == l[0];
      var first := if l[0] < |store| && !store[l[0]].waits then [l[0]] else [];
      assert NotWaiting(store, l + [u]) == first + NotWaiting(store, l[1..] + [u]);
    }
  }
}
