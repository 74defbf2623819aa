// A control connection as the stack hears it: header after header, each with the body it asks for.
module Stream {
  import opened Options
  import opened Framing
  import opened Headers
  import CommaLists
  import Negotiation

  // What the stack knows: is the client authenticated, and what dialog is it to name for that; which
  // transactions exist; the MIME type of every control package, and their names
  datatype Desk = Desk(
    authenticated: bool, tids: set<string>, packages: map<string, string>, dialogId: string, names: seq<string>)

  datatype Event =
    | Ignored
    | Refused(tid: string, code: int)
    | Ended(tid: string, code: int)
    | Acked(tid: string, seqno: nat)
    | Alive(tid: string)
    | Synced(tid: string, header: string)
    | Unmatched(tid: string, header: string)
    | Control(tid: string, package: string, blob: string)

  // A header is answered at once, or a body is read first.
  datatype Decision = Answer(event: Event) | Fetch(tid: string, package: string, fits: bool, len: nat)

  function StartOf(head: string): Option<StartLine> {
    Started(if Lines(head) == [] then "" else Lines(head)[0])
  }

  function Rest(head: string): seq<string> {
    if Lines(head) == [] then [] else Lines(head)[1..]
  }

  function Decide(desk: Desk, head: string): Decision {
    match StartOf(head)
    case None => Answer(Ignored)
    case Some(start) => DecideRequest(desk, start, Rest(head))
  }

  function DecideRequest(desk: Desk, start: StartLine, lines: seq<string>): Decision {
    var request, tid := start.request, start.tid;
    if request != "SYNC" && !desk.authenticated then Answer(Refused(tid, 403))
    else if request == "200" then
      if tid !in desk.tids then Answer(Refused(tid, 481))
      else (match AckOf(lines, 0)
            case Acks(seqno) => Answer(Acked(tid, seqno))
            case Unreadable => Answer(Refused(tid, 400)))
    else if request == "K-ALIVE" then
      Answer(if lines == [] || lines[0] == "" then Alive(tid) else Refused(tid, 400))
    else if request == "SYNC" then Answer(DecideSync(desk, tid, lines))
    else if request == "CONTROL" then DecideControl(desk, tid, lines)
    else Answer(Refused(tid, 405))
  }

  function DecideControl(desk: Desk, tid: string, lines: seq<string>): Decision {
    if tid in desk.tids then Answer(Refused(tid, 423))
    else
      match AllFields(lines, Fields("", "", ""))
      case None => Answer(Ended(tid, 400))
      case Some(f) =>
        if f.package == "" then Answer(Refused(tid, 400))
        else
          FieldsProper(lines, Fields("", "", ""));
          Fetch(tid, f.package, f.package in desk.packages && desk.packages[f.package] == f.mime, Number(f.content))
  }

  function DecideSync(desk: Desk, tid: string, lines: seq<string>): Event {
    if tid in desk.tids then Refused(tid, 423)
    else
      match AllSyncFields(lines, NOTHING)
      case None => Ended(tid, 400)
      case Some(f) =>
        if f.dialog == "" || f.dialog != desk.dialogId || f.keepAlive == "" || f.packages == "" then Ended(tid, 481)
        else
          SyncProper(lines, NOTHING);
          Negotiated(tid, Number(f.keepAlive) % 65536, Negotiation.Reply(desk.names, Negotiation.Wanted(f.packages)))
  }

  // A keep-alive is kept in 16 bits.
  function Negotiated(tid: string, keepAlive: nat, reply: (bool, string)): Event {
    if reply.0 then Synced(tid, Negotiation.Line("Keep-Alive: " + Decimal(keepAlive)) + reply.1)
    else Unmatched(tid, reply.1)
  }

  // A SYNC that names the dialog makes the client known, whatever its other lines are worth.
  function Admits(desk: Desk, start: StartLine, lines: seq<string>): bool {
    && start.request == "SYNC" && start.tid !in desk.tids
    && var f := AllSyncFields(lines, NOTHING);
       f.Some? && f.value.dialog != "" && f.value.dialog == desk.dialogId
  }

  // Every header with a start line leaves a transaction behind.
  function Noted(desk: Desk, head: string): Desk {
    match StartOf(head)
    case None => desk
    case Some(start) =>
      desk.(tids := desk.tids + {start.tid}, authenticated := desk.authenticated || Admits(desk, start, Rest(head)))
  }

  function Answered(d: Decision, blob: string): Event {
    match d
    case Answer(event) => event
    case Fetch(tid, package, fits, _) => if fits then Control(tid, package, blob) else Refused(tid, 420)
  }

  function Length(d: Decision): nat {
    if d.Fetch? then d.len else 0
  }

  datatype Taken = Incomplete | Taken(event: Event, desk: Desk, rest: string)

  // The message of a header, its body at the start of a text
  function TakeBody(desk: Desk, head: string, text: string): (r: Taken)
    ensures r.Taken? ==> |r.rest| <= |text|
  {
    var d := Decide(desk, head);
    if Length(d) > |text| then Incomplete
    else Taken(Answered(d, CString(text[..Length(d)])), Noted(desk, head), text[Length(d)..])
  }

  // The first message of a text
  function Take(desk: Desk, text: string): (r: Taken)
    ensures r.Taken? ==> |r.rest| < |text|
  {
    var n := Stop(text);
    if n < 0 then Incomplete else TakeBody(desk, CString(text[..n]), text[n..])
  }

  // After these the dialog is ended.
  predicate Closing(e: Event) { e.Ended? || e.Unmatched? }

  // Transactions end on their own and are freed in between: before each message, those in the next list.
  function Due(ended: seq<seq<string>>): seq<string> {
    if ended == [] then [] else ended[0]
  }

  function Later(ended: seq<seq<string>>): seq<seq<string>> {
    if ended == [] then [] else ended[1..]
  }

  function Without(tids: set<string>, list: seq<string>): set<string> {
    set t | t in tids && t !in list
  }

  function Freed(desk: Desk, ended: seq<seq<string>>): Desk {
    desk.(tids := Without(desk.tids, Due(ended)))
  }

  // All the messages of a text, up to the end of the dialog
  function Listen(desk: Desk, text: string, ended: seq<seq<string>>): seq<Event>
    decreases |text|
  {
    match Take(Freed(desk, ended), text)
    case Incomplete => []
    case Taken(event, desk', rest) => [event] + if Closing(event) then [] else Listen(desk', rest, Later(ended))
  }

  function Known(desk: Desk, tid: string): Desk {
    desk.(tids := desk.tids + {tid})
  }

  // What a printed message comes out as, its body cut at a NUL
  function Read(desk: Desk, m: Message): Event {
    if !desk.authenticated && !m.Hello? then Refused(Tid(m), 403)
    else
      match m
      case Ask(w) =>
        if w.tid in desk.tids then Refused(w.tid, 423)
        else if w.name in desk.packages && desk.packages[w.name] == w.mime then Control(w.tid, w.name, CString(w.blob))
        else Refused(w.tid, 420)
      case Ack(tid, seqno) => if tid in desk.tids then Acked(tid, seqno) else Refused(tid, 481)
      case Ping(tid) => Alive(tid)
      case Hello(tid, dialog, keepAlive, asked) =>
        if tid in desk.tids then Refused(tid, 423)
        else if dialog != desk.dialogId then Ended(tid, 481)
        else Negotiated(tid, keepAlive % 65536, Negotiation.Reply(desk.names, Negotiation.Wanted(asked)))
  }

  // and what is known then
  function Next(desk: Desk, m: Message): Desk {
    var admitted := m.Hello? && m.id !in desk.tids && m.dialog == desk.dialogId;
    Known(desk, Tid(m)).(authenticated := desk.authenticated || admitted)
  }

  // Only a CONTROL of a known client and with a new transaction has its body read.
  predicate BodyStays(desk: Desk, m: Message) {
    m.Ask? && (!desk.authenticated || m.w.tid in desk.tids)
  }

  // A printed header is read up to its end and cut in its lines.
  lemma HeadTaken(desk: Desk, lines: seq<string>, rest: string)
    requires Plain(lines) && lines != []
    ensures var head := Block(lines) + CRLF;
            && Take(desk, head + rest) == TakeBody(desk, head, rest)
            && StartOf(head) == Started(lines[0]) && Rest(head) == lines[1..] + [""]
  {
    BlockStops(lines, rest);
    HeadWhole(lines);
    HeadCut(desk, Block(lines) + CRLF, rest);
    HeadSplit(Block(lines) + CRLF, lines);
  }

  lemma HeadWhole(lines: seq<string>)
    requires Plain(lines)
    ensures CString(Block(lines) + CRLF) == Block(lines) + CRLF
    ensures Lines(Block(lines) + CRLF) == lines + [""]
  {
    BlockFree(lines);
    WholeEnd(Block(lines));
    LinesOfBlock(lines);
  }

  lemma WholeEnd(s: string)
    requires Free(s, NUL)
    ensures CString(s + CRLF) == s + CRLF
  {
    CStringWhole(s + CRLF);
  }

  lemma HeadCut(desk: Desk, head: string, rest: string)
    requires Stop(head + rest) == |head| && CString(head) == head
    ensures Take(desk, head + rest) == TakeBody(desk, head, rest)
  {
    Cut(head, rest);
  }

  lemma HeadSplit(head: string, lines: seq<string>)
    requires lines != [] && Lines(head) == lines + [""]
    ensures StartOf(head) == Started(lines[0]) && Rest(head) == lines[1..] + [""]
  {
    assert (lines + [""])[1..] == lines[1..] + [""];
  }

  lemma Cut(a: string, rest: string)
    ensures (a + rest)[..|a|] == a && (a + rest)[|a|..] == rest
  {
  }

  lemma BodyTaken(desk: Desk, head: string, body: string, rest: string)
    requires Length(Decide(desk, head)) == |body|
    ensures TakeBody(desk, head, body + rest)
            == Taken(Answered(Decide(desk, head), CString(body)), Noted(desk, head), rest)
  {
    Cut(body, rest);
  }

  lemma BodyLeft(desk: Desk, head: string, rest: string)
    requires Length(Decide(desk, head)) == 0
    ensures TakeBody(desk, head, rest) == Taken(Answered(Decide(desk, head), ""), Noted(desk, head), rest)
  {
    BodyTaken(desk, head, "", rest);
    assert "" + rest == rest && CString("") == "";
  }

  // ---- when the reading stays in step ----

  // The length of the body that the lines of a CONTROL announce, and their package, if they can be read
  function Announced(lines: seq<string>): Option<(string, nat)> {
    var f := AllFields(lines, Fields("", "", ""));
    if f.None? then None
    else
      FieldsProper(lines, Fields("", "", ""));
      Some((f.value.package, Number(f.value.content)))
  }

  // A header that asks for the body it announces: a CONTROL for some package, from a known client, with a
  // transaction of its own
  predicate Accepted(desk: Desk, lines: seq<string>)
    requires lines != []
  {
    && Started(lines[0]).Some? && Started(lines[0]).value.request == "CONTROL"
    && desk.authenticated && Started(lines[0]).value.tid !in desk.tids
    && Announced(lines[1..]).Some? && Announced(lines[1..]).value.0 != ""
  }

  lemma FetchIff(desk: Desk, head: string, lines: seq<string>)
    requires lines != [] && Announced(lines[1..]).Some?
    requires StartOf(head) == Started(lines[0]) && Rest(head) == lines[1..] + [""]
    ensures Length(Decide(desk, head)) == if Accepted(desk, lines) then Announced(lines[1..]).value.1 else 0
  {
    FieldsEnd(lines[1..], Fields("", "", ""));
    if StartOf(head).Some? && StartOf(head).value.request == "CONTROL" && desk.authenticated {
      DecideAsked(desk, head);
    }
  }

  lemma DecideAsked(desk: Desk, head: string)
    requires StartOf(head).Some? && StartOf(head).value.request == "CONTROL" && desk.authenticated
    ensures Decide(desk, head) == DecideControl(desk, StartOf(head).value.tid, Rest(head))
  {
  }

  // Behind any header that announces a body of its length, the next message is read from its own start if
  // and only if the header was accepted or the body is empty.
  lemma InStepIff(desk: Desk, lines: seq<string>, body: string, rest: string)
    requires Plain(lines) && lines != []
    requires Announced(lines[1..]).Some? && Announced(lines[1..]).value.1 == |body|
    ensures Take(desk, Block(lines) + CRLF + (body + rest)).Taken?
    ensures Take(desk, Block(lines) + CRLF + (body + rest)).rest == rest <==> Accepted(desk, lines) || body == ""
  {
    var head := Block(lines) + CRLF;
    HeadTaken(desk, lines, body + rest);
    FetchIff(desk, head, lines);
    if Accepted(desk, lines) {
      BodyTaken(desk, head, body, rest);
    } else {
      BodyLeft(desk, head, body + rest);
      assert body == "" ==> body + rest == rest;
      assert body != "" ==> |body + rest| > |rest|;
    }
  }

  lemma NoPackageDecided(desk: Desk, head: string, tid: string, n: nat)
    requires desk.authenticated && tid !in desk.tids && StartOf(head) == Some(StartLine("CONTROL", tid))
    requires Rest(head) == ["Content-Length: " + Decimal(n)] + [""]
    ensures Decide(desk, head) == Answer(Refused(tid, 400)) && Noted(desk, head) == Known(desk, tid)
  {
    DecideAsked(desk, head);
    OnlyLength(n);
  }

  lemma NoPackageTaken(desk: Desk, lines: seq<string>, tid: string, n: nat, text: string)
    requires desk.authenticated && tid !in desk.tids && Plain(lines) && lines != []
    requires Started(lines[0]) == Some(StartLine("CONTROL", tid)) && lines[1..] == ["Content-Length: " + Decimal(n)]
    ensures Take(desk, Block(lines) + CRLF + text) == Taken(Refused(tid, 400), Known(desk, tid), text)
  {
    var head := Block(lines) + CRLF;
    HeadTaken(desk, lines, text);
    NoPackageDecided(desk, head, tid, n);
    BodyLeft(desk, head, text);
  }

  // The header of a CONTROL without a package
  function Unaddressed(tid: string, n: nat): seq<string> {
    ["CFW " + tid + " CONTROL", "Content-Length: " + Decimal(n)]
  }

  lemma UnaddressedPlain(tid: string, n: nat)
    requires Word(tid)
    ensures Plain(Unaddressed(tid, n))
  {
    WordPlain(tid);
    PlainLine("CFW ", tid, " CONTROL");
    DecimalPlain(n);
    LastPlain("Content-Length: ", Decimal(n));
  }

  // From a known client and with a new transaction, it is refused, and its body read as a header.
  lemma NoPackageLeavesBody(desk: Desk, tid: string, body: string, rest: string)
    requires desk.authenticated && Word(tid) && tid !in desk.tids
    ensures Take(desk, Block(Unaddressed(tid, |body|)) + CRLF + (body + rest))
         == Taken(Refused(tid, 400), Known(desk, tid), body + rest)
  {
    var lines := Unaddressed(tid, |body|);
    UnaddressedPlain(tid, |body|);
    ControlStarts(tid);
    NoPackageTaken(desk, lines, tid, |body|, body + rest);
  }

  lemma ControlStarts(tid: string)
    requires Word(tid)
    ensures Started("CFW " + tid + " CONTROL") == Some(StartLine("CONTROL", tid))
  {
    StartedPrinted(tid, " CONTROL");
    ControlDirected(tid);
    assert " CONTROL"[1..] == "CONTROL";
  }

  lemma OnlyLength(n: nat)
    ensures AllFields(["Content-Length: " + Decimal(n)] + [""], Fields("", "", "")) == Some(Fields("", Decimal(n), ""))
  {
    var lines := ["Content-Length: " + Decimal(n)] + [""];
    FollowingIs("Content-Length: ", Decimal(n));
    assert lines[1..] == [""];
  }

  // ---- reading undoes printing ----

  function RequestOf(m: Message): string {
    match m
    case Ask(_) => "CONTROL"
    case Ack(_, _) => "200"
    case Ping(_) => "K-ALIVE"
    case Hello(_, _, _, _) => "SYNC"
  }

  lemma StartsAs(m: Message)
    requires Printable(m)
    ensures Started(Head(m)[0]) == Some(StartLine(RequestOf(m), Tid(m)))
  {
    match m
    case Ask(w) => ControlStarts(w.tid);
    case Ack(tid, _) =>
      StartedPrinted(tid, " 200");
      AckDirected(tid);
      assert " 200"[1..] == "200";
    case Ping(tid) =>
      StartedPrinted(tid, " K-ALIVE");
      PingDirected(tid);
      assert " K-ALIVE"[1..] == "K-ALIVE";
    case Hello(tid, _, _, _) =>
      StartedPrinted(tid, " SYNC");
      HelloDirected(tid);
      assert " SYNC"[1..] == "SYNC";
  }

  lemma DecideFetch(desk: Desk, w: Written)
    requires Sendable(w) && w.tid !in desk.tids
    ensures DecideControl(desk, w.tid, HeaderLines(w)[1..] + [""])
         == Fetch(w.tid, w.name, w.name in desk.packages && desk.packages[w.name] == w.mime, |w.blob|)
  {
    FieldsPrinted(w);
    NumberOfDecimal(|w.blob|);
  }

  lemma AckDecided(desk: Desk, head: string, tid: string, n: nat)
    requires desk.authenticated && StartOf(head) == Some(StartLine("200", tid))
    requires Rest(head) == ["Seq: " + Decimal(n)] + [""]
    ensures Decide(desk, head) == Answer(Read(desk, Ack(tid, n)))
  {
    AckPrinted(n);
  }

  lemma PingDecided(desk: Desk, head: string, tid: string)
    requires desk.authenticated && StartOf(head) == Some(StartLine("K-ALIVE", tid)) && Rest(head) == [] + [""]
    ensures Decide(desk, head) == Answer(Alive(tid))
  {
  }

  lemma HelloDecided(desk: Desk, head: string, m: Message)
    requires m.Hello? && Printable(m)
    requires StartOf(head) == Some(StartLine("SYNC", m.id)) && Rest(head) == Head(m)[1..] + [""]
    ensures Decide(desk, head) == Answer(Read(desk, m)) && Noted(desk, head) == Next(desk, m)
  {
    HelloPrinted(m);
    NumberOfDecimal(m.keepAlive);
    SyncDecided(desk, head, m.id);
  }

  lemma SyncDecided(desk: Desk, head: string, tid: string)
    requires StartOf(head) == Some(StartLine("SYNC", tid))
    ensures Decide(desk, head) == Answer(DecideSync(desk, tid, Rest(head)))
  {
  }

  lemma StrangerDecided(desk: Desk, head: string)
    requires StartOf(head).Some? && StartOf(head).value.request != "SYNC" && !desk.authenticated
    ensures Decide(desk, head) == Answer(Refused(StartOf(head).value.tid, 403))
  {
  }

  lemma OthersNoted(desk: Desk, head: string)
    requires StartOf(head).Some? && StartOf(head).value.request != "SYNC"
    ensures Noted(desk, head) == Known(desk, StartOf(head).value.tid)
  {
  }

  lemma DecidePrinted(desk: Desk, m: Message, head: string)
    requires Printable(m)
    requires StartOf(head) == Started(Head(m)[0]) && Rest(head) == Head(m)[1..] + [""]
    ensures Answered(Decide(desk, head), CString(Body(m))) == Read(desk, m)
    ensures Length(Decide(desk, head)) == if BodyStays(desk, m) then 0 else |Body(m)|
    ensures Noted(desk, head) == Next(desk, m)
  {
    StartsAs(m);
    if m.Hello? {
      HelloDecided(desk, head, m);
    } else {
      OthersNoted(desk, head);
      if desk.authenticated { RequestDecided(desk, m, head); } else { StrangerDecided(desk, head); }
    }
  }

  lemma RequestDecided(desk: Desk, m: Message, head: string)
    requires Printable(m) && !m.Hello? && desk.authenticated
    requires StartOf(head) == Some(StartLine(RequestOf(m), Tid(m))) && Rest(head) == Head(m)[1..] + [""]
    ensures Answered(Decide(desk, head), CString(Body(m))) == Read(desk, m)
    ensures Length(Decide(desk, head)) == if BodyStays(desk, m) then 0 else |Body(m)|
  {
    match m
    case Ask(w) =>
      DecideAsked(desk, head);
      if w.tid !in desk.tids { DecideFetch(desk, w); }
    case Ack(tid, n) => AckDecided(desk, head, tid, n);
    case Ping(tid) => PingDecided(desk, head, tid);
  }

  // Reading a printed message, in any context: strangers and known transactions lose their body.
  lemma TakePrinted(desk: Desk, m: Message, rest: string)
    requires Printable(m)
    ensures Take(desk, Print(m) + rest)
         == Taken(Read(desk, m), Next(desk, m), if BodyStays(desk, m) then Body(m) + rest else rest)
  {
    var head := Block(Head(m)) + CRLF;
    PlainHead(m);
    assert Print(m) + rest == head + (Body(m) + rest);
    HeadTaken(desk, Head(m), Body(m) + rest);
    DecidePrinted(desk, m, head);
    if BodyStays(desk, m) {
      BodyLeft(desk, head, Body(m) + rest);
      AnsweredAnyhow(Decide(desk, head), CString(Body(m)));
    } else {
      BodyTaken(desk, head, Body(m), rest);
    }
  }

  lemma AnsweredAnyhow(d: Decision, blob: string)
    requires d.Answer?
    ensures Answered(d, blob) == Answered(d, "")
  {
  }

  // ---- who is answered, and who is refused ----

  // When an event refuses its request with one of the stack's codes
  ghost predicate RefusedRightly(desk: Desk, start: StartLine, e: Event) {
    && (e == Refused(start.tid, 403) <==> !desk.authenticated && start.request != "SYNC")
    && (e == Refused(start.tid, 405) <==>
          desk.authenticated && start.request !in {"200", "K-ALIVE", "SYNC", "CONTROL"})
    && (e == Refused(start.tid, 423) <==>
          start.tid in desk.tids && (start.request == "SYNC" || (desk.authenticated && start.request == "CONTROL")))
    && (e == Refused(start.tid, 481) <==> start.tid !in desk.tids && desk.authenticated && start.request == "200")
  }

  lemma ControlRefused(desk: Desk, start: StartLine, lines: seq<string>, blob: string)
    requires desk.authenticated && start.request == "CONTROL"
    ensures RefusedRightly(desk, start, Answered(DecideControl(desk, start.tid, lines), blob))
  {
  }

  lemma SyncRefused(desk: Desk, start: StartLine, lines: seq<string>)
    requires start.request == "SYNC"
    ensures RefusedRightly(desk, start, DecideSync(desk, start.tid, lines))
  {
  }

  lemma HeadRefused(desk: Desk, head: string, blob: string)
    requires StartOf(head).Some?
    ensures RefusedRightly(desk, StartOf(head).value, Answered(Decide(desk, head), blob))
  {
    var start := StartOf(head).value;
    if start.request == "SYNC" {
      SyncDecided(desk, head, start.tid);
      SyncRefused(desk, start, Rest(head));
    } else if desk.authenticated && start.request == "CONTROL" {
      DecideAsked(desk, head);
      ControlRefused(desk, start, Rest(head), blob);
    }
  }

  lemma TakenEvent(desk: Desk, head: string, text: string)
    requires TakeBody(desk, head, text).Taken?
    ensures exists blob :: TakeBody(desk, head, text).event == Answered(Decide(desk, head), blob)
  {
  }

  // Behind any header that starts with a readable line: 403 for any request but a SYNC as long as the client
  // is not known, 405 for requests that there are not, and so on.
  lemma RefusedIff(desk: Desk, lines: seq<string>, text: string)
    requires Plain(lines) && lines != [] && Started(lines[0]).Some?
    requires Take(desk, Block(lines) + CRLF + text).Taken?
    ensures RefusedRightly(desk, Started(lines[0]).value, Take(desk, Block(lines) + CRLF + text).event)
  {
    var head := Block(lines) + CRLF;
    HeadTaken(desk, lines, text);
    TakenEvent(desk, head, text);
    var blob :| TakeBody(desk, head, text).event == Answered(Decide(desk, head), blob);
    HeadRefused(desk, head, blob);
  }

  // A header that is told to be wrong, and one that ends the dialog
  ghost predicate Wrong(desk: Desk, start: StartLine, lines: seq<string>) {
    && desk.authenticated
    && (|| (start.request == "200" && start.tid in desk.tids && AckOf(lines, 0).Unreadable?)
        || (start.request == "K-ALIVE" && lines != [] && lines[0] != "")
        || (start.request == "CONTROL" && start.tid !in desk.tids
            && Announced(lines).Some? && Announced(lines).value.0 == ""))
  }

  ghost predicate Fatal(desk: Desk, start: StartLine, lines: seq<string>) {
    && start.tid !in desk.tids
    && if start.request == "SYNC" then AllSyncFields(lines, NOTHING).None?
       else desk.authenticated && start.request == "CONTROL" && Announced(lines).None?
  }

  ghost predicate Unwelcome(desk: Desk, start: StartLine, lines: seq<string>) {
    && start.request == "SYNC" && start.tid !in desk.tids && AllSyncFields(lines, NOTHING).Some?
    && var f := AllSyncFields(lines, NOTHING).value;
       !(f.dialog != "" && f.dialog == desk.dialogId && f.keepAlive != "" && f.packages != "")
  }

  ghost predicate ToldRightly(desk: Desk, start: StartLine, lines: seq<string>, e: Event) {
    && (e == Refused(start.tid, 400) <==> Wrong(desk, start, lines))
    && (e == Ended(start.tid, 400) <==> Fatal(desk, start, lines))
    && (e == Ended(start.tid, 481) <==> Unwelcome(desk, start, lines))
    && (e.Ended? ==> e.tid == start.tid && (e.code == 400 || e.code == 481))
  }

  lemma ControlWrong(desk: Desk, start: StartLine, lines: seq<string>, blob: string)
    requires desk.authenticated && start.request == "CONTROL"
    ensures ToldRightly(desk, start, lines, Answered(DecideControl(desk, start.tid, lines), blob))
  {
  }

  lemma SyncWrong(desk: Desk, start: StartLine, lines: seq<string>)
    requires start.request == "SYNC"
    ensures ToldRightly(desk, start, lines, DecideSync(desk, start.tid, lines))
  {
  }

  // Which headers are answered with 400, and which end the dialog with 400 or 481
  lemma HeadWrong(desk: Desk, head: string, blob: string)
    requires StartOf(head).Some?
    ensures ToldRightly(desk, StartOf(head).value, Rest(head), Answered(Decide(desk, head), blob))
  {
    var start := StartOf(head).value;
    if start.request == "SYNC" {
      SyncDecided(desk, head, start.tid);
      SyncWrong(desk, start, Rest(head));
    } else if desk.authenticated && start.request == "CONTROL" {
      DecideAsked(desk, head);
      ControlWrong(desk, start, Rest(head), blob);
    }
  }

  // A stranger becomes known by a SYNC with a new transaction that names the dialog, and by nothing else.
  lemma AdmittedIff(desk: Desk, lines: seq<string>, text: string)
    requires Plain(lines) && lines != [] && Started(lines[0]).Some? && !desk.authenticated
    ensures var start, f := Started(lines[0]).value, AllSyncFields(lines[1..], NOTHING);
            var t := Take(desk, Block(lines) + CRLF + text);
            t.Taken? && (t.desk.authenticated <==>
              && start.request == "SYNC" && start.tid !in desk.tids
              && f.Some? && f.value.dialog != "" && f.value.dialog == desk.dialogId)
  {
    HeadTaken(desk, lines, text);
    SyncFieldsEnd(lines[1..], NOTHING);
    var head := Block(lines) + CRLF;
    if Started(lines[0]).value.request == "SYNC" {
      SyncDecided(desk, head, Started(lines[0]).value.tid);
    } else {
      StrangerDecided(desk, head);
    }
    BodyLeft(desk, head, text);
  }

  // What a known client is for
  predicate Served(e: Event) { e.Control? || e.Acked? || e.Alive? }

  lemma StrangerServed(desk: Desk, text: string)
    requires !desk.authenticated && Take(desk, text).Taken?
    ensures !Served(Take(desk, text).event)
    ensures Take(desk, text).desk.authenticated ==> Take(desk, text).event.Synced? || Closing(Take(desk, text).event)
  {
    var head := CString(text[..Stop(text)]);
    if StartOf(head).Some? {
      if StartOf(head).value.request == "SYNC" {
        SyncDecided(desk, head, StartOf(head).value.tid);
      } else {
        StrangerDecided(desk, head);
      }
    }
  }

  lemma StrangerListens(desk: Desk, text: string, ended: seq<seq<string>>)
    requires !desk.authenticated && Listen(desk, text, ended) != []
    ensures var all, t := Listen(desk, text, ended), Take(Freed(desk, ended), text);
            && t.Taken? && |t.rest| < |text| && all[0] == t.event && !Served(all[0])
            && (|all| > 1 ==>
                  all[1..] == Listen(t.desk, t.rest, Later(ended)) && (t.desk.authenticated ==> all[0].Synced?))
  {
    StrangerServed(Freed(desk, ended), text);
  }

  ghost predicate SyncedBefore(all: seq<Event>, k: nat)
    requires k <= |all|
  {
    exists j :: 0 <= j < k && all[j].Synced?
  }

  lemma SyncedLater(all: seq<Event>, k: nat)
    requires 0 < k < |all| && SyncedBefore(all[1..], k - 1)
    ensures SyncedBefore(all, k)
  {
    var j :| 0 <= j < k - 1 && all[1..][j].Synced?;
    assert all[j + 1].Synced?;
  }

  lemma StrangerTail(desk: Desk, text: string, ended: seq<seq<string>>, k: nat)
    requires !desk.authenticated && k < |Listen(desk, text, ended)| && Served(Listen(desk, text, ended)[k])
    ensures var all, t := Listen(desk, text, ended), Take(Freed(desk, ended), text);
            && 0 < k && t.Taken? && |t.rest| < |text|
            && (all[0].Synced? || (!t.desk.authenticated && all[1..] == Listen(t.desk, t.rest, Later(ended))))
  {
    StrangerListens(desk, text, ended);
  }

  // Whatever bytes come: a client that is not known is not served before a SYNC of its has been accepted.
  lemma {:induction false} SyncComesFirst(desk: Desk, text: string, ended: seq<seq<string>>, k: nat)
    requires !desk.authenticated && k < |Listen(desk, text, ended)| && Served(Listen(desk, text, ended)[k])
    ensures SyncedBefore(Listen(desk, text, ended), k)
    decreases |text|
  {
    var all, t := Listen(desk, text, ended), Take(Freed(desk, ended), text);
    StrangerTail(desk, text, ended, k);
    if !all[0].Synced? {
      assert all[k] == all[1..][k - 1];
      SyncComesFirst(t.desk, t.rest, Later(ended), k - 1);
      SyncedLater(all, k);
    }
  }

  // ---- any number of messages ----

  function PrintAll(ms: seq<Message>): string {
    if ms == [] then [] else Print(ms[0]) + PrintAll(ms[1..])
  }

  // What all of them come out as, one after the other, while transactions end in between
  function ReadAll(desk: Desk, ms: seq<Message>, ended: seq<seq<string>>): seq<Event>
    decreases |ms|
  {
    if ms == [] then []
    else
      var d := Freed(desk, ended);
      [Read(d, ms[0])] + ReadAll(Next(d, ms[0]), ms[1..], Later(ended))
  }

  // and what is known behind them
  function After(desk: Desk, ms: seq<Message>, ended: seq<seq<string>>): Desk
    decreases |ms|
  {
    if ms == [] then desk else After(Next(Freed(desk, ended), ms[0]), ms[1..], Later(ended))
  }

  function Behind(ended: seq<seq<string>>, n: nat): seq<seq<string>> {
    if n == 0 then ended else Behind(Later(ended), n - 1)
  }

  // Every CONTROL is a known client's, with a transaction that is not known when it comes, or has no body; and
  // no SYNC ends the dialog.
  ghost predicate InStep(desk: Desk, ms: seq<Message>, ended: seq<seq<string>>)
    decreases |ms|
  {
    ms == [] ||
    var d := Freed(desk, ended);
    && Printable(ms[0])
    && (BodyStays(d, ms[0]) ==> Body(ms[0]) == "")
    && !Closing(Read(d, ms[0]))
    && InStep(Next(d, ms[0]), ms[1..], Later(ended))
  }

  // Requests have transactions of their own, whatever ends in between.
  ghost predicate Fresh(desk: Desk, ms: seq<Message>) {
    forall i | 0 <= i < |ms| && (ms[i].Ask? || ms[i].Hello?) ::
      Tid(ms[i]) !in desk.tids && forall j | 0 <= j < i :: Tid(ms[j]) != Tid(ms[i])
  }

  ghost predicate AllPrintable(ms: seq<Message>) {
    forall i | 0 <= i < |ms| :: Printable(ms[i])
  }

  ghost predicate NoHello(ms: seq<Message>) {
    forall i | 0 <= i < |ms| :: !ms[i].Hello?
  }

  lemma FreshTail(desk: Desk, ms: seq<Message>, ended: seq<seq<string>>)
    requires ms != [] && Fresh(desk, ms)
    ensures Fresh(Next(Freed(desk, ended), ms[0]), ms[1..])
  {
    var d := Next(Freed(desk, ended), ms[0]);
    forall i | 0 <= i < |ms[1..]| && (ms[1..][i].Ask? || ms[1..][i].Hello?)
      ensures Tid(ms[1..][i]) !in d.tids && forall j | 0 <= j < i :: Tid(ms[1..][j]) != Tid(ms[1..][i])
    {
      assert ms[1..][i] == ms[i + 1];
    }
  }

  lemma {:induction false} FreshInStep(desk: Desk, ms: seq<Message>, ended: seq<seq<string>>)
    requires desk.authenticated && Fresh(desk, ms) && AllPrintable(ms) && NoHello(ms)
    ensures InStep(desk, ms, ended)
    decreases |ms|
  {
    if ms != [] {
      FreshTail(desk, ms, ended);
      FreshInStep(Next(Freed(desk, ended), ms[0]), ms[1..], Later(ended));
    }
  }

  // A SYNC that gets its packages, and names the dialog
  predicate Welcome(desk: Desk, m: Message) {
    m.Hello? && m.dialog == desk.dialogId && Negotiation.Reply(desk.names, Negotiation.Wanted(m.asked)).0
  }

  // So a client that begins with such a SYNC is heard from then on.
  lemma SessionInStep(desk: Desk, ms: seq<Message>, ended: seq<seq<string>>)
    requires ms != [] && Welcome(desk, ms[0]) && Fresh(desk, ms) && AllPrintable(ms) && NoHello(ms[1..])
    ensures InStep(desk, ms, ended) && Read(Freed(desk, ended), ms[0]).Synced?
  {
    FreshTail(desk, ms, ended);
    FreshInStep(Next(Freed(desk, ended), ms[0]), ms[1..], Later(ended));
  }

  // Its answer can be cut in its three lines: the keep-alive in 16 bits, what was asked for, what else there is.
  lemma WelcomeLines(desk: Desk, m: Message) returns (first: string, second: string, rest: string)
    requires Welcome(desk, m) && m.id !in desk.tids && CommaLists.Pieces(desk.names)
    ensures Negotiation.Titled(first, "Packages: ", CommaLists.Join(Negotiation.Wanted(m.asked)))
    ensures Negotiation.Titled(second, "Supported: ", rest)
    ensures Read(desk, m).Synced? && Read(desk, m).tid == m.id
    ensures Lines(Read(desk, m).header) == ["Keep-Alive: " + Decimal(m.keepAlive % 65536), first, second]
  {
    first, second, rest := Negotiation.ReplyLines(desk.names, Negotiation.Wanted(m.asked));
    NegotiatedLines(m.id, m.keepAlive % 65536, first, second);
  }

  // A SYNC whose packages cannot be had is told which there are.
  lemma UnmatchedLines(desk: Desk, m: Message)
    requires m.Hello? && m.dialog == desk.dialogId && m.id !in desk.tids && CommaLists.Pieces(desk.names)
    requires !Negotiation.Reply(desk.names, Negotiation.Wanted(m.asked)).0
    ensures Read(desk, m).Unmatched? && Read(desk, m).tid == m.id
    ensures Lines(Read(desk, m).header) == ["Supported: " + CommaLists.Join(desk.names)]
  {
    var line := Negotiation.RefusalLine(desk.names, Negotiation.Wanted(m.asked));
    LinesStep(line, "");
    assert line + CRLF + "" == line + CRLF && [line] + [] == [line];
  }

  lemma NegotiatedLines(tid: string, k: nat, first: string, second: string)
    requires Free(first, '\r') && Free(second, '\r')
    ensures var e := Negotiated(tid, k, (true, Negotiation.Line(first) + Negotiation.Line(second)));
            e.Synced? && e.tid == tid && Lines(e.header) == ["Keep-Alive: " + Decimal(k), first, second]
  {
    DecimalPlain(k);
    ThreeLines("Keep-Alive: " + Decimal(k), first, second);
  }

  lemma ThreeLines(a: string, b: string, c: string)
    requires Free(a, '\r') && Free(b, '\r') && Free(c, '\r')
    ensures Lines(Negotiation.Line(a) + (Negotiation.Line(b) + Negotiation.Line(c))) == [a, b, c]
  {
    LinesStep(c, "");
    LinesStep(b, c + CRLF);
    LinesStep(a, b + CRLF + (c + CRLF));
    assert c + CRLF + "" == c + CRLF;
    assert [a] + ([b] + ([c] + [])) == [a, b, c];
  }

  lemma ListenTaken(desk: Desk, text: string, ended: seq<seq<string>>, t: Taken)
    requires t.Taken? && Take(Freed(desk, ended), text) == t && !Closing(t.event)
    ensures Listen(desk, text, ended) == [t.event] + Listen(t.desk, t.rest, Later(ended))
  {
  }

  lemma TakeInStep(desk: Desk, m: Message, rest: string)
    requires Printable(m) && (BodyStays(desk, m) ==> Body(m) == "")
    ensures Take(desk, Print(m) + rest) == Taken(Read(desk, m), Next(desk, m), rest)
  {
    TakePrinted(desk, m, rest);
    assert Body(m) == "" ==> Body(m) + rest == rest;
  }

  lemma ListenStep(desk: Desk, m: Message, rest: string, ended: seq<seq<string>>)
    requires Printable(m) && (BodyStays(Freed(desk, ended), m) ==> Body(m) == "")
    requires !Closing(Read(Freed(desk, ended), m))
    ensures var d := Freed(desk, ended);
            Listen(desk, Print(m) + rest, ended) == [Read(d, m)] + Listen(Next(d, m), rest, Later(ended))
  {
    var d := Freed(desk, ended);
    TakeInStep(d, m, rest);
    ListenTaken(desk, Print(m) + rest, ended, Taken(Read(d, m), Next(d, m), rest));
  }

  lemma ReadAllFirst(desk: Desk, ms: seq<Message>, ended: seq<seq<string>>, tail: seq<Event>)
    requires ms != []
    ensures var d := Freed(desk, ended);
            ReadAll(desk, ms, ended) + tail
            == [Read(d, ms[0])] + (ReadAll(Next(d, ms[0]), ms[1..], Later(ended)) + tail)
  {
  }

  lemma PrintAllFirst(ms: seq<Message>, rest: string)
    requires ms != []
    ensures PrintAll(ms) + rest == Print(ms[0]) + (PrintAll(ms[1..]) + rest)
  {
  }

  lemma ListenFirst(desk: Desk, ms: seq<Message>, rest: string, ended: seq<seq<string>>)
    requires ms != [] && InStep(desk, ms, ended)
    ensures var d := Freed(desk, ended);
            Listen(desk, PrintAll(ms) + rest, ended)
            == [Read(d, ms[0])] + Listen(Next(d, ms[0]), PrintAll(ms[1..]) + rest, Later(ended))
  {
    PrintAllFirst(ms, rest);
    ListenStep(desk, ms[0], PrintAll(ms[1..]) + rest, ended);
  }

  lemma BehindFirst(desk: Desk, ms: seq<Message>, ended: seq<seq<string>>)
    requires ms != []
    ensures After(desk, ms, ended) == After(Next(Freed(desk, ended), ms[0]), ms[1..], Later(ended))
    ensures Behind(ended, |ms|) == Behind(Later(ended), |ms[1..]|)
  {
  }

  lemma ListenChain(desk: Desk, ms: seq<Message>, rest: string, ended: seq<seq<string>>)
    requires ms != []
    requires var d, later := Freed(desk, ended), Later(ended);
             var next, after := Next(d, ms[0]), PrintAll(ms[1..]) + rest;
             && Listen(desk, PrintAll(ms) + rest, ended) == [Read(d, ms[0])] + Listen(next, after, later)
             && Listen(next, after, later)
                == ReadAll(next, ms[1..], later) + Listen(After(next, ms[1..], later), rest, Behind(later, |ms[1..]|))
    ensures Listen(desk, PrintAll(ms) + rest, ended)
         == ReadAll(desk, ms, ended) + Listen(After(desk, ms, ended), rest, Behind(ended, |ms|))
  {
    BehindFirst(desk, ms, ended);
    ReadAllFirst(desk, ms, ended, Listen(After(desk, ms, ended), rest, Behind(ended, |ms|)));
  }

  // Reading inverts printing, over any number of messages, whatever follows them and ends in between.
  lemma {:induction false} ListenPrinted(desk: Desk, ms: seq<Message>, rest: string, ended: seq<seq<string>>)
    requires InStep(desk, ms, ended)
    ensures Listen(desk, PrintAll(ms) + rest, ended)
         == ReadAll(desk, ms, ended) + Listen(After(desk, ms, ended), rest, Behind(ended, |ms|))
    decreases |ms|
  {
    if ms == [] {
      assert PrintAll(ms) + rest == rest;
    } else {
      ListenFirst(desk, ms, rest, ended);
      ListenPrinted(Next(Freed(desk, ended), ms[0]), ms[1..], rest, Later(ended));
      ListenChain(desk, ms, rest, ended);
    }
  }

  // A transaction may be used again once it has ended and been freed, and not before.
  lemma ReusedIff(desk: Desk, w: Written, rest: string, ended: seq<seq<string>>)
    requires desk.authenticated && Sendable(w) && w.tid in desk.tids
    ensures var all := Listen(desk, Print(Ask(w)) + rest, ended);
            all != [] && (all[0] == Refused(w.tid, 423) <==> w.tid !in Due(ended))
  {
    var d := Freed(desk, ended);
    TakePrinted(d, Ask(w), rest);
    assert Take(d, Print(Ask(w)) + rest).event == Read(d, Ask(w));
  }

  ghost predicate Supported(desk: Desk, ms: seq<Message>) {
    forall i | 0 <= i < |ms| && ms[i].Ask? ::
      ms[i].w.name in desk.packages && desk.packages[ms[i].w.name] == ms[i].w.mime
  }

  lemma {:induction false} ReadAt(desk: Desk, ms: seq<Message>, ended: seq<seq<string>>, i: nat)
    requires desk.authenticated && Fresh(desk, ms) && Supported(desk, ms) && i < |ms| && ms[i].Ask?
    ensures i < |ReadAll(desk, ms, ended)|
    ensures ReadAll(desk, ms, ended)[i] == Control(ms[i].w.tid, ms[i].w.name, CString(ms[i].w.blob))
    decreases |ms|
  {
    if i > 0 {
      var d := Next(Freed(desk, ended), ms[0]);
      FreshTail(desk, ms, ended);
      assert forall k | 0 <= k < |ms| - 1 :: ms[1..][k] == ms[k + 1];
      ReadAt(d, ms[1..], Later(ended), i - 1);
    }
  }

  // The bodies come back whole exactly if none of them holds a NUL.
  lemma BodiesIff(desk: Desk, ms: seq<Message>, ended: seq<seq<string>>)
    requires desk.authenticated && Fresh(desk, ms) && Supported(desk, ms)
    ensures forall i | 0 <= i < |ms| && ms[i].Ask? :: i < |ReadAll(desk, ms, ended)|
    ensures (forall i | 0 <= i < |ms| && ms[i].Ask? ::
               ReadAll(desk, ms, ended)[i] == Control(ms[i].w.tid, ms[i].w.name, ms[i].w.blob))
       <==> (forall i | 0 <= i < |ms| && ms[i].Ask? :: Free(ms[i].w.blob, NUL))
  {
    forall i | 0 <= i < |ms| && ms[i].Ask?
      ensures i < |ReadAll(desk, ms, ended)|
      ensures ReadAll(desk, ms, ended)[i] == Control(ms[i].w.tid, ms[i].w.name, ms[i].w.blob)
              <==> Free(ms[i].w.blob, NUL)
    {
      ReadAt(desk, ms, ended, i);
      CStringIff(ms[i].w.blob);
    }
  }

  // ---- the same over what the recv calls find, failures among them ----

  datatype Found = Found(event: Event, desk: Desk, arrivals: seq<string>) | Quiet | Gone

  lemma {:induction false} LivePrefix(arrivals: seq<string>)
    ensures Live(arrivals) <= Text(arrivals)
  {
    if arrivals != [] && arrivals[0] != "" { LivePrefix(arrivals[1..]); }
  }

  // The message of a header; a recv that fails in its body is tried again.
  function NextBody(desk: Desk, head: string, arrivals: seq<string>): (r: Found)
    ensures r.Found? ==> |Text(r.arrivals)| <= |Text(arrivals)|
  {
    var d := Decide(desk, head);
    if Length(d) > |Text(arrivals)| then Quiet
    else
      DropText(arrivals, Length(d));
      Found(Answered(d, CString(Text(arrivals)[..Length(d)])), Noted(desk, head), Drop(arrivals, Length(d)))
  }

  // The next message of a connection; a recv that fails in its header loses the connection.
  function TakeNext(desk: Desk, arrivals: seq<string>): (r: Found)
    ensures r.Found? ==> |Text(r.arrivals)| < |Text(arrivals)|
  {
    LivePrefix(arrivals);
    var n := Stop(Live(arrivals));
    if n < 0 then (if Steady(arrivals) then Quiet else Gone)
    else
      DropText(arrivals, n);
      NextBody(desk, CString(Live(arrivals)[..n]), Drop(arrivals, n))
  }

  // All that is heard on a connection
  function Hear(desk: Desk, arrivals: seq<string>, ended: seq<seq<string>>): seq<Event>
    decreases |Text(arrivals)|
  {
    match TakeNext(Freed(desk, ended), arrivals)
    case Quiet => []
    case Gone => []
    case Found(event, desk', arrivals') => [event] + if Closing(event) then [] else Hear(desk', arrivals', Later(ended))
  }

  lemma NextSteady(desk: Desk, arrivals: seq<string>)
    requires Steady(arrivals)
    ensures var t := Take(desk, Text(arrivals));
            match TakeNext(desk, arrivals)
            case Quiet => t == Incomplete
            case Gone => false
            case Found(event, desk', arrivals') => Steady(arrivals') && t == Taken(event, desk', Text(arrivals'))
  {
    SteadyLive(arrivals);
    var n := Stop(Text(arrivals));
    if n >= 0 {
      DropText(arrivals, n);
      var d := Decide(desk, CString(Text(arrivals)[..n]));
      if Length(d) <= |Text(Drop(arrivals, n))| { DropText(Drop(arrivals, n), Length(d)); }
    }
  }

  // Without failures, what is heard depends on the bytes alone, however they are chopped up.
  lemma {:induction false} HearSteady(desk: Desk, arrivals: seq<string>, ended: seq<seq<string>>)
    requires Steady(arrivals)
    ensures Hear(desk, arrivals, ended) == Listen(desk, Text(arrivals), ended)
    decreases |Text(arrivals)|
  {
    NextSteady(Freed(desk, ended), arrivals);
    var t := TakeNext(Freed(desk, ended), arrivals);
    if t.Found? && !Closing(t.event) { HearSteady(t.desk, t.arrivals, Later(ended)); }
  }

  // Printed messages, chopped up in any way, are heard one after the other.
  lemma HearPrinted(desk: Desk, ms: seq<Message>, rest: string, arrivals: seq<string>, ended: seq<seq<string>>)
    requires InStep(desk, ms, ended)
    requires Steady(arrivals) && Text(arrivals) == PrintAll(ms) + rest
    ensures Hear(desk, arrivals, ended)
         == ReadAll(desk, ms, ended) + Listen(After(desk, ms, ended), rest, Behind(ended, |ms|))
  {
    HearSteady(desk, arrivals, ended);
    ListenPrinted(desk, ms, rest, ended);
  }

  lemma HearOn(desk: Desk, arrivals: seq<string>, ended: seq<seq<string>>, all: seq<Event>, events: seq<Event>)
    requires TakeNext(Freed(desk, ended), arrivals).Found? && all == events + Hear(desk, arrivals, ended)
    ensures var t := TakeNext(Freed(desk, ended), arrivals);
            all == events + [t.event] + if Closing(t.event) then [] else Hear(t.desk, t.arrivals, Later(ended))
  {
  }

  datatype Heard = Heard(event: Event) | Silent | NoMore

  function HeardOf(t: Found): Heard {
    match t
    case Found(event, _, _) => Heard(event)
    case Quiet => Silent
    case Gone => NoMore
  }

  // The stack and one of its connections
  class Connection {
    const client: Client
    var authenticated: bool
    var tids: set<string>
    const packages: map<string, string>
    const dialogId: string
    const supportedPackages: string
    ghost const names: seq<string>

    ghost function State(): Desk reads this {
      Desk(authenticated, tids, packages, dialogId, names)
    }

    // The names of the supported packages are a comma list.
    ghost predicate Offers() reads this {
      CommaLists.Pieces(names) && supportedPackages == CommaLists.Join(names)
    }

    ghost function Coming(): seq<string> reads this, client.socket {
      client.socket.arrivals
    }

    ghost predicate Valid() reads this, client {
      client.Valid() && Offers()
    }

    constructor (client: Client, authenticated: bool, tids: set<string>, packages: map<string, string>,
                 dialogId: string, supportedPackages: string, ghost names: seq<string>)
      requires client.Valid() && CommaLists.Pieces(names) && supportedPackages == CommaLists.Join(names)
      ensures Valid() && State() == Desk(authenticated, tids, packages, dialogId, names) && this.client == client
    {
      this.client := client;
      this.authenticated := authenticated;
      this.tids := tids;
      this.packages := packages;
      this.dialogId := dialogId;
      this.supportedPackages := supportedPackages;
      this.names := names;
    }

    // The SYNC branch: the dialog, the keep-alive, the packages
    method OnSync(tid: string, lines: seq<string>) returns (e: Event)
      requires Offers()
      modifies this`authenticated
      ensures e == DecideSync(old(State()), tid, lines)
      ensures authenticated == (old(authenticated) || Admits(old(State()), StartLine("SYNC", tid), lines))
    {
      if tid in tids {
        return Refused(tid, 423);
      }
      var ok, dialog, keepAlive, packages := ReadSyncFields(lines);
      if !ok {
        return Ended(tid, 400);
      }
      if dialog == "" {
        return Ended(tid, 481);
      }
      if dialogId != dialog {
        return Ended(tid, 481);
      }
      authenticated := true;
      if keepAlive == "" {
        return Ended(tid, 481);
      }
      SyncProper(lines, NOTHING);
      var k := Number(keepAlive) % 65536;
      if packages == "" {
        return Ended(tid, 481);
      }
      var matched, reply := Negotiation.MatchPackages(packages, supportedPackages, names);
      e := if matched then Synced(tid, Negotiation.Line("Keep-Alive: " + Decimal(k)) + reply)
           else Unmatched(tid, reply);
    }

    // The CONTROL branch, up to the reading of the body
    method OnControl(tid: string, lines: seq<string>) returns (d: Decision)
      ensures d == DecideControl(State(), tid, lines)
    {
      if tid in tids {
        return Answer(Refused(tid, 423));
      }
      var ok, package, content, mime := ReadFields(lines);
      if !ok {
        return Answer(Ended(tid, 400));
      }
      if package == "" {
        return Answer(Refused(tid, 400));
      }
      var fail := package !in packages || packages[package] != mime;
      FieldsProper(lines, Fields("", "", ""));
      d := Fetch(tid, package, !fail, Number(content));
    }

    // The Seq lines of a 200
    method ReadAcks(lines: seq<string>) returns (acks: Acks)
      ensures acks == AckOf(lines, 0)
    {
      var seqno, a := 0, 0;
      while a < |lines| && lines[a] != ""
        invariant a <= |lines|
        invariant AckOf(lines[a..], seqno) == AckOf(lines, 0)
      {
        assert lines[a..][1..] == lines[a + 1..];
        var v := Following(lines[a], "Seq: ");
        if v.None? || !Digits(v.value) {
          return Unreadable;
        }
        seqno := Number(v.value);
        a := a + 1;
      }
      acks := Acks(seqno);
    }

    // The branch of a 200
    method OnAck(tid: string, lines: seq<string>) returns (e: Event)
      ensures e == if tid !in tids then Refused(tid, 481)
                   else match AckOf(lines, 0)
                     case Acks(seqno) => Acked(tid, seqno)
                     case Unreadable => Refused(tid, 400)
    {
      if tid !in tids {
        return Refused(tid, 481);
      }
      var acks := ReadAcks(lines);
      e := if acks.Unreadable? then Refused(tid, 400) else Acked(tid, acks.seqno);
    }

    // The branches by request
    method OnRequest(start: StartLine, lines: seq<string>) returns (d: Decision)
      requires Offers()
      modifies this`authenticated
      ensures d == DecideRequest(old(State()), start, lines)
      ensures authenticated == (old(authenticated) || Admits(old(State()), start, lines))
    {
      var request, tid := start.request, start.tid;
      if request != "SYNC" && !authenticated {
        return Answer(Refused(tid, 403));
      }
      if request == "200" {
        var e := OnAck(tid, lines);
        return Answer(e);
      }
      if request == "K-ALIVE" {
        return Answer(if lines == [] || lines[0] == "" then Alive(tid) else Refused(tid, 400));
      }
      if request == "SYNC" {
        var e := OnSync(tid, lines);
        return Answer(e);
      }
      if request == "CONTROL" {
        d := OnControl(tid, lines);
        return;
      }
      return Answer(Refused(tid, 405));
    }

    // What becomes of a header, before any body is read
    method OnHeader(head: string) returns (d: Decision)
      requires Offers()
      modifies this`tids, this`authenticated
      ensures d == Decide(old(State()), head) && State() == Noted(old(State()), head)
    {
      var start := StartOf(head);
      if start.None? {
        return Answer(Ignored);
      }
      d := OnRequest(start.value, Rest(head));
      tids := tids + {start.value.tid};
    }

    // Reads the body, if one is asked for.
    method OnBody(len: nat) returns (body: Outcome)
      modifies client.socket
      ensures body.Got? <==> len <= |Text(old(Coming()))|
      ensures body.Got? ==> body.text == CString(Text(old(Coming()))[..len]) && Coming() == Drop(old(Coming()), len)
    {
      if len == 0 {
        return Got("");
      }
      body := client.GetContent(len);
    }

    // Handles a header and reads the body that it asks for.
    method OnMessage(head: string) returns (h: Heard)
      requires Offers()
      modifies this`tids, this`authenticated, client.socket
      ensures h == HeardOf(NextBody(old(State()), head, old(Coming())))
      ensures h.Heard? ==> NextBody(old(State()), head, old(Coming())) == Found(h.event, State(), Coming())
    {
      var d := OnHeader(head);
      var body := OnBody(Length(d));
      h := if body.Got? then Heard(Answered(d, body.text)) else Silent;
    }

    // Reads one message.
    method Pass() returns (h: Heard)
      requires Valid()
      modifies this`tids, this`authenticated, client, client.message, client.socket
      ensures Valid()
      ensures client.message == old(client.message) || fresh(client.message)
      ensures h == HeardOf(TakeNext(old(State()), old(Coming())))
      ensures h.Heard? ==> TakeNext(old(State()), old(Coming())) == Found(h.event, State(), Coming())
    {
      var header := client.ReadHeader();
      if header.Lost? {
        return NoMore;
      }
      if header.Waiting? {
        return Silent;
      }
      h := OnMessage(header.text);
    }

    // Frees the transactions of a list.
    method FreeEnded(list: seq<string>)
      modifies this`tids
      ensures State() == old(State()).(tids := Without(old(tids), list))
    {
      var todo := list;
      while todo != []
        invariant |todo| <= |list| && todo == list[|list| - |todo|..]
        invariant tids == Without(old(tids), list[..|list| - |todo|])
      {
        assert list[..|list| - |todo| + 1] == list[..|list| - |todo|] + [todo[0]];
        tids := tids - {todo[0]};
        todo := todo[1..];
      }
      assert list[..|list|] == list;
    }

    // Goes on until nothing is left to read or the connection is lost. The lists are what has ended before
    // each message.
    method Serve(lists: seq<seq<string>>) returns (events: seq<Event>)
      requires Valid()
      modifies this`tids, this`authenticated, client, client.message, client.socket
      ensures events == Hear(old(State()), old(Coming()), lists)
    {
      events := [];
      var ended := lists;
      ghost var all := Hear(State(), Coming(), ended);
      while true
        invariant Valid()
        invariant client.message == old(client.message) || fresh(client.message)
        invariant all == events + Hear(State(), Coming(), ended)
        decreases |Text(Coming())|
      {
        ghost var desk, arrivals := State(), Coming();
        FreeEnded(Due(ended));
        var h := Pass();
        if !h.Heard? {
          return;
        }
        HearOn(desk, arrivals, ended, all, events);
        events := events + [h.event];
        if Closing(h.event) {
          return;
        }
        ended := Later(ended);
      }
    }
  }
}
