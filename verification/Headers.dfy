// The header of a CFW message: how it is cut in lines, decided upon, and printed.
module Headers {
  import opened Options
  import opened Trailer
  import opened Framing

  const CRLF := "\r\n"

  predicate IsDigit(c: char) { '0' <= c <= '9' }
  predicate IsWord(c: char) { IsDigit(c) || 'a' <= c <= 'z' || 'A' <= c <= 'Z' || c == '_' }
  predicate IsSpace(c: char) { c == ' ' || '\t' <= c <= '\r' }

  predicate All(s: string, p: char -> bool) {
    s == "" || (p(s[0]) && All(s[1..], p))
  }

  lemma {:induction false} AllIff(s: string, p: char -> bool)
    ensures All(s, p) <==> forall i | 0 <= i < |s| :: p(s[i])
  {
    if s != "" {
      AllIff(s[1..], p);
      if All(s, p) {
        forall i | 0 <= i < |s| ensures p(s[i]) {
          if i > 0 { assert s[1..][i - 1] == s[i]; }
        }
      }
    }
  }

  lemma {:induction false} AllSplit(s: string, t: string, p: char -> bool)
    ensures All(s + t, p) <==> All(s, p) && All(t, p)
  {
    if s == "" {
      assert s + t == t;
    } else {
      assert (s + t)[1..] == s[1..] + t;
      AllSplit(s[1..], t, p);
    }
  }

  predicate Digits(s: string) { s != "" && All(s, IsDigit) }
  predicate Word(s: string) { s != "" && All(s, IsWord) }
  predicate NonDigits(s: string) { s != "" && All(s, c => !IsDigit(c)) }
  predicate NonSpaces(s: string) { s != "" && All(s, c => !IsSpace(c)) }

  // The comment after an error code: words, each after one space
  predicate Comment(s: string) {
    s == "" || (|s| > 1 && IsSpace(s[0]) && !IsSpace(s[1]) && SpacedOut(s[1..]))
  }

  // No two spaces in a row
  predicate SpacedOut(s: string) {
    |s| < 2 || (!(IsSpace(s[0]) && IsSpace(s[1])) && SpacedOut(s[1..]))
  }

  // A comment is nothing, or begins with white space, goes on behind it, and has no two of it in a row.
  lemma CommentIff(s: string)
    ensures Comment(s) <==>
            || s == ""
            || (|s| > 1 && IsSpace(s[0]) && forall i | 0 <= i < |s| - 1 :: !(IsSpace(s[i]) && IsSpace(s[i + 1])))
  {
    if |s| > 1 {
      SpacedOutIff(s[1..]);
      forall i | 0 < i < |s| - 1 ensures s[i] == s[1..][i - 1] && s[i + 1] == s[1..][i] { }
      if forall i | 0 <= i < |s[1..]| - 1 :: !(IsSpace(s[1..][i]) && IsSpace(s[1..][i + 1])) {
        forall i | 0 < i < |s| - 1 ensures !(IsSpace(s[i]) && IsSpace(s[i + 1])) {
          assert !(IsSpace(s[1..][i - 1]) && IsSpace(s[1..][i - 1 + 1]));
        }
      }
    }
  }

  lemma {:induction false} SpacedOutIff(s: string)
    ensures SpacedOut(s) <==> forall i | 0 <= i < |s| - 1 :: !(IsSpace(s[i]) && IsSpace(s[i + 1]))
  {
    if |s| >= 2 {
      SpacedOutIff(s[1..]);
      if SpacedOut(s) {
        forall i | 0 <= i < |s| - 1 ensures !(IsSpace(s[i]) && IsSpace(s[i + 1])) {
          if i > 0 { assert s[i] == s[1..][i - 1] && s[i + 1] == s[1..][i - 1 + 1]; }
        }
      }
      if forall i | 0 <= i < |s| - 1 :: !(IsSpace(s[i]) && IsSpace(s[i + 1])) {
        forall i | 0 <= i < |s[1..]| - 1 ensures !(IsSpace(s[1..][i]) && IsSpace(s[1..][i + 1])) {
          assert !(IsSpace(s[i + 1]) && IsSpace(s[i + 1 + 1]));
        }
      }
    }
  }

  function Upper(c: char): char {
    if 'a' <= c <= 'z' then ((c as int) - 32) as char else c
  }

  function Uppered(s: string): (r: string)
    ensures |r| == |s|
  {
    seq(|s|, i requires 0 <= i < |s| => Upper(s[i]))
  }

  // What follows a prefix, in any case
  function Following(line: string, prefix: string): Option<string> {
    if |line| >= |prefix| && Uppered(line[..|prefix|]) == Uppered(prefix) then Some(line[|prefix|..]) else None
  }

  // The same character, but for the case of a letter
  predicate SameLetter(a: char, b: char) {
    || a == b
    || ('a' <= a <= 'z' && b as int + 32 == a as int)
    || ('a' <= b <= 'z' && a as int + 32 == b as int)
  }

  predicate SameText(s: string, t: string) {
    |s| == |t| && forall i | 0 <= i < |s| :: SameLetter(s[i], t[i])
  }

  lemma SameTextIff(s: string, t: string)
    ensures Uppered(s) == Uppered(t) <==> SameText(s, t)
  {
    if Uppered(s) == Uppered(t) {
      forall i | 0 <= i < |s| ensures SameLetter(s[i], t[i]) {
        assert Uppered(s)[i] == Uppered(t)[i];
      }
    }
    if SameText(s, t) {
      forall i | 0 <= i < |s| ensures Uppered(s)[i] == Uppered(t)[i] { assert SameLetter(s[i], t[i]); }
    }
  }

  // A line is read as a prefix and a value exactly if it is the prefix, in any case, and that value behind it.
  lemma FollowingIff(line: string, prefix: string, v: string)
    ensures Following(line, prefix) == Some(v) <==> exists p :: SameText(p, prefix) && line == p + v
  {
    if Following(line, prefix) == Some(v) {
      SameTextIff(line[..|prefix|], prefix);
      assert line == line[..|prefix|] + v;
    }
    if p :| SameText(p, prefix) && line == p + v {
      SameTextIff(p, prefix);
      assert line[..|prefix|] == p && line[|prefix|..] == v;
    }
  }

  // The value of a decimal string
  function Number(s: string): (n: nat)
    requires All(s, IsDigit)
    decreases |s|
  {
    if s == [] then 0
    else
      AllSplit(s[..|s| - 1], s[|s| - 1..], IsDigit);
      assert s == s[..|s| - 1] + s[|s| - 1..];
      10 * Number(s[..|s| - 1]) + (s[|s| - 1] as int - '0' as int)
  }

  // The digits count tenfold from the right.
  lemma NumberAppend(s: string, d: nat)
    requires All(s, IsDigit) && d < 10
    ensures All(s + ["0123456789"[d]], IsDigit) && Number(s + ["0123456789"[d]]) == 10 * Number(s) + d
  {
    var c := "0123456789"[d];
    AllSplit(s, [c], IsDigit);
    assert c == ('0' as int + d) as char;
    assert (s + [c])[..|s|] == s;
  }

  // A decimal number as it is printed
  function Decimal(n: nat): (s: string)
    ensures Digits(s)
  {
    if n < 10 then [(n + '0' as int) as char]
    else
      AllSplit(Decimal(n / 10), [(n % 10 + '0' as int) as char], IsDigit);
      Decimal(n / 10) + [(n % 10 + '0' as int) as char]
  }

  lemma {:induction false} NumberOfDecimal(n: nat)
    ensures Number(Decimal(n)) == n
  {
    if n < 10 {
      assert Decimal(n)[..0] == [];
    } else {
      var s, c := Decimal(n / 10), (n % 10 + '0' as int) as char;
      assert Decimal(n)[..|s|] == s && Decimal(n)[|s|] == c;
      NumberOfDecimal(n / 10);
    }
  }

  // Where the first CR LF of a text is, or its length
  function LineEnd(s: string): (n: nat)
    ensures n <= |s|
    ensures n < |s| ==> n + 2 <= |s|
  {
    if s == [] then 0 else if |s| > 1 && s[..2] == CRLF then 0 else 1 + LineEnd(s[1..])
  }

  // A text cut at each CR LF
  function Lines(s: string): seq<string>
    decreases |s|
  {
    if s == [] then []
    else var n := LineEnd(s);
      if n == |s| then [s] else [s[..n]] + Lines(s[n + 2..])
  }

  // Lines, each ended by CR LF
  function Block(lines: seq<string>): string {
    if lines == [] then [] else lines[0] + CRLF + Block(lines[1..])
  }

  predicate Plain(lines: seq<string>) {
    forall i | 0 <= i < |lines| :: lines[i] != "" && Free(lines[i], '\r') && Free(lines[i], NUL)
  }

  lemma {:induction false} LineEndPlain(a: string, rest: string)
    requires Free(a, '\r')
    ensures LineEnd(a + CRLF + rest) == |a|
  {
    var s := a + CRLF + rest;
    if a == [] {
      assert s[..2] == CRLF;
    } else {
      assert s[0] == a[0] && s[..2][0] == a[0] && s[1..] == a[1..] + CRLF + rest;
      LineEndPlain(a[1..], rest);
    }
  }

  lemma LinesStep(a: string, rest: string)
    requires Free(a, '\r')
    ensures Lines(a + CRLF + rest) == [a] + Lines(rest)
  {
    LineEndPlain(a, rest);
    assert (a + CRLF + rest)[..|a|] == a && (a + CRLF + rest)[|a| + 2..] == rest;
  }

  lemma LinesOfCrlf()
    ensures Lines(Block([]) + CRLF) == [] + [""]
  {
    LinesStep("", "");
    assert Block([]) + CRLF == "" + CRLF + "";
  }

  lemma PlainFirst(lines: seq<string>)
    requires Plain(lines) && lines != []
    ensures lines[0] != "" && Free(lines[0], '\r') && Plain(lines[1..])
    ensures Block(lines) + CRLF == lines[0] + CRLF + (Block(lines[1..]) + CRLF)
    ensures |Block(lines)| == |lines[0]| + 2 + |Block(lines[1..])|
    ensures Block(lines)[..|lines[0]|] == lines[0] && Block(lines)[|lines[0]|..|lines[0]| + 2] == CRLF
    ensures Block(lines)[|lines[0]| + 2..] == Block(lines[1..])
  {
  }

  // Cutting undoes printing.
  lemma {:induction false} LinesOfBlock(lines: seq<string>)
    requires Plain(lines)
    ensures Lines(Block(lines) + CRLF) == lines + [""]
  {
    if lines == [] {
      LinesOfCrlf();
    } else {
      PlainFirst(lines);
      LinesStep(lines[0], Block(lines[1..]) + CRLF);
      LinesOfBlock(lines[1..]);
      assert lines + [""] == [lines[0]] + (lines[1..] + [""]);
    }
  }

  lemma {:induction false} BlockFree(lines: seq<string>)
    requires Plain(lines)
    ensures Free(Block(lines), NUL)
  {
    if lines != [] { BlockFree(lines[1..]); }
  }

  // Reading on over one line
  lemma {:induction false} LineUnfinished(s: string, p: nat, a: string, i: nat)
    requires Unfinished(s, p, 0) || Unfinished(s, p, 2)
    requires i <= |a| && a != "" && Free(a, '\r') && p + |a| <= |s| && s[p..p + |a|] == a
    ensures Unfinished(s, p + i, if i == 0 then Trail(s[..p]) else 0)
  {
    if i > 0 {
      LineUnfinished(s, p, a, i - 1);
      assert s[p + (i - 1)] == s[p..p + |a|][i - 1] == a[i - 1];
      UnfinishedStep(s, p + (i - 1), Trail(s[..p + (i - 1)]));
    }
  }

  lemma CrlfUnfinished(s: string, p: nat, t: nat)
    requires Unfinished(s, p, t) && (t == 0 || t == 2)
    requires p + 2 <= |s| && s[p..p + 2] == CRLF
    ensures Unfinished(s, p + 2, t + 2)
  {
    assert s[p] == s[p..p + 2][0] && s[p + 1] == s[p..p + 2][1];
    UnfinishedStep(s, p, t);
    UnfinishedStep(s, p + 1, t + 1);
  }

  lemma Part(s: string, p: nat, b: string, i: nat, j: nat)
    requires p + |b| <= |s| && s[p..p + |b|] == b && i <= j <= |b|
    ensures s[p + i..p + j] == b[i..j]
  {
    forall k | i <= k < j ensures s[p + k] == b[k] {
      assert s[p..p + |b|][k] == s[p + k];
    }
    assert s[p + i..p + j] == b[i..j];
  }

  lemma OverLine(s: string, p: nat, a: string)
    requires Unfinished(s, p, 0) || Unfinished(s, p, 2)
    requires a != "" && Free(a, '\r') && p + |a| + 2 <= |s|
    requires s[p..p + |a|] == a && s[p + |a|..p + |a| + 2] == CRLF
    ensures Unfinished(s, p + |a| + 2, 2)
  {
    LineUnfinished(s, p, a, |a|);
    CrlfUnfinished(s, p + |a|, 0);
  }

  lemma {:induction false} BlockUnfinished(s: string, p: nat, lines: seq<string>)
    requires Plain(lines) && (Unfinished(s, p, 2) || (Unfinished(s, p, 0) && lines != []))
    requires p + |Block(lines)| <= |s| && s[p..p + |Block(lines)|] == Block(lines)
    ensures Unfinished(s, p + |Block(lines)|, 2)
    decreases |lines|
  {
    if lines != [] {
      var a, b := lines[0], Block(lines);
      var n := |a|;
      PlainFirst(lines);
      Part(s, p, b, 0, n);
      Part(s, p, b, n, n + 2);
      Part(s, p, b, n + 2, |b|);
      OverLine(s, p, a);
      BlockUnfinished(s, p + n + 2, lines[1..]);
    }
  }

  // The reader stops where the printed header ends, whatever follows.
  lemma BlockStops(lines: seq<string>, rest: string)
    requires Plain(lines) && lines != []
    ensures Stop(Block(lines) + CRLF + rest) == |Block(lines)| + 2
  {
    var s, n := Block(lines) + CRLF + rest, |Block(lines)|;
    assert s[..0] == [];
    assert s[0..n] == Block(lines);
    BlockUnfinished(s, 0, lines);
    assert s[n..n + 2] == CRLF;
    CrlfUnfinished(s, n, 2);
    Finished(s, n + 2);
  }

  // How far the word characters at the start of a line go
  function WordEnd(s: string): (n: nat)
    ensures n <= |s|
  {
    if s == [] || !IsWord(s[0]) then 0 else 1 + WordEnd(s[1..])
  }

  function DigitsEnd(s: string): (n: nat)
    ensures n <= |s|
    ensures forall i | 0 <= i < n :: IsDigit(s[i])
  {
    if s == [] || !IsDigit(s[0]) then 0 else 1 + DigitsEnd(s[1..])
  }

  datatype StartLine = StartLine(request: string, tid: string)

  // The start line: a directive without digits, or a status code with its comment
  function Started(line: string): Option<StartLine> {
    match Following(line, "CFW ")
    case None => None
    case Some(s) =>
      var k := WordEnd(s);
      if k == 0 || k == |s| || s[k] != ' ' then None
      else Directed(s[k + 1..], s[..k])
  }

  // A directive without digits, or a status code
  function Directed(request: string, tid: string): Option<StartLine> {
    var d := DigitsEnd(request);
    if NonDigits(request) then Some(StartLine(Uppered(request), tid))
    else if d > 0 && Comment(request[d..]) then Some(StartLine(request[..d], tid))
    else None
  }

  // CFW, in any case, a space, a transaction, a space, and something that is read as the request
  ghost predicate Splits(line: string, start: StartLine, p: string, tail: string) {
    && line == p + start.tid + tail && SameText(p, "CFW ") && Word(start.tid)
    && tail != "" && tail[0] == ' ' && Directed(tail[1..], start.tid) == Some(start)
  }

  lemma StartedIff(line: string, start: StartLine)
    ensures Started(line) == Some(start) <==> exists p, tail :: Splits(line, start, p, tail)
  {
    if Started(line) == Some(start) {
      StartedSplits(line, start);
    }
    if p, tail :| Splits(line, start, p, tail) {
      StartedJoins(line, start, p, tail);
    }
  }

  lemma StartedJoins(line: string, start: StartLine, p: string, tail: string)
    requires Splits(line, start, p, tail)
    ensures Started(line) == Some(start)
  {
    var s := start.tid + tail;
    assert line == p + s;
    FollowingIff(line, "CFW ", s);
    WordEndIs(start.tid, tail);
    assert s[|start.tid|] == ' ' && s[|start.tid| + 1..] == tail[1..] && s[..|start.tid|] == start.tid;
  }

  lemma StartedSplits(line: string, start: StartLine)
    requires Started(line) == Some(start)
    ensures exists p, tail :: Splits(line, start, p, tail)
  {
    var s := Following(line, "CFW ").value;
    FollowingIff(line, "CFW ", s);
    var p :| SameText(p, "CFW ") && line == p + s;
    var k := WordEnd(s);
    WordEndWords(s);
    assert s[k..][1..] == s[k + 1..];
    assert line == p + s[..k] + s[k..];
    assert Splits(line, start, p, s[k..]);
  }

  lemma {:induction false} WordEndWords(s: string)
    ensures All(s[..WordEnd(s)], IsWord)
  {
    if WordEnd(s) > 0 {
      WordEndWords(s[1..]);
      assert s[..WordEnd(s)][1..] == s[1..][..WordEnd(s[1..])];
    }
  }

  // A request without digits is read in upper case; one that begins with digits as these, if a comment is all
  // that follows them.
  lemma DirectedIff(request: string, tid: string, start: StartLine)
    ensures Directed(request, tid) == Some(start) <==>
            && start.tid == tid
            && ((NonDigits(request) && SameText(start.request, request) && Uppered(start.request) == start.request)
                || (exists comment :: request == start.request + comment && Digits(start.request) && Comment(comment)))
  {
    if NonDigits(request) {
      SameTextIff(start.request, request);
      SameTextIff(Uppered(request), request);
      UpperedTwice(request);
    } else if Directed(request, tid) == Some(start) {
      var d := DigitsEnd(request);
      AllIff(request[..d], IsDigit);
      assert request == request[..d] + request[d..];
    }
    if comment :| request == start.request + comment && Digits(start.request) && Comment(comment) {
      CodeDirected(request, tid, start.request, comment);
    }
  }

  lemma CodeDirected(request: string, tid: string, code: string, comment: string)
    requires request == code + comment && Digits(code) && Comment(comment)
    ensures !NonDigits(request) && Directed(request, tid) == Some(StartLine(code, tid))
  {
    DigitsEndIs(code, comment);
    AllIff(code, IsDigit);
    AllIff(request, c => !IsDigit(c));
    assert request[0] == code[0];
    assert request[..|code|] == code && request[|code|..] == comment;
  }

  lemma UpperedTwice(s: string)
    ensures Uppered(Uppered(s)) == Uppered(s)
  {
  }

  lemma {:induction false} DigitsEndIs(a: string, rest: string)
    requires All(a, IsDigit) && (rest == "" || !IsDigit(rest[0]))
    ensures DigitsEnd(a + rest) == |a|
  {
    if a == [] {
      assert a + rest == rest;
    } else {
      assert (a + rest)[0] == a[0] && (a + rest)[1..] == a[1..] + rest;
      DigitsEndIs(a[1..], rest);
    }
  }

  // The name in a Control-Package line, its version cut off
  function PackageName(v: string): Option<string> {
    if NonDigits(v) then Some(v)
    else if |v| > 4 && Version(v[|v| - 4..]) && NonDigits(v[..|v| - 4]) then Some(v[..|v| - 4])
    else None
  }

  predicate Version(v: string) {
    |v| == 4 && v[0] == '/' && IsDigit(v[1]) && v[2] == '.' && IsDigit(v[3])
  }

  // A value names a package exactly if it is the name, without digits, or the name and a version.
  lemma PackageNameIff(v: string, name: string)
    ensures PackageName(v) == Some(name) <==>
            NonDigits(name) && (v == name || exists d, e :: v == name + ['/', d, '.', e] && IsDigit(d) && IsDigit(e))
  {
    if PackageName(v) == Some(name) && v != name {
      var n := |v| - 4;
      assert Version(v[n..]) && v == v[..n] + ['/', v[n..][1], '.', v[n..][3]];
    }
    if d, e :| v == name + ['/', d, '.', e] && IsDigit(d) && IsDigit(e) && NonDigits(name) {
      assert v[|name|..] == ['/', d, '.', e] && v[..|name|] == name;
      AllIff(v, c => !IsDigit(c));
      assert v[|name| + 1] == d;
    }
  }

  datatype Fields = Fields(package: string, content: string, mime: string)

  ghost predicate Proper(f: Fields) { f.content == "" || Digits(f.content) }

  // One header line of a CONTROL
  function Field(line: string, f: Fields): Option<Fields> {
    match Following(line, "Content-Length: ")
    case Some(v) => if Digits(v) then Some(f.(content := v)) else None
    case None =>
      match Following(line, "Content-Type: ")
      case Some(v) => if NonSpaces(v) then Some(f.(mime := v)) else None
      case None =>
        match Following(line, "Control-Package: ")
        case Some(v) => (match PackageName(v) case Some(name) => Some(f.(package := name)) case None => None)
        case None => None
  }

  // A line is read as one of three, each with a value of its kind, and as nothing else.
  lemma FieldIff(line: string, f: Fields, g: Fields)
    ensures Field(line, f) == Some(g) <==>
            || (exists v :: Following(line, "Content-Length: ") == Some(v) && Digits(v) && g == f.(content := v))
            || (exists v :: Following(line, "Content-Type: ") == Some(v) && NonSpaces(v) && g == f.(mime := v))
            || (exists v, name :: Following(line, "Control-Package: ") == Some(v) && PackageName(v) == Some(name)
                                  && g == f.(package := name))
  {
    Apart(line, "Content-Length: ", "Content-Type: ", 8);
    Apart(line, "Content-Length: ", "Control-Package: ", 4);
    Apart(line, "Content-Type: ", "Control-Package: ", 4);
  }

  // A line does not begin in two ways.
  lemma Apart(line: string, p: string, q: string, i: nat)
    requires i < |p| && i < |q| && Upper(p[i]) != Upper(q[i])
    ensures Following(line, p).None? || Following(line, q).None?
  {
    if |line| >= |p| && |line| >= |q| {
      assert Uppered(line[..|p|])[i] == Upper(line[i]) == Uppered(line[..|q|])[i];
      assert Uppered(p)[i] != Uppered(q)[i];
    }
  }

  // All the lines up to an empty one
  function AllFields(lines: seq<string>, f: Fields): Option<Fields> {
    if lines == [] || lines[0] == "" then Some(f)
    else
      match Field(lines[0], f)
      case Some(g) => AllFields(lines[1..], g)
      case None => None
  }

  lemma {:induction false} FieldsProper(lines: seq<string>, f: Fields)
    requires Proper(f) && AllFields(lines, f).Some?
    ensures Proper(AllFields(lines, f).value)
  {
    if lines != [] && lines[0] != "" {
      FieldsProper(lines[1..], Field(lines[0], f).value);
    }
  }

  // The loop over the lines of a CONTROL. It leaves at the first line it cannot read.
  method ReadFields(lines: seq<string>) returns (ok: bool, package: string, content: string, mime: string)
    ensures var all := AllFields(lines, Fields("", "", ""));
            ok == all.Some? && (ok ==> all.value == Fields(package, content, mime))
  {
    package, content, mime := "", "", "";
    var a := 0;
    while a < |lines| && lines[a] != ""
      invariant a <= |lines|
      invariant AllFields(lines[a..], Fields(package, content, mime)) == AllFields(lines, Fields("", "", ""))
    {
      var f := Field(lines[a], Fields(package, content, mime));
      assert lines[a..][1..] == lines[a + 1..];
      if f.None? {
        return false, package, content, mime;
      }
      package, content, mime := f.value.package, f.value.content, f.value.mime;
      a := a + 1;
    }
    ok := true;
  }

  // The lines of a SYNC
  datatype SyncFields = SyncFields(dialog: string, keepAlive: string, packages: string)

  const NOTHING := SyncFields("", "", "")

  ghost predicate ProperSync(f: SyncFields) { f.keepAlive == "" || Digits(f.keepAlive) }

  function SyncField(line: string, f: SyncFields): Option<SyncFields> {
    match Following(line, "Dialog-ID: ")
    case Some(v) => if NonSpaces(v) then Some(f.(dialog := v)) else None
    case None =>
      match Following(line, "Keep-Alive: ")
      case Some(v) => if Digits(v) then Some(f.(keepAlive := v)) else None
      case None =>
        match Following(line, "Packages: ")
        case Some(v) => if NonSpaces(v) then Some(f.(packages := v)) else None
        case None => None
  }

  lemma SyncFieldIff(line: string, f: SyncFields, g: SyncFields)
    ensures SyncField(line, f) == Some(g) <==>
            || (exists v :: Following(line, "Dialog-ID: ") == Some(v) && NonSpaces(v) && g == f.(dialog := v))
            || (exists v :: Following(line, "Keep-Alive: ") == Some(v) && Digits(v) && g == f.(keepAlive := v))
            || (exists v :: Following(line, "Packages: ") == Some(v) && NonSpaces(v) && g == f.(packages := v))
  {
    Apart(line, "Dialog-ID: ", "Keep-Alive: ", 0);
    Apart(line, "Dialog-ID: ", "Packages: ", 0);
    Apart(line, "Keep-Alive: ", "Packages: ", 0);
  }

  function AllSyncFields(lines: seq<string>, f: SyncFields): Option<SyncFields> {
    if lines == [] || lines[0] == "" then Some(f)
    else
      match SyncField(lines[0], f)
      case Some(g) => AllSyncFields(lines[1..], g)
      case None => None
  }

  lemma {:induction false} SyncProper(lines: seq<string>, f: SyncFields)
    requires ProperSync(f) && AllSyncFields(lines, f).Some?
    ensures ProperSync(AllSyncFields(lines, f).value)
  {
    if lines != [] && lines[0] != "" { SyncProper(lines[1..], SyncField(lines[0], f).value); }
  }

  // The loop over the lines of a SYNC
  method ReadSyncFields(lines: seq<string>) returns (ok: bool, dialog: string, keepAlive: string, packages: string)
    ensures var all := AllSyncFields(lines, NOTHING);
            ok == all.Some? && (ok ==> all.value == SyncFields(dialog, keepAlive, packages))
  {
    dialog, keepAlive, packages := "", "", "";
    var a := 0;
    while a < |lines| && lines[a] != ""
      invariant a <= |lines|
      invariant AllSyncFields(lines[a..], SyncFields(dialog, keepAlive, packages)) == AllSyncFields(lines, NOTHING)
    {
      var f := SyncField(lines[a], SyncFields(dialog, keepAlive, packages));
      assert lines[a..][1..] == lines[a + 1..];
      if f.None? {
        return false, dialog, keepAlive, packages;
      }
      dialog, keepAlive, packages := f.value.dialog, f.value.keepAlive, f.value.packages;
      a := a + 1;
    }
    ok := true;
  }

  datatype Acks = Acks(seqno: nat) | Unreadable

  // The Seq lines of a 200; the last one counts.
  function AckOf(lines: seq<string>, seqno: nat): Acks {
    if lines == [] || lines[0] == "" then Acks(seqno)
    else
      match Following(lines[0], "Seq: ")
      case Some(v) => if Digits(v) then AckOf(lines[1..], Number(v)) else Unreadable
      case None => Unreadable
  }

  // Without a Seq line an ack is for 0; of several, the last one counts; another line spoils it.
  lemma {:induction false} AckLast(lines: seq<string>, line: string, before: nat)
    requires forall i | 0 <= i < |lines| :: lines[i] != ""
    requires line != ""
    ensures AckOf([], before) == Acks(before)
    ensures AckOf(lines + [line], before) ==
            if AckOf(lines, before).Unreadable? then Unreadable
            else match Following(line, "Seq: ")
              case Some(v) => if Digits(v) then Acks(Number(v)) else Unreadable
              case None => Unreadable
    decreases |lines|
  {
    if lines == [] {
      assert [] + [line] == [line] && [line][1..] == [];
    } else {
      assert (lines + [line])[0] == lines[0] && (lines + [line])[1..] == lines[1..] + [line];
      match Following(lines[0], "Seq: ")
      case Some(v) => if Digits(v) { AckLast(lines[1..], line, Number(v)); }
      case None =>
    }
  }

  // A CONTROL as the stack sends it
  datatype Written = Written(tid: string, name: string, version: string, mime: string, blob: string)

  // What the grammar of the header lets through, besides CRs and NULs inside a line
  predicate Sendable(w: Written) {
    && Word(w.tid)
    && NonDigits(w.name) && Free(w.name, '\r') && Free(w.name, NUL)
    && (w.version == "" || Version(w.version))
    && NonSpaces(w.mime) && Free(w.mime, NUL)
  }

  function HeaderLines(w: Written): seq<string> {
    ["CFW " + w.tid + " CONTROL",
     "Control-Package: " + w.name + w.version,
     "Content-Type: " + w.mime,
     "Content-Length: " + Decimal(|w.blob|)]
  }

  // What a peer sends: CONTROLs, acks of what the stack has sent, keep-alives, and a SYNC to become known
  datatype Message =
    | Ask(w: Written)
    | Ack(id: string, seqno: nat)
    | Ping(id: string)
    | Hello(id: string, dialog: string, keepAlive: nat, asked: string)

  function Tid(m: Message): string {
    if m.Ask? then m.w.tid else m.id
  }

  function Head(m: Message): seq<string> {
    match m
    case Ask(w) => HeaderLines(w)
    case Ack(tid, n) => ["CFW " + tid + " 200", "Seq: " + Decimal(n)]
    case Ping(tid) => ["CFW " + tid + " K-ALIVE"]
    case Hello(tid, dialog, n, asked) =>
      ["CFW " + tid + " SYNC", "Dialog-ID: " + dialog, "Keep-Alive: " + Decimal(n), "Packages: " + asked]
  }

  function Body(m: Message): string {
    if m.Ask? then m.w.blob else ""
  }

  ghost predicate Printable(m: Message) {
    match m
    case Ask(w) => Sendable(w)
    case Hello(tid, dialog, _, asked) =>
      Word(tid) && NonSpaces(dialog) && Free(dialog, NUL) && NonSpaces(asked) && Free(asked, NUL)
    case _ => Word(m.id)
  }

  function Print(m: Message): string {
    Block(Head(m)) + CRLF + Body(m)
  }

  lemma {:induction false} WordEndIs(a: string, rest: string)
    requires All(a, IsWord)
    requires rest != "" && !IsWord(rest[0])
    ensures WordEnd(a + rest) == |a|
  {
    if a == [] {
      assert a + rest == rest;
    } else {
      assert (a + rest)[0] == a[0] && (a + rest)[1..] == a[1..] + rest;
      WordEndIs(a[1..], rest);
    }
  }

  lemma FollowingIs(prefix: string, v: string)
    ensures Following(prefix + v, prefix) == Some(v)
  {
    assert (prefix + v)[..|prefix|] == prefix && (prefix + v)[|prefix|..] == v;
  }

  // Another prefix is told apart by one of its characters.
  lemma FollowingNot(line: string, prefix: string, i: nat)
    requires i < |line| && i < |prefix| && Upper(line[i]) != Upper(prefix[i])
    ensures Following(line, prefix) == None
  {
    if |line| >= |prefix| {
      assert Uppered(line[..|prefix|])[i] != Uppered(prefix)[i];
    }
  }

  lemma ControlDirected(tid: string)
    ensures Directed("CONTROL", tid) == Some(StartLine("CONTROL", tid))
  {
    AllIff("CONTROL", c => !IsDigit(c));
    assert Uppered("CONTROL") == "CONTROL";
  }

  lemma PingDirected(tid: string)
    ensures Directed("K-ALIVE", tid) == Some(StartLine("K-ALIVE", tid))
  {
    AllIff("K-ALIVE", c => !IsDigit(c));
    assert Uppered("K-ALIVE") == "K-ALIVE";
  }

  lemma HelloDirected(tid: string)
    ensures Directed("SYNC", tid) == Some(StartLine("SYNC", tid))
  {
    AllIff("SYNC", c => !IsDigit(c));
    assert Uppered("SYNC") == "SYNC";
  }

  lemma AckDirected(tid: string)
    ensures Directed("200", tid) == Some(StartLine("200", tid))
  {
    assert IsDigit("200"[0]) && !NonDigits("200");
    assert "200"[1..] == "00" && "00"[1..] == "0" && "0"[1..] == "";
    assert DigitsEnd("") == 0 && DigitsEnd("0") == 1 && DigitsEnd("00") == 2 && DigitsEnd("200") == 3;
    assert "200"[3..] == "" && "200"[..3] == "200";
  }

  lemma StartedPrinted(tid: string, tail: string)
    requires Word(tid) && tail != "" && tail[0] == ' '
    ensures Started("CFW " + tid + tail) == Directed(tail[1..], tid)
  {
    var s := tid + tail;
    assert "CFW " + tid + tail == "CFW " + s;
    FollowingIs("CFW ", s);
    WordEndIs(tid, tail);
    assert s[|tid|] == ' ' && s[|tid| + 1..] == tail[1..] && s[..|tid|] == tid;
  }

  lemma PackageNamePrinted(name: string, version: string)
    requires NonDigits(name) && (version == "" || Version(version))
    ensures PackageName(name + version) == Some(name)
  {
    var v := name + version;
    if version == "" {
      assert v == name;
    } else {
      assert v[|name|..] == version && v[..|name|] == name;
      AllIff(v, c => !IsDigit(c));
      assert IsDigit(v[|name| + 1]);
    }
  }

  lemma FieldPackage(w: Written, f: Fields)
    requires Sendable(w)
    ensures Field(HeaderLines(w)[1], f) == Some(f.(package := w.name))
  {
    var line := HeaderLines(w)[1];
    assert line == "Control-Package: " + (w.name + w.version);
    assert line[3] == 't' && line[8] == 'P';
    FollowingIs("Control-Package: ", w.name + w.version);
    FollowingNot(line, "Content-Length: ", 4);
    FollowingNot(line, "Content-Type: ", 4);
    PackageNamePrinted(w.name, w.version);
  }

  lemma FieldMime(w: Written, f: Fields)
    requires Sendable(w)
    ensures Field(HeaderLines(w)[2], f) == Some(f.(mime := w.mime))
  {
    var line := HeaderLines(w)[2];
    FollowingNot(line, "Content-Length: ", 8);
    FollowingIs("Content-Type: ", w.mime);
  }

  lemma FieldLength(w: Written, f: Fields)
    ensures Field(HeaderLines(w)[3], f) == Some(f.(content := Decimal(|w.blob|)))
  {
    FollowingIs("Content-Length: ", Decimal(|w.blob|));
  }

  lemma WordPlain(s: string)
    requires All(s, IsWord)
    ensures Free(s, '\r') && Free(s, NUL)
  {
    AllIff(s, IsWord);
    forall i | 0 <= i < |s| ensures s[i] != '\r' && s[i] != NUL {
      assert IsWord(s[i]);
    }
  }

  lemma DecimalPlain(n: nat)
    ensures Free(Decimal(n), '\r') && Free(Decimal(n), NUL)
  {
    AllIff(Decimal(n), IsDigit);
  }

  lemma LastPlain(a: string, b: string)
    requires Free(a, '\r') && Free(a, NUL) && Free(b, '\r') && Free(b, NUL) && a != ""
    ensures a + b != "" && Free(a + b, '\r') && Free(a + b, NUL)
  {
    PlainLine(a, b, "");
    assert a + b + "" == a + b;
  }

  lemma PlainHead(m: Message)
    requires Printable(m)
    ensures Plain(Head(m))
  {
    WordPlain(Tid(m));
    match m
    case Ask(w) => PlainHeader(w);
    case Ack(tid, n) =>
      PlainLine("CFW ", tid, " 200");
      DecimalPlain(n);
      LastPlain("Seq: ", Decimal(n));
    case Ping(tid) => PlainLine("CFW ", tid, " K-ALIVE");
    case Hello(_, _, _, _) => PlainHello(m);
  }

  lemma SpacelessPlain(s: string)
    requires NonSpaces(s) && Free(s, NUL)
    ensures Free(s, '\r')
  {
    AllIff(s, c => !IsSpace(c));
    forall i | 0 <= i < |s| ensures s[i] != '\r' {
      assert !IsSpace(s[i]);
    }
  }

  lemma PlainHello(m: Message)
    requires m.Hello? && Printable(m)
    ensures Plain(Head(m))
  {
    WordPlain(m.id);
    SpacelessPlain(m.dialog);
    SpacelessPlain(m.asked);
    PlainLine("CFW ", m.id, " SYNC");
    LastPlain("Dialog-ID: ", m.dialog);
    DecimalPlain(m.keepAlive);
    LastPlain("Keep-Alive: ", Decimal(m.keepAlive));
    LastPlain("Packages: ", m.asked);
  }

  lemma PlainHeader(w: Written)
    requires Sendable(w)
    ensures Plain(HeaderLines(w))
  {
    WordPlain(w.tid);
    SpacelessPlain(w.mime);
    PlainLine("CFW ", w.tid, " CONTROL");
    PlainVersion(w.version);
    PlainLine("Control-Package: ", w.name, w.version);
    LastPlain("Content-Type: ", w.mime);
    DecimalPlain(|w.blob|);
    LastPlain("Content-Length: ", Decimal(|w.blob|));
  }

  lemma PlainVersion(v: string)
    requires v == "" || Version(v)
    ensures Free(v, '\r') && Free(v, NUL)
  {
    if v != "" {
      forall i | 0 <= i < |v| ensures v[i] != '\r' && v[i] != NUL {
        assert i == 0 || i == 1 || i == 2 || i == 3;
      }
    }
  }

  lemma PlainLine(a: string, b: string, c: string)
    requires Free(a, '\r') && Free(a, NUL) && Free(b, '\r') && Free(b, NUL) && Free(c, '\r') && Free(c, NUL)
    requires a != ""
    ensures a + b + c != "" && Free(a + b + c, '\r') && Free(a + b + c, NUL)
  {
  }

  // The header that is printed is the header that is read, line by line.
  lemma FieldsPrinted(w: Written)
    requires Sendable(w)
    ensures AllFields(HeaderLines(w)[1..] + [""], Fields("", "", ""))
         == Some(Fields(w.name, Decimal(|w.blob|), w.mime))
  {
    var lines := HeaderLines(w)[1..] + [""];
    var f1 := Fields(w.name, "", "");
    var f2 := Fields(w.name, "", w.mime);
    var f3 := Fields(w.name, Decimal(|w.blob|), w.mime);
    FieldPackage(w, Fields("", "", ""));
    FieldMime(w, f1);
    FieldLength(w, f2);
    assert AllFields(lines, Fields("", "", "")) == AllFields(lines[1..], f1);
    assert AllFields(lines[1..], f1) == AllFields(lines[1..][1..], f2);
    assert AllFields(lines[1..][1..], f2) == AllFields(lines[1..][1..][1..], f3);
    assert lines[1..][1..][1..] == [""];
  }

  lemma AckPrinted(n: nat)
    ensures AckOf(["Seq: " + Decimal(n)] + [""], 0) == Acks(n)
  {
    var lines := ["Seq: " + Decimal(n)] + [""];
    FollowingIs("Seq: ", Decimal(n));
    NumberOfDecimal(n);
    assert lines[1..] == [""];
  }

  // The empty line at the end changes nothing.
  lemma {:induction false} FieldsEnd(lines: seq<string>, f: Fields)
    ensures AllFields(lines + [""], f) == AllFields(lines, f)
    decreases |lines|
  {
    if lines == [] {
      assert lines + [""] == [""];
    } else {
      assert (lines + [""])[0] == lines[0] && (lines + [""])[1..] == lines[1..] + [""];
      if lines[0] != "" && Field(lines[0], f).Some? { FieldsEnd(lines[1..], Field(lines[0], f).value); }
    }
  }

  lemma {:induction false} SyncFieldsEnd(lines: seq<string>, f: SyncFields)
    ensures AllSyncFields(lines + [""], f) == AllSyncFields(lines, f)
    decreases |lines|
  {
    if lines == [] {
      assert lines + [""] == [""];
    } else {
      assert (lines + [""])[0] == lines[0] && (lines + [""])[1..] == lines[1..] + [""];
      if lines[0] != "" && SyncField(lines[0], f).Some? { SyncFieldsEnd(lines[1..], SyncField(lines[0], f).value); }
    }
  }

  lemma DialogField(dialog: string, f: SyncFields)
    requires NonSpaces(dialog)
    ensures SyncField("Dialog-ID: " + dialog, f) == Some(f.(dialog := dialog))
  {
    FollowingIs("Dialog-ID: ", dialog);
  }

  lemma KeepAliveField(n: nat, f: SyncFields)
    ensures SyncField("Keep-Alive: " + Decimal(n), f) == Some(f.(keepAlive := Decimal(n)))
  {
    FollowingNot("Keep-Alive: " + Decimal(n), "Dialog-ID: ", 0);
    FollowingIs("Keep-Alive: ", Decimal(n));
  }

  lemma PackagesField(asked: string, f: SyncFields)
    requires NonSpaces(asked)
    ensures SyncField("Packages: " + asked, f) == Some(f.(packages := asked))
  {
    FollowingNot("Packages: " + asked, "Dialog-ID: ", 0);
    FollowingNot("Packages: " + asked, "Keep-Alive: ", 0);
    FollowingIs("Packages: ", asked);
  }

  // The lines of a printed SYNC are read back.
  lemma HelloPrinted(m: Message)
    requires m.Hello? && Printable(m)
    ensures AllSyncFields(Head(m)[1..] + [""], NOTHING) == Some(SyncFields(m.dialog, Decimal(m.keepAlive), m.asked))
  {
    var lines := Head(m)[1..] + [""];
    var f1 := SyncFields(m.dialog, "", "");
    var f2 := SyncFields(m.dialog, Decimal(m.keepAlive), "");
    DialogField(m.dialog, NOTHING);
    KeepAliveField(m.keepAlive, f1);
    PackagesField(m.asked, f2);
    assert AllSyncFields(lines, NOTHING) == AllSyncFields(lines[1..], f1);
    assert AllSyncFields(lines[1..], f1) == AllSyncFields(lines[1..][1..], f2);
    assert lines[1..][1..][1..] == [""];
  }
}
