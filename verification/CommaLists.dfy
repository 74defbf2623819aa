// Lists of package names in one string: searching them, and clearing them of stray commas.
module CommaLists {

  predicate IsSpace(c: char) { c == ' ' || '\t' <= c <= '\r' }
  predicate Loose(c: char) { c == ',' || IsSpace(c) }

  // A piece of a list holds neither commas nor white space.
  predicate Piece(s: string) { s == "" || (!Loose(s[0]) && Piece(s[1..])) }

  ghost predicate Pieces(ps: seq<string>) { forall i | 0 <= i < |ps| :: Piece(ps[i]) }

  function Join(ps: seq<string>): string {
    if ps == [] then "" else if |ps| == 1 then ps[0] else ps[0] + "," + Join(ps[1..])
  }

  // The first place of a text in another, or -1
  function Find(s: string, p: string): (i: int)
    ensures i == -1 || (0 <= i && i + |p| <= |s| && s[i..i + |p|] == p)
  {
    if |s| < |p| then -1
    else if s[..|p|] == p then 0
    else
      var r := Find(s[1..], p);
      if r < 0 then -1 else r + 1
  }

  function Erase(s: string, i: nat, n: nat): (r: string)
    requires i + n <= |s|
    ensures |r| == |s| - n
  {
    s[..i] + s[i + n..]
  }

  lemma {:induction false} FindMisses(s: string, p: string, i: nat)
    requires Find(s, p) < 0 && i + |p| <= |s|
    ensures s[i..i + |p|] != p
  {
    if i > 0 {
      FindMisses(s[1..], p, i - 1);
      assert s[1..][i - 1..i - 1 + |p|] == s[i..i + |p|];
    } else {
      assert s[0..|p|] == s[..|p|];
    }
  }

  lemma {:induction false} PieceAt(s: string, i: nat)
    requires Piece(s) && i < |s|
    ensures !Loose(s[i])
  {
    if i > 0 { PieceAt(s[1..], i - 1); }
  }

  lemma {:induction false} PieceIff(s: string)
    ensures Piece(s) <==> forall i | 0 <= i < |s| :: !Loose(s[i])
  {
    if s != "" {
      PieceIff(s[1..]);
      if Piece(s) {
        forall i | 0 <= i < |s| ensures !Loose(s[i]) { PieceAt(s, i); }
      }
    }
  }

  lemma PieceErase(s: string, i: nat, n: nat)
    requires Piece(s) && i + n <= |s|
    ensures Piece(Erase(s, i, n))
  {
    PieceIff(s);
    PieceIff(Erase(s, i, n));
  }

  // A text without commas is found in a list where it is found in one of its pieces.
  lemma {:induction false} FindJoined(a: string, t: string, p: string)
    requires Piece(a) && Piece(p) && p != ""
    ensures Find(a + "," + t, p) == if Find(a, p) >= 0 then Find(a, p)
                                    else if Find(t, p) >= 0 then |a| + 1 + Find(t, p) else -1
  {
    var s := a + "," + t;
    if a == "" {
      assert s[0] == ',' && s[1..] == t;
      assert |s| >= |p| ==> s[..|p|][0] == ',' && p[0] != ',';
    } else {
      assert s[1..] == a[1..] + "," + t;
      FindJoined(a[1..], t, p);
      if |a| < |p| {
        assert s[|a|] == ',';
        PieceAt(p, |a|);
        assert |s| >= |p| ==> s[..|p|][|a|] == ',';
      } else {
        assert s[..|p|] == a[..|p|];
      }
    }
  }

  // Commas are dropped behind commas and spaces. The flag says what was before.
  function Squeeze(behind: bool, s: string): string
    decreases |s|
  {
    if s == "" then ""
    else if behind && s[0] == ',' then Squeeze(true, s[1..])
    else [s[0]] + Squeeze(s[0] == ',' || s[0] == ' ', s[1..])
  }

  function DropTail(s: string): string {
    if s != "" && s[|s| - 1] == ',' then s[..|s| - 1] else s
  }

  // No comma behind a comma or a space, and none at the end
  function Tidy(s: string): string {
    DropTail(Squeeze(false, s))
  }

  lemma {:induction false} SqueezeErase(behind: bool, s: string, i: nat)
    requires i + 1 < |s| && (s[i] == ',' || s[i] == ' ') && s[i + 1] == ','
    ensures Squeeze(behind, Erase(s, i + 1, 1)) == Squeeze(behind, s)
    decreases |s|
  {
    var t := Erase(s, i + 1, 1);
    assert t[0] == s[0];
    if i == 0 {
      assert t[1..] == s[2..] && s[1..][1..] == s[2..];
    } else {
      assert t[1..] == Erase(s[1..], i, 1);
      SqueezeErase(true, s[1..], i - 1);
      SqueezeErase(s[0] == ',' || s[0] == ' ', s[1..], i - 1);
    }
  }

  lemma SqueezeHead(s: string)
    ensures Squeeze(true, s) == "" || Squeeze(true, s)[0] != ','
  {
  }

  lemma {:induction false} SqueezeTail(behind: bool, s: string)
    ensures DropTail(Squeeze(behind, s + ",")) == DropTail(Squeeze(behind, s))
    decreases |s|
  {
    if s == "" {
      assert s + "," == "," && ","[1..] == "";
    } else {
      var b := s[0] == ',' || s[0] == ' ';
      assert (s + ",")[0] == s[0] && (s + ",")[1..] == s[1..] + ",";
      if behind && s[0] == ',' {
        SqueezeTail(true, s[1..]);
      } else {
        SqueezeTail(b, s[1..]);
        SqueezeHead(s[1..]);
        SqueezeHead(s[1..] + ",");
        DropTailBehind(s[0], Squeeze(b, s[1..] + ","), Squeeze(b, s[1..]));
      }
    }
  }

  lemma DropTailBehind(c: char, x: string, y: string)
    requires DropTail(x) == DropTail(y)
    requires c == ',' ==> (x == "" || x[0] != ',') && (y == "" || y[0] != ',')
    ensures DropTail([c] + x) == DropTail([c] + y)
  {
    if x != "" && y != "" {
      assert DropTail([c] + x) == [c] + DropTail(x) && DropTail([c] + y) == [c] + DropTail(y);
    }
  }

  // No comma behind c
  ghost predicate NoPair(s: string, c: char) {
    forall i | 0 <= i < |s| - 1 :: s[i] == c ==> s[i + 1] != ','
  }

  lemma NoPairTail(s: string, c: char)
    requires NoPair(s, c) && s != ""
    ensures NoPair(s[1..], c) && (|s| > 1 && s[0] == c ==> s[1] != ',')
  {
    forall i | 0 <= i < |s[1..]| - 1 ensures s[1..][i] == c ==> s[1..][i + 1] != ',' {
      assert s[1..][i] == s[i + 1] && s[1..][i + 1] == s[i + 1 + 1];
    }
    assert |s| > 1 ==> s[0 + 1] == s[1];
  }

  lemma {:induction false} SqueezeFixed(behind: bool, s: string)
    requires behind ==> s == "" || s[0] != ','
    requires NoPair(s, ' ') && NoPair(s, ',')
    ensures Squeeze(behind, s) == s
    decreases |s|
  {
    if s != "" {
      NoPairTail(s, ' ');
      NoPairTail(s, ',');
      assert |s| > 1 ==> s[1..][0] == s[1];
      SqueezeFixed(s[0] == ',' || s[0] == ' ', s[1..]);
    }
  }

  lemma PairMisses(s: string, p: string)
    requires |p| == 2 && p[1] == ',' && Find(s, p) < 0
    ensures NoPair(s, p[0])
  {
    forall i | 0 <= i < |s| - 1 ensures s[i] == p[0] ==> s[i + 1] != ',' {
      FindMisses(s, p, i);
      assert s[i..i + 2] == [s[i], s[i + 1]];
    }
  }

  lemma TidyFixed(s: string)
    requires Find(s, " ,") < 0 && Find(s, ",,") < 0 && (s == "" || s[|s| - 1] != ',')
    ensures Tidy(s) == s
  {
    PairMisses(s, " ,");
    PairMisses(s, ",,");
    SqueezeFixed(false, s);
  }

  lemma EraseTwin(s: string, i: nat)
    requires i + 1 < |s| && s[i] == s[i + 1]
    ensures Erase(s, i, 1) == Erase(s, i + 1, 1)
  {
    assert s[..i + 1] == s[..i] + [s[i]] && s[i + 1..] == [s[i + 1]] + s[i + 2..];
  }

  lemma TidyPair(s: string, p: string)
    requires |p| == 2 && (p[0] == ' ' || p[0] == ',') && p[1] == ',' && Find(s, p) >= 0
    ensures Tidy(Erase(s, Find(s, p) + 1, 1)) == Tidy(s)
    ensures p[0] == ',' ==> Erase(s, Find(s, p), 1) == Erase(s, Find(s, p) + 1, 1)
  {
    var i := Find(s, p);
    assert s[i] == s[i..i + 2][0] && s[i + 1] == s[i..i + 2][1];
    SqueezeErase(false, s, i);
    if p[0] == ',' { EraseTwin(s, i); }
  }

  lemma TidyLast(s: string)
    requires s != "" && s[|s| - 1] == ','
    ensures Tidy(Erase(s, |s| - 1, 1)) == Tidy(s)
  {
    SqueezeTail(false, s[..|s| - 1]);
    assert s == s[..|s| - 1] + ",";
    assert Erase(s, |s| - 1, 1) == s[..|s| - 1];
  }

  function Headless(s: string): string {
    if s != "" && s[0] == ',' then s[1..] else s
  }

  // Looks for a pair and erases its comma.
  method DropPair(list: string, p: string, skip: nat) returns (missed: bool, r: string)
    requires (p == " ," && skip == 1) || (p == ",," && skip == 0)
    ensures Tidy(r) == Tidy(list) && (missed <==> Find(list, p) < 0)
    ensures if missed then r == list else |r| < |list|
  {
    var comma := Find(list, p);
    if comma < 0 {
      return true, list;
    }
    TidyPair(list, p);
    return false, Erase(list, comma + skip, 1);
  }

  // Erases a comma at the end.
  method DropEnd(list: string) returns (missed: bool, r: string)
    ensures Tidy(r) == Tidy(list) && (missed <==> list == "" || list[|list| - 1] != ',')
    ensures if missed then r == list else |r| < |list|
  {
    if list == "" || list[|list| - 1] != ',' {
      return true, list;
    }
    TidyLast(list);
    return false, Erase(list, |list| - 1, 1);
  }

  // The cleanup of the list. Every pass but the last erases a comma.
  method Cleanup(list: string) returns (unrequired: string)
    ensures unrequired == Tidy(Headless(list))
  {
    unrequired := list;
    if unrequired != "" && unrequired[0] == ',' {
      unrequired := Erase(unrequired, 0, 1);
      assert unrequired == list[1..];
    }
    while true
      invariant Tidy(unrequired) == Tidy(Headless(list))
      decreases |unrequired|
    {
      var counter, missed := 0, false;
      missed, unrequired := DropPair(unrequired, " ,", 1);
      counter := if missed then counter + 1 else counter;
      missed, unrequired := DropPair(unrequired, ",,", 0);
      counter := if missed then counter + 1 else counter;
      missed, unrequired := DropEnd(unrequired);
      counter := if missed then counter + 1 else counter;
      if counter == 3 {
        TidyFixed(unrequired);
        return;
      }
    }
  }

  function NonEmpty(ps: seq<string>): (r: seq<string>) {
    if ps == [] then [] else if ps[0] == "" then NonEmpty(ps[1..]) else [ps[0]] + NonEmpty(ps[1..])
  }

  lemma {:induction false} SqueezePiece(behind: bool, p: string, rest: string)
    requires Piece(p) && p != ""
    ensures Squeeze(behind, p + rest) == p + Squeeze(false, rest)
  {
    assert (p + rest)[0] == p[0] && (p + rest)[1..] == p[1..] + rest;
    if p[1..] != "" {
      SqueezePiece(false, p[1..], rest);
    } else {
      assert p == [p[0]] && (p + rest)[1..] == rest;
    }
  }

  lemma DropTailAfter(p: string, q: string)
    requires q == "" || q[0] != ','
    requires p == "" || p[|p| - 1] != ','
    ensures DropTail(p + "," + q) == if q == "" then p else p + "," + DropTail(q)
  {
    if q == "" {
      assert (p + "," + q)[..|p|] == p;
    } else {
      assert (p + "," + q)[..|p| + |q|] == p + "," + q[..|q| - 1];
    }
  }

  lemma {:induction false} NonEmptyJoin(ps: seq<string>)
    ensures Join(NonEmpty(ps)) == "" <==> NonEmpty(ps) == []
  {
    if ps != [] && ps[0] == "" { NonEmptyJoin(ps[1..]); }
  }

  lemma SqueezeComma(behind: bool, p: string, t: string)
    requires Piece(p)
    ensures Squeeze(behind, p + "," + t) == (if p == "" && behind then "" else p + ",") + Squeeze(true, t)
  {
    assert ("," + t)[1..] == t;
    if p == "" {
      assert p + "," + t == "," + t;
    } else {
      assert p + "," + t == p + ("," + t);
      SqueezePiece(behind, p, "," + t);
    }
  }

  lemma SqueezeLast(behind: bool, p: string)
    requires Piece(p)
    ensures DropTail(Squeeze(behind, p)) == p
  {
    if p != "" {
      SqueezePiece(behind, p, "");
      assert p + "" == p;
      PieceAt(p, |p| - 1);
    }
  }

  lemma DropTailEmpty(q: string)
    requires q == "" || q[0] != ','
    ensures DropTail(q) == "" <==> q == ""
  {
  }

  lemma JoinFront(p: string, kept: seq<string>)
    ensures Join([p] + kept) == if kept == [] then p else p + "," + Join(kept)
  {
    assert ([p] + kept)[1..] == kept;
  }

  // One more piece in front of a squeezed list
  lemma FullInFront(behind: bool, p: string, t: string, kept: seq<string>)
    requires Piece(p) && p != "" && DropTail(Squeeze(true, t)) == Join(kept) && (Join(kept) == "" <==> kept == [])
    ensures DropTail(Squeeze(behind, p + "," + t)) == Join([p] + kept)
  {
    var q := Squeeze(true, t);
    SqueezeHead(t);
    SqueezeComma(behind, p, t);
    PieceAt(p, |p| - 1);
    DropTailAfter(p, q);
    DropTailEmpty(q);
    JoinFront(p, kept);
  }

  lemma SqueezeFront(behind: bool, t: string)
    ensures Squeeze(behind, "," + t) == if behind then Squeeze(true, t) else "," + Squeeze(true, t)
  {
    assert ("," + t)[0] == ',' && ("," + t)[1..] == t;
  }

  lemma DropTailFront(q: string)
    requires q == "" || q[0] != ','
    ensures DropTail("," + q) == if q == "" then "" else "," + DropTail(q)
  {
    assert "" + "," + q == "," + q;
    DropTailAfter("", q);
  }

  lemma BlankInFront(t: string, kept: seq<string>)
    requires DropTail(Squeeze(true, t)) == Join(kept) && (Join(kept) == "" <==> kept == [])
    ensures DropTail(Squeeze(false, "," + t)) == (if kept == [] then "" else ",") + Join(kept)
    ensures Squeeze(true, "," + t) == Squeeze(true, t)
  {
    var q := Squeeze(true, t);
    SqueezeHead(t);
    SqueezeFront(false, t);
    SqueezeFront(true, t);
    DropTailEmpty(q);
    DropTailFront(q);
  }

  // A list with blanked pieces, squeezed and without its tail
  function Lead(behind: bool, ps: seq<string>): string
    requires ps != []
  {
    if !behind && ps[0] == "" && NonEmpty(ps) != [] then "," else ""
  }

  lemma SqueezeOne(behind: bool, p: string)
    requires Piece(p)
    ensures DropTail(Squeeze(behind, Join([p]))) == Lead(behind, [p]) + Join(NonEmpty([p]))
  {
    SqueezeLast(behind, p);
    assert [p][1..] == [];
  }

  lemma SqueezeMore(behind: bool, ps: seq<string>)
    requires |ps| > 1 && Piece(ps[0])
    requires DropTail(Squeeze(true, Join(ps[1..]))) == Join(NonEmpty(ps[1..]))
    ensures DropTail(Squeeze(behind, Join(ps))) == Lead(behind, ps) + Join(NonEmpty(ps))
  {
    var p, t, kept := ps[0], Join(ps[1..]), NonEmpty(ps[1..]);
    NonEmptyJoin(ps[1..]);
    if p == "" {
      BlankInFront(t, kept);
      assert p + "," + t == "," + t;
      assert "" + Join(kept) == Join(kept);
    } else {
      FullInFront(behind, p, t, kept);
      assert "" + Join([p] + kept) == Join([p] + kept);
    }
  }

  lemma {:induction false} SqueezeJoin(behind: bool, ps: seq<string>)
    requires ps != [] && Pieces(ps)
    ensures DropTail(Squeeze(behind, Join(ps))) == Lead(behind, ps) + Join(NonEmpty(ps))
    decreases |ps|
  {
    if |ps| == 1 {
      SqueezeOne(behind, ps[0]);
      assert ps == [ps[0]];
    } else {
      SqueezeJoin(true, ps[1..]);
      assert "" + Join(NonEmpty(ps[1..])) == Join(NonEmpty(ps[1..]));
      SqueezeMore(behind, ps);
    }
  }

  predicate FrontBlank(ps: seq<string>) {
    |ps| > 1 && ps[0] == "" && ps[1] == "" && NonEmpty(ps) != []
  }

  // The cleanup lists the pieces that are left. If the first two are blank, it leaves a comma in front.
  lemma CleanupJoin(ps: seq<string>)
    requires Pieces(ps)
    ensures Tidy(Headless(Join(ps))) == (if FrontBlank(ps) then "," else "") + Join(NonEmpty(ps))
  {
    if ps != [] {
      if ps[0] == "" && |ps| > 1 {
        assert Headless(Join(ps)) == Join(ps[1..]);
        SqueezeJoin(false, ps[1..]);
      } else {
        if ps[0] != "" { PieceAt(ps[0], 0); }
        assert Headless(Join(ps)) == Join(ps);
        SqueezeJoin(false, ps);
      }
    }
  }

  // Where the first comma is, or the length
  function CommaAt(s: string): (n: nat)
    ensures n <= |s| && (n < |s| ==> s[n] == ',')
  {
    if s == "" || s[0] == ',' then 0 else 1 + CommaAt(s[1..])
  }

  lemma {:induction false} CommaAfter(p: string, rest: string)
    requires Piece(p) && (rest == "" || rest[0] == ',')
    ensures CommaAt(p + rest) == |p|
  {
    if p == "" {
      assert p + rest == rest;
    } else {
      assert (p + rest)[0] == p[0] && (p + rest)[1..] == p[1..] + rest;
      CommaAfter(p[1..], rest);
    }
  }

  lemma JoinFirst(ps: seq<string>)
    requires ps != [] && Pieces(ps)
    ensures CommaAt(Join(ps)) == |ps[0]| && Join(ps)[..|ps[0]|] == ps[0]
    ensures |ps| == 1 <==> |Join(ps)| == |ps[0]|
    ensures |ps| > 1 ==> Join(ps)[|ps[0]| + 1..] == Join(ps[1..])
  {
    if |ps| == 1 {
      CommaAfter(ps[0], "");
      assert ps[0] + "" == ps[0];
    } else {
      CommaAfter(ps[0], "," + Join(ps[1..]));
      assert Join(ps) == ps[0] + ("," + Join(ps[1..]));
    }
  }

  // A list of pieces is read off its string in one way only.
  lemma {:induction false} JoinInjective(a: seq<string>, b: seq<string>)
    requires Pieces(a) && Pieces(b) && (a != [] <==> b != []) && Join(a) == Join(b)
    ensures a == b
  {
    if a != [] {
      JoinFirst(a);
      JoinFirst(b);
      if |a| > 1 { JoinInjective(a[1..], b[1..]); }
    }
  }
}
