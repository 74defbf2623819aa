// Which control packages a SYNC gets: the requested names are cut out of the list of supported ones.
module Negotiation {
  import opened Options
  import opened CommaLists

  // The requested packages, up to an empty one
  function Wanted(pkgs: string): seq<string>
    decreases |pkgs|
  {
    if pkgs == "" || pkgs[0] == ',' then []
    else
      var n := CommaAt(pkgs);
      [pkgs[..n]] + if n == |pkgs| then [] else Wanted(pkgs[n + 1..])
  }

  predicate IsDigit(c: char) { '0' <= c <= '9' }

  // A name without white space, then a version
  predicate Format(p: string) {
    && |p| > 4 && (forall i | 0 <= i < |p| :: !IsSpace(p[i]))
    && p[|p| - 4] == '/' && IsDigit(p[|p| - 3]) && p[|p| - 2] == '.' && IsDigit(p[|p| - 1])
  }

  // A name, without white space, in front of a version: a slash, a digit, a point and a digit
  ghost predicate Versioned(p: string, name: string, d: char, e: char) {
    && p == name + ['/', d, '.', e] && name != ""
    && '0' <= d <= '9' && '0' <= e <= '9' && forall i | 0 <= i < |name| :: !IsSpace(name[i])
  }

  lemma FormatIff(p: string)
    ensures Format(p) <==> exists name: string, d: char, e: char :: Versioned(p, name, d, e)
  {
    if Format(p) {
      var n := |p| - 4;
      assert Versioned(p, p[..n], p[n + 1], p[n + 3]);
    }
    if name: string, d: char, e: char :| Versioned(p, name, d, e) {
      VersionedFormat(p, name, d, e);
    }
  }

  lemma VersionedFormat(p: string, name: string, d: char, e: char)
    requires Versioned(p, name, d, e)
    ensures Format(p)
  {
    forall i | 0 <= i < |p| ensures !IsSpace(p[i]) {
      if i < |name| { assert p[i] == name[i]; } else { assert p[i] == ['/', d, '.', e][i - |name|]; }
    }
  }

  predicate Commaless(s: string) { CommaAt(s) == |s| }

  lemma {:induction false} FormatPiece(p: string)
    requires Commaless(p) && forall i | 0 <= i < |p| :: !IsSpace(p[i])
    ensures Piece(p)
  {
    if p != "" {
      forall i | 0 <= i < |p[1..]| ensures !IsSpace(p[1..][i]) { assert p[1..][i] == p[i + 1]; }
      FormatPiece(p[1..]);
    }
  }

  lemma {:induction false} CommalessFront(s: string)
    ensures Commaless(s[..CommaAt(s)])
  {
    if s != "" && s[0] != ',' {
      CommalessFront(s[1..]);
      assert s[..CommaAt(s)][1..] == s[1..][..CommaAt(s[1..])];
    }
  }

  lemma {:induction false} WantedCommaless(pkgs: string)
    ensures forall i | 0 <= i < |Wanted(pkgs)| :: Commaless(Wanted(pkgs)[i]) && Wanted(pkgs)[i] != ""
    decreases |pkgs|
  {
    if pkgs != "" && pkgs[0] != ',' {
      CommalessFront(pkgs);
      if CommaAt(pkgs) < |pkgs| { WantedCommaless(pkgs[CommaAt(pkgs) + 1..]); }
    }
  }

  // Asking for a list of names is asking for these names.
  lemma {:induction false} WantedJoined(asked: seq<string>)
    requires Pieces(asked) && "" !in asked
    ensures Wanted(Join(asked)) == asked
  {
    if asked != [] {
      var a, pkgs := asked[0], Join(asked);
      JoinFirst(asked);
      assert a != "" && pkgs[0] == a[0];
      PieceAt(a, 0);
      if |asked| > 1 { WantedJoined(asked[1..]); }
    }
  }

  // An empty name ends the list, whatever stands behind it.
  lemma {:induction false} WantedStops(asked: seq<string>, rest: string)
    requires Pieces(asked) && "" !in asked && asked != []
    ensures Wanted("," + rest) == []
    ensures Wanted(Join(asked) + "," + ("," + rest)) == asked
    decreases |asked|
  {
    var a, s := asked[0], Join(asked) + "," + ("," + rest);
    assert a != "" && a in asked;
    PieceAt(a, 0);
    if |asked| == 1 {
      FirstName(a, "," + rest);
      assert s == a + "," + ("," + rest);
    } else {
      var more := Join(asked[1..]) + "," + ("," + rest);
      assert s == a + "," + more;
      FirstName(a, more);
      WantedStops(asked[1..], rest);
    }
  }

  lemma {:induction false} FirstName(a: string, more: string)
    requires Piece(a) && a != ""
    ensures Wanted(a + "," + more) == [a] + Wanted(more)
  {
    NameEnd(a, more);
    var s := a + "," + more;
    PieceAt(a, 0);
    assert s[0] == a[0] && s[..|a|] == a && s[|a| + 1..] == more;
  }

  lemma {:induction false} NameEnd(a: string, more: string)
    requires Piece(a)
    ensures CommaAt(a + "," + more) == |a|
  {
    var s := a + "," + more;
    if a != "" {
      assert s[0] == a[0] && s[1..] == a[1..] + "," + more;
      NameEnd(a[1..], more);
    }
  }

  // The first piece that a text occurs in
  function Where(ps: seq<string>, r: string): (k: nat)
    ensures k <= |ps| && (k < |ps| ==> Find(ps[k], r) >= 0)
    ensures forall j | 0 <= j < k :: Find(ps[j], r) < 0
  {
    if ps == [] || Find(ps[0], r) >= 0 then 0 else 1 + Where(ps[1..], r)
  }

  // A text is cut out of the first piece it occurs in.
  function Strike(ps: seq<string>, r: string): (s: Option<seq<string>>)
    ensures s.Some? ==> |s.value| == |ps|
  {
    var k := Where(ps, r);
    if k == |ps| then None else Some(ps[k := Erase(ps[k], Find(ps[k], r), |r|)])
  }

  lemma StrikePieces(ps: seq<string>, r: string)
    requires Pieces(ps) && Strike(ps, r).Some?
    ensures Pieces(Strike(ps, r).value)
  {
    var p := ps[Where(ps, r)];
    PieceErase(p, Find(p, r), |r|);
  }

  // Cutting a name out of the string is striking it off the list of pieces.
  ghost predicate CutIsStrike(ps: seq<string>, r: string) {
    && (Find(Join(ps), r) >= 0 <==> Strike(ps, r).Some?)
    && (Find(Join(ps), r) >= 0 ==> Erase(Join(ps), Find(Join(ps), r), |r|) == Join(Strike(ps, r).value))
  }

  lemma {:induction false} FindIsStrike(ps: seq<string>, r: string)
    requires Pieces(ps) && Piece(r) && r != ""
    ensures CutIsStrike(ps, r)
  {
    if |ps| == 1 {
      StrikeOnly(ps, r);
    } else if |ps| > 1 {
      FindIsStrike(ps[1..], r);
      StrikeMore(ps, r);
    }
  }

  lemma StrikeMore(ps: seq<string>, r: string)
    requires |ps| > 1 && Piece(ps[0]) && Piece(r) && r != "" && CutIsStrike(ps[1..], r)
    ensures CutIsStrike(ps, r)
  {
    if Find(ps[0], r) >= 0 {
      CutFirst(ps, r);
    } else {
      CutLater(ps, r);
    }
  }

  lemma CutFirst(ps: seq<string>, r: string)
    requires |ps| > 1 && Piece(ps[0]) && Piece(r) && r != "" && Find(ps[0], r) >= 0
    ensures CutIsStrike(ps, r)
  {
    var a, t := ps[0], Join(ps[1..]);
    FindJoined(a, t, r);
    StrikeFirst(ps, r);
    EraseFirst(a, t, Find(a, r), |r|);
  }

  lemma CutLater(ps: seq<string>, r: string)
    requires |ps| > 1 && Piece(ps[0]) && Piece(r) && r != "" && CutIsStrike(ps[1..], r) && Find(ps[0], r) < 0
    ensures CutIsStrike(ps, r)
  {
    var t := Join(ps[1..]);
    if Find(t, r) >= 0 {
      StrikeLater(ps, r);
      FoundLater(ps[0], t, r, Join(Strike(ps[1..], r).value));
    } else {
      FindJoined(ps[0], t, r);
      StrikeNone(ps, r);
    }
  }

  lemma FoundLater(a: string, t: string, r: string, left: string)
    requires Piece(a) && Piece(r) && r != "" && Find(a, r) < 0
    requires Find(t, r) >= 0 && Erase(t, Find(t, r), |r|) == left
    ensures Find(a + "," + t, r) >= 0
    ensures Erase(a + "," + t, Find(a + "," + t, r), |r|) == a + "," + left
  {
    FindJoined(a, t, r);
    EraseLater(a, t, Find(t, r), |r|);
  }

  lemma StrikeOnly(ps: seq<string>, r: string)
    requires |ps| == 1
    ensures Strike(ps, r).Some? <==> Find(ps[0], r) >= 0
    ensures Find(ps[0], r) >= 0 ==> Strike(ps, r).value == [Erase(ps[0], Find(ps[0], r), |r|)]
  {
    assert Where(ps[1..], r) == 0;
  }

  lemma StrikeNone(ps: seq<string>, r: string)
    requires |ps| > 1 && Find(ps[0], r) < 0 && Strike(ps[1..], r).None?
    ensures Strike(ps, r).None?
  {
  }

  lemma StrikeFirst(ps: seq<string>, r: string)
    requires |ps| > 1 && Find(ps[0], r) >= 0
    ensures Strike(ps, r).Some?
    ensures Join(Strike(ps, r).value) == Erase(ps[0], Find(ps[0], r), |r|) + "," + Join(ps[1..])
  {
    var q := Strike(ps, r).value;
    assert q[0] == Erase(ps[0], Find(ps[0], r), |r|) && q[1..] == ps[1..];
  }

  lemma EraseFirst(a: string, t: string, i: nat, n: nat)
    requires i + n <= |a|
    ensures Erase(a + "," + t, i, n) == Erase(a, i, n) + "," + t
  {
    assert (a + "," + t)[..i] == a[..i];
    assert (a + "," + t)[i + n..] == a[i + n..] + "," + t;
  }

  lemma StrikeLater(ps: seq<string>, r: string)
    requires |ps| > 1 && Find(ps[0], r) < 0 && Strike(ps[1..], r).Some?
    ensures Strike(ps, r).Some?
    ensures Join(Strike(ps, r).value) == ps[0] + "," + Join(Strike(ps[1..], r).value)
  {
    var q, q' := Strike(ps, r).value, Strike(ps[1..], r).value;
    assert q[0] == ps[0] && q[1..] == q';
  }

  lemma EraseLater(a: string, t: string, i: nat, n: nat)
    requires i + n <= |t|
    ensures Erase(a + "," + t, |a| + 1 + i, n) == a + "," + Erase(t, i, n)
  {
    assert (a + "," + t)[..|a| + 1 + i] == a + "," + t[..i];
    assert (a + "," + t)[|a| + 1 + i + n..] == t[i + n..];
  }

  // All requested names, one after the other
  function StrikeAll(ps: seq<string>, asked: seq<string>): (s: Option<seq<string>>)
    ensures s.Some? ==> |s.value| == |ps|
    decreases |asked|
  {
    if asked == [] then Some(ps)
    else if !Format(asked[0]) then None
    else
      match Strike(ps, asked[0])
      case None => None
      case Some(q) => StrikeAll(q, asked[1..])
  }

  function Line(s: string): string { s + "\r\n" }

  function Yes(asked: seq<string>, rest: string): string {
    Line("Packages: " + Join(asked)) + Line("Supported: " + rest)
  }

  function No(supported: string): string {
    Line("Supported: " + supported)
  }

  // The other names, as cleaning leaves them
  function Others(q: seq<string>): string {
    (if FrontBlank(q) then "," else "") + Join(NonEmpty(q))
  }

  // The reply, over the pieces of the list
  function Reply(names: seq<string>, asked: seq<string>): (bool, string) {
    match StrikeAll(names, asked)
    case Some(q) =>
      if asked == [] then (false, No(Join(names)))
      else (true, Yes(asked, Others(q)))
    case None => (false, No(Join(names)))
  }

  lemma {:induction false} JoinMore(ps: seq<string>, p: string)
    requires ps != []
    ensures Join(ps + [p]) == Join(ps) + "," + p
  {
    if |ps| > 1 {
      assert (ps + [p])[1..] == ps[1..] + [p];
      JoinMore(ps[1..], p);
    } else {
      assert (ps + [p])[1..] == [p];
    }
  }

  // One requested name: is it well formed and found? Then it is cut out.
  method Take(pkg: string, unrequired: string, ghost ps: seq<string>) returns (ok: bool, left: string)
    requires Commaless(pkg) && pkg != "" && Pieces(ps) && unrequired == Join(ps)
    ensures ok <==> Format(pkg) && Strike(ps, pkg).Some?
    ensures ok ==> left == Join(Strike(ps, pkg).value) && Pieces(Strike(ps, pkg).value)
  {
    if !Format(pkg) {
      return false, unrequired;
    }
    FormatPiece(pkg);
    FindIsStrike(ps, pkg);
    var loc := Find(unrequired, pkg);
    if loc < 0 {
      return false, unrequired;
    }
    StrikePieces(ps, pkg);
    return true, Erase(unrequired, loc, |pkg|);
  }

  lemma StrikeNext(ps: seq<string>, asked: seq<string>, a: nat)
    requires a < |asked|
    ensures StrikeAll(ps, asked[a..]) ==
            if Format(asked[a]) && Strike(ps, asked[a]).Some?
            then StrikeAll(Strike(ps, asked[a]).value, asked[a + 1..]) else None
  {
    assert asked[a..][1..] == asked[a + 1..];
  }

  lemma JoinNext(asked: seq<string>, a: nat)
    requires a < |asked|
    ensures Join(asked[..a + 1]) == if a == 0 then asked[a] else Join(asked[..a]) + "," + asked[a]
  {
    assert asked[..a + 1] == asked[..a] + [asked[a]];
    if a > 0 { JoinMore(asked[..a], asked[a]); }
  }

  // Adds a name to the required ones.
  method Require(asked: seq<string>, a: nat, required: string) returns (more: string)
    requires a < |asked| && required == Join(asked[..a])
    ensures more == Join(asked[..a + 1])
  {
    JoinNext(asked, a);
    more := if a == 0 then asked[a] else required + "," + asked[a];
  }

  // All requested names: each is added to the required ones and cut out of the others.
  method TakeAll(asked: seq<string>, supported: string, ghost names: seq<string>)
    returns (ok: bool, required: string, unrequired: string)
    requires forall i | 0 <= i < |asked| :: Commaless(asked[i]) && asked[i] != ""
    requires Pieces(names) && supported == Join(names)
    ensures ok <==> StrikeAll(names, asked).Some?
    ensures ok ==> required == Join(asked) && unrequired == Join(StrikeAll(names, asked).value)
    ensures ok ==> Pieces(StrikeAll(names, asked).value)
  {
    unrequired, required := supported, "";
    ghost var ps, all := names, StrikeAll(names, asked);
    assert asked[0..] == asked;
    var a := 0;
    while a < |asked|
      invariant 0 <= a <= |asked| && Pieces(ps) && unrequired == Join(ps)
      invariant all == StrikeAll(ps, asked[a..])
      invariant required == Join(asked[..a])
    {
      StrikeNext(ps, asked, a);
      ok, unrequired := Take(asked[a], unrequired, ps);
      if !ok {
        return;
      }
      required := Require(asked, a, required);
      ps := Strike(ps, asked[a]).value;
      a := a + 1;
    }
    assert asked[..a] == asked;
    ok := true;
  }

  // The negotiation on strings does what it does on lists of names.
  method MatchPackages(pkgs: string, supported: string, ghost names: seq<string>) returns (ok: bool, text: string)
    requires Pieces(names) && supported == Join(names)
    ensures (ok, text) == Reply(names, Wanted(pkgs))
  {
    var asked := Wanted(pkgs);
    if asked == [] {
      return false, Line("Supported: " + supported);
    }
    WantedCommaless(pkgs);
    var found, required, unrequired := TakeAll(asked, supported, names);
    if !found {
      return false, Line("Supported: " + supported);
    }
    CleanupJoin(StrikeAll(names, asked).value);
    unrequired := Cleanup(unrequired);
    return true, Line("Packages: " + required) + Line("Supported: " + unrequired);
  }

  ghost predicate Distinct(ps: seq<string>) { forall i, j | 0 <= i < j < |ps| :: ps[i] != ps[j] }

  ghost predicate Names(ps: seq<string>) { Pieces(ps) && "" !in ps && Distinct(ps) }

  // The names that are not requested
  function Unrequested(names: seq<string>, asked: seq<string>): seq<string> {
    if names == [] then []
    else (if names[0] in asked then [] else [names[0]]) + Unrequested(names[1..], asked)
  }

  // The list with some of its names blanked
  function Blanked(names: seq<string>, done: seq<string>): (r: seq<string>)
    ensures |r| == |names|
  {
    seq(|names|, i requires 0 <= i < |names| => if names[i] in done then "" else names[i])
  }

  // Every name is cut out of the piece that it is.
  ghost predicate Whole(ps: seq<string>, asked: seq<string>)
    decreases |asked|
  {
    asked == [] ||
    var k := Where(ps, asked[0]);
    k < |ps| && ps[k] == asked[0] && Whole(ps[k := ""], asked[1..])
  }

  lemma StrikeWhole(ps: seq<string>, r: string)
    requires Where(ps, r) < |ps| && ps[Where(ps, r)] == r
    ensures Strike(ps, r) == Some(ps[Where(ps, r) := ""])
  {
    var p := ps[Where(ps, r)];
    assert Find(p, r) == 0;
    assert Erase(p, 0, |r|) == "";
  }

  lemma {:induction false} NonEmptyUpdate(ps: seq<string>, k: nat, p: string)
    requires k < |ps| && ps[k] != ""
    ensures |NonEmpty(ps[k := p])| == |NonEmpty(ps)| - if p == "" then 1 else 0
  {
    if k > 0 {
      assert ps[k := p][1..] == ps[1..][k - 1 := p];
      NonEmptyUpdate(ps[1..], k - 1, p);
    }
  }

  // A strike blanks at most one piece, and it does exactly if it cuts a whole piece out. So the number
  // of names that are left tells if all of them were.
  lemma {:induction false} StrikeCount(ps: seq<string>, asked: seq<string>)
    requires "" !in asked && StrikeAll(ps, asked).Some?
    ensures |NonEmpty(StrikeAll(ps, asked).value)| >= |NonEmpty(ps)| - |asked|
    ensures |NonEmpty(StrikeAll(ps, asked).value)| == |NonEmpty(ps)| - |asked| <==> Whole(ps, asked)
    decreases |asked|
  {
    if asked != [] {
      var r, k := asked[0], Where(ps, asked[0]);
      assert r in asked;
      var q := Strike(ps, r).value;
      StrikeCount(q, asked[1..]);
      NonEmptyUpdate(ps, k, q[k]);
      if ps[k] == r {
        StrikeWhole(ps, r);
      }
    }
  }

  lemma FindBlank(r: string)
    requires r != ""
    ensures Find("", r) < 0
  {
  }

  // No name before the k-th that is still there contains r.
  ghost predicate Clear(names: seq<string>, done: seq<string>, r: string, k: nat)
    requires k <= |names|
  {
    forall j | 0 <= j < k :: Find(names[j], r) >= 0 ==> names[j] in done
  }

  // No name that is still there, before a requested one, contains it.
  ghost predicate Aligned(names: seq<string>, done: seq<string>, asked: seq<string>) {
    forall i, k | 0 <= i < |asked| && 0 <= k < |names| && names[k] == asked[i] ::
      Clear(names, done + asked[..i], asked[i], k)
  }

  lemma WhereClear(names: seq<string>, done: seq<string>, k: nat)
    requires k < |names| && names[k] !in done && names[k] != ""
    requires Clear(names, done, names[k], k)
    ensures Where(Blanked(names, done), names[k]) == k
  {
    var r, ps := names[k], Blanked(names, done);
    FindBlank(r);
    assert ps[k] == r && Find(r, r) == 0;
    forall j | 0 <= j < k ensures Find(ps[j], r) < 0 {
      assert ps[j] == "" || ps[j] == names[j];
    }
  }

  lemma WhereBlanked(names: seq<string>, done: seq<string>, k: nat)
    requires k < |names| && names[k] !in done && names[k] != "" && Distinct(names)
    ensures var ps, r := Blanked(names, done), names[k];
            var w := Where(ps, r);
            w < |names| && (ps[w] == r <==> Clear(names, done, r, k)) && (ps[w] == r ==> w == k)
  {
    var r, ps := names[k], Blanked(names, done);
    var w := Where(ps, r);
    assert ps[k] == r && Find(r, r) == 0;
    if ps[w] == r {
      forall j | 0 <= j < k && Find(names[j], r) >= 0 ensures names[j] in done {
        assert Find(ps[j], r) < 0;
      }
    } else if Clear(names, done, r, k) {
      WhereClear(names, done, k);
    }
  }

  lemma BlankedMore(names: seq<string>, done: seq<string>, k: nat)
    requires k < |names| && Distinct(names)
    ensures Blanked(names, done)[k := ""] == Blanked(names, done + [names[k]])
  {
  }

  lemma AlignedStep(names: seq<string>, done: seq<string>, asked: seq<string>, k: nat)
    requires asked != [] && k < |names| && names[k] == asked[0] && Distinct(names)
    ensures Aligned(names, done, asked) <==>
            Clear(names, done, asked[0], k) && Aligned(names, done + [asked[0]], asked[1..])
  {
    assert done + asked[..0] == done;
    forall i | 0 < i < |asked| ensures done + asked[..i] == done + [asked[0]] + asked[1..][..i - 1] {
      assert asked[..i] == [asked[0]] + asked[1..][..i - 1];
    }
    if Clear(names, done, asked[0], k) && Aligned(names, done + [asked[0]], asked[1..]) {
      forall i, n | 0 <= i < |asked| && 0 <= n < |names| && names[n] == asked[i]
        ensures Clear(names, done + asked[..i], asked[i], n)
      {
        if i > 0 { assert asked[1..][i - 1] == asked[i]; }
      }
    }
    if Aligned(names, done, asked) {
      forall i, n | 0 <= i < |asked[1..]| && 0 <= n < |names| && names[n] == asked[1..][i]
        ensures Clear(names, done + [asked[0]] + asked[1..][..i], asked[1..][i], n)
      {
        assert asked[i + 1] == asked[1..][i];
        assert Clear(names, done + asked[..i + 1], asked[i + 1], n);
      }
    }
  }

  // A request for supported names, each once
  ghost predicate Fair(names: seq<string>, asked: seq<string>) {
    Distinct(asked) && forall i | 0 <= i < |asked| :: asked[i] in names && Format(asked[i])
  }

  lemma FairFirst(names: seq<string>, asked: seq<string>) returns (k: nat)
    requires Fair(names, asked) && asked != []
    ensures k < |names| && names[k] == asked[0] && Format(asked[0])
    ensures Fair(names, asked[1..]) && asked[0] !in asked[1..]
  {
    assert asked[0] in names;
    k :| 0 <= k < |names| && names[k] == asked[0];
  }

  // None of the requested names is blanked yet.
  ghost predicate Apart(done: seq<string>, asked: seq<string>) {
    forall i | 0 <= i < |asked| :: asked[i] !in done
  }

  // The first request is met as it should be exactly if no name in front contains it.
  lemma WholeStep(names: seq<string>, done: seq<string>, asked: seq<string>, k: nat)
    requires Distinct(names) && asked != [] && k < |names| && names[k] == asked[0]
    requires asked[0] !in done && Format(asked[0])
    ensures var ps, next := Blanked(names, done), Blanked(names, done + [asked[0]]);
            && (Whole(ps, asked) <==> Clear(names, done, asked[0], k) && Whole(next, asked[1..]))
            && (Clear(names, done, asked[0], k) ==> StrikeAll(ps, asked) == StrikeAll(next, asked[1..]))
  {
    WhereBlanked(names, done, k);
    BlankedMore(names, done, k);
    if Clear(names, done, asked[0], k) {
      StrikeWhole(Blanked(names, done), asked[0]);
    }
  }

  lemma {:induction false} WholeIffAligned(names: seq<string>, done: seq<string>, asked: seq<string>)
    requires Distinct(names) && Fair(names, asked) && Apart(done, asked)
    ensures Whole(Blanked(names, done), asked) <==> Aligned(names, done, asked)
    ensures Aligned(names, done, asked) ==>
            StrikeAll(Blanked(names, done), asked) == Some(Blanked(names, done + asked))
    decreases |asked|
  {
    if asked == [] {
      assert done + asked == done;
    } else {
      var k := FairFirst(names, asked);
      WholeStep(names, done, asked, k);
      AlignedStep(names, done, asked, k);
      WholeIffAligned(names, done + [asked[0]], asked[1..]);
      assert done + [asked[0]] + asked[1..] == done + asked;
    }
  }

  lemma {:induction false} BlankedLeft(names: seq<string>, asked: seq<string>)
    requires "" !in names
    ensures NonEmpty(Blanked(names, asked)) == Unrequested(names, asked)
  {
    if names != [] {
      assert names[0] in names;
      assert Blanked(names, asked)[1..] == Blanked(names[1..], asked);
      BlankedLeft(names[1..], asked);
    }
  }

  // What the negotiation is for: the request in its order, and the names that are left
  function Meant(names: seq<string>, asked: seq<string>): (bool, string) {
    (true, Yes(asked, Join(Unrequested(names, asked))))
  }

  lemma YesInjective(asked: seq<string>, a: string, b: string)
    ensures Yes(asked, a) == Yes(asked, b) <==> a == b
  {
    var front := Line("Packages: " + Join(asked)) + "Supported: ";
    Framed(asked, a);
    Framed(asked, b);
    assert (front + a + "\r\n")[|front|..|front + a|] == a;
    assert (front + b + "\r\n")[|front|..|front + b|] == b;
  }

  lemma Framed(asked: seq<string>, a: string)
    ensures Yes(asked, a) == Line("Packages: " + Join(asked)) + "Supported: " + a + "\r\n"
  {
  }

  // ---- the text of a reply ----

  predicate NoReturn(s: string) { forall i | 0 <= i < |s| :: s[i] != '\r' }

  lemma {:induction false} JoinNoReturn(ps: seq<string>)
    requires forall i | 0 <= i < |ps| :: NoReturn(ps[i])
    ensures NoReturn(Join(ps))
  {
    if |ps| > 1 { JoinNoReturn(ps[1..]); }
  }

  lemma PieceNoReturn(p: string)
    requires Piece(p)
    ensures NoReturn(p)
  {
    PieceIff(p);
  }

  lemma {:induction false} AcceptedFormat(ps: seq<string>, asked: seq<string>)
    requires StrikeAll(ps, asked).Some?
    ensures forall i | 0 <= i < |asked| :: Format(asked[i])
    decreases |asked|
  {
    if asked != [] {
      AcceptedFormat(Strike(ps, asked[0]).value, asked[1..]);
      assert forall i | 0 < i < |asked| :: asked[i] == asked[1..][i - 1];
    }
  }

  // A line of a reply: some text behind a title
  ghost predicate Titled(line: string, title: string, text: string) {
    line == title + text && NoReturn(line)
  }

  lemma AcceptedNoReturn(names: seq<string>, asked: seq<string>)
    requires Pieces(names) && StrikeAll(names, asked).Some?
    ensures NoReturn(Join(asked)) && NoReturn(Others(StrikeAll(names, asked).value))
  {
    var q := StrikeAll(names, asked).value;
    AcceptedFormat(names, asked);
    JoinNoReturn(asked);
    StrikeAllPieces(names, asked);
    NonEmptyPieces(q);
    forall i | 0 <= i < |NonEmpty(q)| ensures NoReturn(NonEmpty(q)[i]) { PieceNoReturn(NonEmpty(q)[i]); }
    JoinNoReturn(NonEmpty(q));
  }

  lemma Behind(title: string, text: string)
    requires NoReturn(title) && NoReturn(text)
    ensures Titled(title + text, title, text)
  {
  }

  lemma YesLines(asked: seq<string>, rest: string) returns (first: string, second: string)
    requires NoReturn(Join(asked)) && NoReturn(rest)
    ensures Titled(first, "Packages: ", Join(asked)) && Titled(second, "Supported: ", rest)
    ensures Yes(asked, rest) == Line(first) + Line(second)
  {
    Behind("Packages: ", Join(asked));
    Behind("Supported: ", rest);
    first, second := "Packages: " + Join(asked), "Supported: " + rest;
  }

  // An accepted request is answered with two lines: what was asked for, and what else there is.
  lemma ReplyLines(names: seq<string>, asked: seq<string>) returns (first: string, second: string, rest: string)
    requires Pieces(names) && Reply(names, asked).0
    ensures Titled(first, "Packages: ", Join(asked)) && Titled(second, "Supported: ", rest)
    ensures Reply(names, asked).1 == Line(first) + Line(second)
  {
    AcceptedNoReturn(names, asked);
    rest := Others(StrikeAll(names, asked).value);
    first, second := YesLines(asked, rest);
  }

  lemma RefusalLine(names: seq<string>, asked: seq<string>) returns (line: string)
    requires Pieces(names) && !Reply(names, asked).0
    ensures Titled(line, "Supported: ", Join(names)) && Reply(names, asked).1 == Line(line)
  {
    forall i | 0 <= i < |names| ensures NoReturn(names[i]) { PieceNoReturn(names[i]); }
    JoinNoReturn(names);
    Behind("Supported: ", Join(names));
    line := "Supported: " + Join(names);
  }

  // Two requested names in front, and others behind
  ghost predicate FrontRequested(names: seq<string>, asked: seq<string>) {
    |names| > 1 && names[0] in asked && names[1] in asked && Unrequested(names, asked) != []
  }

  lemma {:induction false} BlankedCount(names: seq<string>, done: seq<string>, asked: seq<string>)
    requires Distinct(names) && "" !in names && Fair(names, asked) && Apart(done, asked)
    ensures |NonEmpty(Blanked(names, done + asked))| == |NonEmpty(Blanked(names, done))| - |asked|
    decreases |asked|
  {
    if asked == [] {
      assert done + asked == done;
    } else {
      var k := FairFirst(names, asked);
      BlankedMore(names, done, k);
      NonEmptyUpdate(Blanked(names, done), k, "");
      BlankedCount(names, done + [asked[0]], asked[1..]);
      assert done + [asked[0]] + asked[1..] == done + asked;
    }
  }

  lemma {:induction false} StrikeAllPieces(ps: seq<string>, asked: seq<string>)
    requires Pieces(ps) && StrikeAll(ps, asked).Some?
    ensures Pieces(StrikeAll(ps, asked).value)
    decreases |asked|
  {
    if asked != [] {
      StrikePieces(ps, asked[0]);
      StrikeAllPieces(Strike(ps, asked[0]).value, asked[1..]);
    }
  }

  lemma {:induction false} NonEmptyPieces(ps: seq<string>)
    requires Pieces(ps)
    ensures Pieces(NonEmpty(ps))
  {
    if ps != [] { NonEmptyPieces(ps[1..]); }
  }

  lemma {:induction false} UnrequestedPieces(names: seq<string>, asked: seq<string>)
    requires Pieces(names) && "" !in names
    ensures Pieces(Unrequested(names, asked)) && "" !in Unrequested(names, asked)
  {
    if names != [] { UnrequestedPieces(names[1..], asked); }
  }

  // The texts are the same only if the lists are.
  lemma SameList(lead: bool, a: seq<string>, b: seq<string>)
    requires Pieces(a) && Pieces(b) && "" !in a && "" !in b
    requires (if lead then "," else "") + Join(a) == Join(b)
    ensures a == b && !lead
  {
    if b != [] {
      JoinFirst(b);
      assert b[0] in b;
      PieceAt(b[0], 0);
      assert Join(b)[0] == b[0][0];
    }
    assert "" + Join(a) == Join(a);
    if a != [] {
      JoinFirst(a);
      assert a[0] in a;
    }
    JoinInjective(a, b);
  }

  lemma {:induction false} NonEmptyNone(ps: seq<string>)
    ensures "" !in NonEmpty(ps)
  {
    if ps != [] { NonEmptyNone(ps[1..]); }
  }

  lemma BlankedFront(names: seq<string>, asked: seq<string>)
    requires "" !in names
    ensures FrontBlank(Blanked(names, asked)) <==> FrontRequested(names, asked)
    ensures Blanked(names, []) == names
  {
    BlankedLeft(names, asked);
  }

  // A fair request without names inside names gets what is left, with a comma in front if the first two go.
  lemma AlignedReply(names: seq<string>, asked: seq<string>)
    requires Names(names) && Fair(names, asked) && asked != [] && Aligned(names, [], asked)
    ensures Reply(names, asked)
         == (true, Yes(asked, (if FrontRequested(names, asked) then "," else "") + Join(Unrequested(names, asked))))
  {
    BlankedFront(names, asked);
    WholeIffAligned(names, [], asked);
    assert [] + asked == asked;
    BlankedLeft(names, asked);
  }

  lemma FairNonEmpty(names: seq<string>, asked: seq<string>)
    requires "" !in names && Fair(names, asked)
    ensures "" !in asked
  {
    forall i | 0 <= i < |asked| ensures asked[i] != "" {
      assert asked[i] in names;
    }
  }

  lemma {:induction false} NonEmptyAll(ps: seq<string>)
    requires "" !in ps
    ensures NonEmpty(ps) == ps
  {
    if ps != [] {
      assert ps[0] in ps;
      NonEmptyAll(ps[1..]);
    }
  }

  lemma MisalignedReply(names: seq<string>, asked: seq<string>)
    requires Names(names) && Fair(names, asked) && asked != [] && !Aligned(names, [], asked)
    ensures Reply(names, asked) != Meant(names, asked)
  {
    BlankedFront(names, asked);
    WholeIffAligned(names, [], asked);
    FairNonEmpty(names, asked);
    if StrikeAll(names, asked).Some? && Reply(names, asked) == Meant(names, asked) {
      var q := StrikeAll(names, asked).value;
      StrikeCount(names, asked);
      BlankedCount(names, [], asked);
      BlankedLeft(names, asked);
      assert [] + asked == asked;
      StrikeAllPieces(names, asked);
      NonEmptyPieces(q);
      NonEmptyNone(q);
      UnrequestedPieces(names, asked);
      YesInjective(asked, (if FrontBlank(q) then "," else "") + Join(NonEmpty(q)), Join(Unrequested(names, asked)));
      SameList(FrontBlank(q), NonEmpty(q), Unrequested(names, asked));
    }
  }

  lemma LeadingComma(asked: seq<string>, lead: bool, left: string)
    ensures Yes(asked, (if lead then "," else "") + left) == Yes(asked, left) <==> !lead
  {
    YesInjective(asked, (if lead then "," else "") + left, left);
    assert "" + left == left && |"," + left| > |left|;
  }

  // A request that should succeed gets the reply it should get if and only if no name in front of a
  // requested one contains it, and the first two names do not both go while others stay.
  lemma MeantIff(names: seq<string>, asked: seq<string>)
    requires Names(names) && Fair(names, asked) && asked != []
    ensures Reply(names, asked) == Meant(names, asked)
       <==> Aligned(names, [], asked) && !FrontRequested(names, asked)
  {
    if Aligned(names, [], asked) {
      AlignedReply(names, asked);
      LeadingComma(asked, FrontRequested(names, asked), Join(Unrequested(names, asked)));
    } else {
      MisalignedReply(names, asked);
    }
  }

  // No requested name is a part of another supported one.
  ghost predicate NoPart(names: seq<string>, asked: seq<string>) {
    forall i, j | 0 <= i < |asked| && 0 <= j < |names| :: Find(names[j], asked[i]) >= 0 ==> names[j] == asked[i]
  }

  lemma {:induction false} MetIsFair(names: seq<string>, done: seq<string>, asked: seq<string>)
    requires Names(names) && NoPart(names, asked) && StrikeAll(Blanked(names, done), asked).Some?
    ensures Fair(names, asked) && Apart(done, asked)
    decreases |asked|
  {
    if asked != [] {
      var r, ps := asked[0], Blanked(names, done);
      var k := Where(ps, r);
      FindBlank(r);
      assert ps[k] == names[k] == r;
      BlankedMore(names, done, k);
      StrikeWhole(ps, r);
      forall i, j | 0 <= i < |asked[1..]| && 0 <= j < |names| && Find(names[j], asked[1..][i]) >= 0
        ensures names[j] == asked[1..][i]
      {
        assert asked[1..][i] == asked[i + 1];
      }
      MetIsFair(names, done + [r], asked[1..]);
      FairMore(names, done, asked);
    }
  }

  lemma FairMore(names: seq<string>, done: seq<string>, asked: seq<string>)
    requires asked != [] && asked[0] in names && asked[0] !in done && Format(asked[0])
    requires Fair(names, asked[1..]) && Apart(done + [asked[0]], asked[1..])
    ensures Fair(names, asked) && Apart(done, asked)
  {
    forall i | 0 < i < |asked|
      ensures asked[i] in names && Format(asked[i]) && asked[i] !in done && asked[i] != asked[0]
    {
      assert asked[1..][i - 1] == asked[i];
    }
    forall i, j | 0 < i < j < |asked| ensures asked[i] != asked[j] {
      assert asked[1..][i - 1] == asked[i] && asked[1..][j - 1] == asked[j];
    }
  }

  // Where no requested name is a part of another, a request succeeds exactly if it is fair.
  lemma MetIffFair(names: seq<string>, asked: seq<string>)
    requires Names(names) && NoPart(names, asked)
    ensures Reply(names, asked)
         == if Fair(names, asked) && asked != []
            then
              (true, Yes(asked, (if FrontRequested(names, asked) then "," else "") + Join(Unrequested(names, asked))))
            else (false, No(Join(names)))
  {
    BlankedFront(names, asked);
    if Fair(names, asked) && asked != [] {
      AlignedReply(names, asked);
    } else if asked != [] && StrikeAll(names, asked).Some? {
      MetIsFair(names, [], asked);
    }
  }

  lemma {:induction false} StrikeAllMore(ps: seq<string>, asked: seq<string>, more: seq<string>)
    ensures StrikeAll(ps, asked + more) ==
            match StrikeAll(ps, asked)
            case None => None
            case Some(q) => StrikeAll(q, more)
    decreases |asked|
  {
    if asked == [] {
      assert asked + more == more;
    } else {
      assert (asked + more)[0] == asked[0] && (asked + more)[1..] == asked[1..] + more;
      if Format(asked[0]) && Strike(ps, asked[0]).Some? {
        StrikeAllMore(Strike(ps, asked[0]).value, asked[1..], more);
      }
    }
  }

  // The first name that is left and contains r
  ghost predicate FirstLeft(names: seq<string>, asked: seq<string>, r: string, j: nat) {
    j < |names| && names[j] !in asked && Find(names[j], r) >= 0 && Clear(names, asked, r, j)
  }

  lemma StrikeLeftIff(names: seq<string>, asked: seq<string>, r: string)
    requires Format(r)
    ensures Strike(Blanked(names, asked), r).Some?
       <==> exists j :: 0 <= j < |names| && names[j] !in asked && Find(names[j], r) >= 0
    ensures forall j | FirstLeft(names, asked, r, j) :: Where(Blanked(names, asked), r) == j
    ensures Strike(Blanked(names, asked), r).Some? ==> FirstLeft(names, asked, r, Where(Blanked(names, asked), r))
  {
    FindBlank(r);
    var left := Blanked(names, asked);
    var k := Where(left, r);
    if k < |names| {
      assert names[k] !in asked && Find(names[k], r) >= 0;
      forall j | 0 <= j < k && Find(names[j], r) >= 0 ensures names[j] in asked { assert Find(left[j], r) < 0; }
    }
    forall j: nat | j < |names| && names[j] !in asked && Find(names[j], r) >= 0 ensures k <= j {
      assert left[j] == names[j];
    }
  }

  // Behind a fair and aligned request, one more name is accepted if and only if it is well formed and occurs
  // in some name that is left, be it a supported name or not.
  lemma OneMoreIff(names: seq<string>, asked: seq<string>, r: string)
    requires Names(names) && Fair(names, asked) && Aligned(names, [], asked)
    ensures Reply(names, asked + [r]).0 <==>
            Format(r) && exists j :: 0 <= j < |names| && names[j] !in asked && Find(names[j], r) >= 0
  {
    AlignedStrikes(names, asked, [r]);
    StrikeOneMore(Blanked(names, asked), r, []);
    assert [r] + [] == [r];
    if Format(r) { StrikeLeftIff(names, asked, r); }
  }

  lemma AlignedStrikes(names: seq<string>, asked: seq<string>, more: seq<string>)
    requires Names(names) && Fair(names, asked) && Aligned(names, [], asked)
    ensures StrikeAll(names, asked + more) == StrikeAll(Blanked(names, asked), more)
  {
    BlankedFront(names, asked);
    WholeIffAligned(names, [], asked);
    assert [] + asked == asked;
    StrikeAllMore(names, asked, more);
  }

  // What is left once r is cut out of the first name that is left and contains it
  ghost function LeftBehind(names: seq<string>, asked: seq<string>, r: string, j: nat): seq<string>
    requires FirstLeft(names, asked, r, j)
  {
    Blanked(names, asked)[j := Erase(names[j], Find(names[j], r), |r|)]
  }

  // A request that goes on behind that name is accepted if and only if it can do without that part of the
  // first such name.
  lemma GoesOnIff(names: seq<string>, asked: seq<string>, r: string, more: seq<string>)
    requires Names(names) && Fair(names, asked) && Aligned(names, [], asked)
    ensures Reply(names, asked + [r] + more).0 <==>
            Format(r) && exists j: nat ::
              FirstLeft(names, asked, r, j) && StrikeAll(LeftBehind(names, asked, r, j), more).Some?
  {
    var left := Blanked(names, asked);
    AlignedStrikes(names, asked, [r] + more);
    assert asked + ([r] + more) == asked + [r] + more;
    StrikeOneMore(left, r, more);
    if Format(r) {
      StrikeLeftIff(names, asked, r);
      if Strike(left, r).Some? { assert Strike(left, r).value == LeftBehind(names, asked, r, Where(left, r)); }
    }
  }

  lemma StrikeOneMore(ps: seq<string>, r: string, more: seq<string>)
    ensures StrikeAll(ps, [r] + more)
         == if Format(r) && Strike(ps, r).Some? then StrikeAll(Strike(ps, r).value, more) else None
  {
    assert ([r] + more)[1..] == more;
  }

  // ---- a name that is asked for several times ----

  function Repeated(r: string, n: nat): seq<string> {
    if n == 0 then [] else [r] + Repeated(r, n - 1)
  }

  // How often a name can be cut out of a piece, and out of all of them
  function Times(p: string, r: string): nat
    requires r != ""
    decreases |p|
  {
    if Find(p, r) < 0 then 0 else 1 + Times(Erase(p, Find(p, r), |r|), r)
  }

  function TimesIn(ps: seq<string>, r: string): nat
    requires r != ""
  {
    if ps == [] then 0 else Times(ps[0], r) + TimesIn(ps[1..], r)
  }

  lemma {:induction false} TimesUpdate(ps: seq<string>, k: nat, p: string, r: string)
    requires r != "" && k < |ps|
    ensures TimesIn(ps[k := p], r) == TimesIn(ps, r) - Times(ps[k], r) + Times(p, r)
  {
    if k > 0 {
      assert ps[k := p][1..] == ps[1..][k - 1 := p];
      TimesUpdate(ps[1..], k - 1, p, r);
    } else {
      assert ps[k := p][1..] == ps[1..];
    }
  }

  lemma {:induction false} TimesNone(ps: seq<string>, r: string)
    requires r != ""
    ensures TimesIn(ps, r) > 0 <==> Where(ps, r) < |ps|
  {
    if ps != [] { TimesNone(ps[1..], r); }
  }

  lemma StrikeTimes(ps: seq<string>, r: string)
    requires r != ""
    ensures Strike(ps, r).Some? <==> TimesIn(ps, r) > 0
    ensures Strike(ps, r).Some? ==> TimesIn(Strike(ps, r).value, r) == TimesIn(ps, r) - 1
  {
    TimesNone(ps, r);
    var k := Where(ps, r);
    if k < |ps| { TimesUpdate(ps, k, Erase(ps[k], Find(ps[k], r), |r|), r); }
  }

  ghost predicate Fits(ps: seq<string>, r: string, n: nat)
    requires r != ""
  {
    StrikeAll(ps, Repeated(r, n)).Some? <==> n <= TimesIn(ps, r)
  }

  lemma FitsNone(ps: seq<string>, r: string)
    requires r != ""
    ensures Fits(ps, r, 0)
  {
  }

  lemma FitsMore(ps: seq<string>, r: string, n: nat)
    requires Format(r) && n > 0 && (Strike(ps, r).Some? ==> Fits(Strike(ps, r).value, r, n - 1))
    ensures Fits(ps, r, n)
  {
    StrikeTimes(ps, r);
    StrikeOneMore(ps, r, Repeated(r, n - 1));
  }

  lemma {:induction false} StrikeRepeated(ps: seq<string>, r: string, n: nat)
    requires Format(r)
    ensures Fits(ps, r, n)
    decreases n
  {
    if n == 0 {
      FitsNone(ps, r);
    } else {
      if Strike(ps, r).Some? { StrikeRepeated(Strike(ps, r).value, r, n - 1); }
      FitsMore(ps, r, n);
    }
  }

  // A well-formed name is accepted as often as it can be cut out of the supported ones, one cut after the
  // other.
  lemma RepeatedIff(names: seq<string>, r: string, n: nat)
    requires Format(r)
    ensures Reply(names, Repeated(r, n)).0 <==> 0 < n <= TimesIn(names, r)
  {
    StrikeRepeated(names, r, n);
  }

  // Requested, the first two leave their comma behind.
  lemma FrontTwo(a: string, b: string, c: string)
    requires Format(a) && Format(b) && Piece(a) && Piece(b) && Piece(c)
    requires a != b && a != c && b != c && c != "" && Find(a, b) < 0
    ensures Reply([a, b, c], [a, b]) == (true, Yes([a, b], "," + c))
  {
    var names, asked := [a, b, c], [a, b];
    assert names[1..][1..][1..] == [] && names[1..][1..] == [c];
    assert Unrequested([c], asked) == [c];
    assert Unrequested(names, asked) == [c];
    AlignedReply(names, asked);
  }

  lemma FindSameLength(a: string, b: string)
    requires |a| == |b| && a != b
    ensures Find(a, b) < 0
  {
    assert a[..|b|] == a;
  }

  lemma NamePiece(a: string)
    requires |a| == 5 && !Loose(a[0]) && !Loose(a[1]) && !Loose(a[2]) && !Loose(a[3]) && !Loose(a[4])
    ensures Piece(a)
  {
    PieceIff(a);
  }

  lemma CommaStays() returns (a: string, b: string, c: string)
    ensures a == "a/1.0" && b == "b/1.0" && c == "c/1.0"
    ensures Reply([a, b, c], [a, b]) == (true, Yes([a, b], "," + c))
  {
    a, b, c := "a/1.0", "b/1.0", "c/1.0";
    NamePiece(a);
    NamePiece(b);
    NamePiece(c);
    FindSameLength(a, b);
    FrontTwo(a, b, c);
  }

  lemma ReplyToOne(names: seq<string>, r: string, q: seq<string>)
    requires Format(r) && Strike(names, r) == Some(q)
    ensures Reply(names, [r]) == (true, Yes([r], (if FrontBlank(q) then "," else "") + Join(NonEmpty(q))))
  {
    assert [r][1..] == [];
    assert StrikeAll(q, []) == Some(q);
    assert StrikeAll(names, [r]) == Some(q);
  }

  lemma {:induction false} FindAtEnd(a: string, b: string)
    requires b != "" && forall i | 0 <= i < |a| :: a[i] != b[0]
    ensures Find(a + b, b) == |a|
  {
    if a == "" {
      assert a + b == b;
    } else {
      assert (a + b)[0] == a[0] && (a + b)[1..] == a[1..] + b;
      assert (a + b)[..|b|][0] == a[0];
      FindAtEnd(a[1..], b);
    }
  }

  // A name that another one ends with is cut out of that one.
  lemma EndOfAnother(a: string, b: string)
    requires Format(b) && a != "" && forall i | 0 <= i < |a| :: a[i] != b[0]
    ensures Reply([a + b, b], [b]) == (true, Yes([b], a + "," + b))
  {
    FindAtEnd(a, b);
    assert Where([a + b, b], b) == 0;
    assert Erase(a + b, |a|, |b|) == a;
    var q := [a, b];
    assert [a + b, b][0 := a] == q;
    assert Strike([a + b, b], b) == Some(q);
    ReplyToOne([a + b, b], b, q);
    NonEmptyAll(q);
    assert q[1..] == [b];
    assert "" + (a + "," + b) == a + "," + b;
  }

  lemma IvrNames() returns (front: string, long: string, short: string)
    ensures front != "" && long == front + short && Format(short) && forall i | 0 <= i < |front| :: front[i] != short[0]
    ensures front == "msc-" && long == "msc-ivr/1.0" && short == "ivr/1.0"
  {
    front, long, short := "msc-", "msc-ivr/1.0", "ivr/1.0";
  }

  lemma PartIsCut() returns (front: string, long: string, short: string)
    ensures front == "msc-" && long == "msc-ivr/1.0" && short == "ivr/1.0"
    ensures Reply([long, short], [short]) == (true, Yes([short], front + "," + short))
  {
    front, long, short := IvrNames();
    EndOfAnother(front, short);
  }

  lemma TimesOfTwo(p: string, q: string, r: string)
    requires r != ""
    ensures TimesIn([p, q], r) == Times(p, r) + Times(q, r)
  {
    assert [p, q][1..] == [q] && [q][1..] == [];
    assert TimesIn([q], r) == Times(q, r);
  }

  lemma {:induction false} FindAway(a: string, b: string)
    requires b != "" && forall i | 0 <= i < |a| :: a[i] != b[0]
    ensures Find(a, b) < 0
  {
    if |a| >= |b| {
      assert a[..|b|][0] == a[0];
      FindAway(a[1..], b);
    }
  }

  lemma TimesAtEnd(a: string, b: string)
    requires b != "" && forall i | 0 <= i < |a| :: a[i] != b[0]
    ensures Times(a + b, b) == 1
  {
    FindAtEnd(a, b);
    FindAway(a, b);
    assert Erase(a + b, |a|, |b|) == a;
    assert Times(a, b) == 0;
  }

  lemma TwoAndThree(b: string)
    ensures Repeated(b, 2) == [b, b] && Repeated(b, 3) == [b, b, b]
  {
    assert Repeated(b, 1) == [b] + [] == [b] && [b] + [b] == [b, b] && [b] + [b, b] == [b, b, b];
  }

  // A name that another one ends with can be asked for twice.
  lemma EndTwice(a: string, b: string)
    requires Format(b) && forall i | 0 <= i < |a| :: a[i] != b[0]
    ensures Reply([a + b, b], [b, b]).0 && !Reply([a + b, b], [b, b, b]).0
  {
    TimesAtEnd(a, b);
    TimesAtEnd("", b);
    assert "" + b == b;
    TimesOfTwo(a + b, b, b);
    TwoAndThree(b);
    RepeatedIff([a + b, b], b, 2);
    RepeatedIff([a + b, b], b, 3);
  }

  lemma PartIsCutTwice() returns (long: string, short: string)
    ensures long == "msc-ivr/1.0" && short == "ivr/1.0"
    ensures Reply([long, short], [short, short]).0 && !Reply([long, short], [short, short, short]).0
  {
    var front;
    front, long, short := IvrNames();
    EndTwice(front, short);
  }
}
