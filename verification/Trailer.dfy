// The automaton that finds the end of a CFW header, the blank line CR LF CR LF, byte by byte.
module Trailer {

  const BLANK := "\r\n\r\n"

  function Next(trailer: nat, c: char): nat {
    if trailer == 1 || trailer == 3 then (if c == '\n' then trailer + 1 else 0)
    else if trailer == 0 || trailer == 2 then (if c == '\r' then trailer + 1 else 0)
    else 0
  }

  // The state after a string
  function Trail(s: string): (t: nat)
    ensures t <= 4
    decreases |s|
  {
    if s == [] then 0 else Next(Trail(s[..|s| - 1]), s[|s| - 1])
  }

  // The reader stops after n bytes.
  ghost predicate StopsAt(s: string, n: nat) {
    n <= |s| && Trail(s[..n]) == 4 && forall m | 0 <= m < n :: Trail(s[..m]) != 4
  }

  predicate BlankAt(s: string, n: nat) {
    4 <= n <= |s| && s[n - 4..n] == BLANK
  }

  // The first blank line ends after n bytes.
  ghost predicate FirstBlank(s: string, n: nat) {
    BlankAt(s, n) && forall m | 0 <= m < n :: !BlankAt(s, m)
  }

  // How many CRs in a row end the first n bytes
  function Returns(s: string, n: nat): nat
    requires n <= |s|
  {
    if n == 0 || s[n - 1] != '\r' then 0 else 1 + Returns(s, n - 1)
  }

  lemma TrailStep(s: string, n: nat)
    requires 0 < n <= |s|
    ensures Trail(s[..n]) == Next(Trail(s[..n - 1]), s[n - 1])
  {
    assert s[..n][..n - 1] == s[..n - 1];
  }

  // What each state remembers of the bytes just read
  lemma {:induction false} Remembers(s: string, n: nat)
    requires n <= |s|
    ensures var t := Trail(s[..n]);
            && (t == 1 || t == 3 ==> n >= t && s[n - 1] == '\r')
            && (t == 2 || t == 4 ==> n >= t && s[n - 2] == '\r' && s[n - 1] == '\n')
            && (t == 3 ==> s[n - 3] == '\r' && s[n - 2] == '\n')
            && (t == 4 ==> s[n - 4] == '\r' && s[n - 3] == '\n')
  {
    if n > 0 {
      TrailStep(s, n);
      Remembers(s, n - 1);
    }
  }

  // After a CR the automaton is in an odd state exactly if the CRs in a row are odd in number.
  lemma {:induction false} OddReturns(s: string, n: nat)
    requires 0 < n <= |s| && s[n - 1] == '\r'
    requires forall m | 0 <= m < n :: Trail(s[..m]) != 4
    ensures Trail(s[..n]) % 2 == 1 <==> Returns(s, n) % 2 == 1
  {
    TrailStep(s, n);
    Remembers(s, n - 1);
    if n > 1 && s[n - 2] == '\r' {
      OddReturns(s, n - 1);
    }
  }

  // The reader never stops without a blank line.
  lemma StopsOnBlank(s: string, n: nat)
    requires n <= |s| && Trail(s[..n]) == 4
    ensures BlankAt(s, n)
  {
    Remembers(s, n);
    assert s[n - 4..n] == BLANK;
  }

  // It stops at the first blank line if and only if the CRs that lead to it are odd in number: a
  // single one does, a doubled one does not.
  lemma StopsAtFirstBlankIff(s: string, n: nat)
    requires FirstBlank(s, n)
    ensures StopsAt(s, n) <==> Returns(s, n - 3) % 2 == 1
  {
    forall m | 0 <= m < n ensures Trail(s[..m]) != 4 {
      if Trail(s[..m]) == 4 { StopsOnBlank(s, m); }
    }
    assert s[n - 4] == s[n - 4..n][0] && s[n - 3] == s[n - 4..n][1] && s[n - 2] == s[n - 4..n][2]
           && s[n - 1] == s[n - 4..n][3];
    OddReturns(s, n - 3);
    Remembers(s, n - 3);
    TrailStep(s, n - 2);
    TrailStep(s, n - 1);
    TrailStep(s, n);
  }

  // A header without doubled CRs is read to its end.
  lemma ReadsToBlank(s: string, n: nat)
    requires FirstBlank(s, n)
    requires forall i | 0 < i < n - 3 :: !(s[i - 1] == '\r' && s[i] == '\r')
    ensures StopsAt(s, n)
  {
    assert s[n - 4] == s[n - 4..n][0];
    assert Returns(s, n - 3) == 1 + Returns(s, n - 4);
    assert n > 4 ==> s[n - 5] != '\r';
    StopsAtFirstBlankIff(s, n);
  }

  // A doubled CR hides the blank line, here the only one.
  lemma DoubledReturnMisses() returns (s: string)
    ensures s == "a\r\r\n\r\n" && FirstBlank(s, 6) && forall n :: !StopsAt(s, n)
  {
    s := "a\r\r\n\r\n";
    assert s[2..6] == BLANK;
    assert Returns(s, 3) == 2;
    StopsAtFirstBlankIff(s, 6);
    forall n ensures !StopsAt(s, n) {
      if StopsAt(s, n) { StopsOnBlank(s, n); }
    }
  }
}
