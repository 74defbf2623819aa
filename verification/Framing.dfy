// The bytes of one control connection: the header reader and the body reader of its thread.
module Framing {
  import opened Trailer

  const NUL: char := 0 as char

  // The C string at the start of a buffer
  function CString(s: string): string {
    if s == [] || s[0] == NUL then [] else [s[0]] + CString(s[1..])
  }

  predicate Free(s: string, c: char) {
    forall i | 0 <= i < |s| :: s[i] != c
  }

  lemma {:induction false} CStringWhole(s: string)
    requires Free(s, NUL)
    ensures CString(s) == s
  {
    if s != [] {
      assert s[0] != NUL && Free(s[1..], NUL);
      CStringWhole(s[1..]);
      assert s == [s[0]] + s[1..];
    }
  }

  // A string comes back whole exactly if it holds no NUL.
  lemma {:induction false} CStringIff(s: string)
    ensures CString(s) == s <==> Free(s, NUL)
  {
    if Free(s, NUL) {
      CStringWhole(s);
    } else if CString(s) == s {
      CStringFree(s);
    }
  }

  lemma {:induction false} CStringFree(s: string)
    ensures Free(CString(s), NUL)
  {
    if s != [] && s[0] != NUL { CStringFree(s[1..]); }
  }

  // What follows the first NUL does not matter.
  lemma {:induction false} CStringStops(s: string, t: string)
    requires t != [] && t[0] == NUL
    ensures CString(s + t) == CString(s)
  {
    if s == [] {
      assert s + t == t;
    } else {
      assert (s + t)[1..] == s[1..] + t && (s + t)[0] == s[0];
      CStringStops(s[1..], t);
    }
  }

  // All the bytes in a series of arrivals
  function Text(arrivals: seq<string>): string {
    if arrivals == [] then [] else arrivals[0] + Text(arrivals[1..])
  }

  // The bytes before the first failure
  function Live(arrivals: seq<string>): string {
    if arrivals == [] || arrivals[0] == [] then [] else arrivals[0] + Live(arrivals[1..])
  }

  predicate Steady(arrivals: seq<string>) {
    forall i | 0 <= i < |arrivals| :: arrivals[i] != ""
  }

  lemma {:induction false} SteadyLive(arrivals: seq<string>)
    requires Steady(arrivals)
    ensures Live(arrivals) == Text(arrivals)
  {
    if arrivals != [] {
      assert arrivals[0] != "";
      SteadyLive(arrivals[1..]);
    }
  }

  // What is still to come after n bytes. Failures before the last of them are passed over.
  function Drop(arrivals: seq<string>, n: nat): seq<string>
    requires n <= |Text(arrivals)|
    decreases |arrivals|
  {
    if n == 0 then arrivals
    else if |arrivals[0]| <= n then Drop(arrivals[1..], n - |arrivals[0]|)
    else [arrivals[0][n..]] + arrivals[1..]
  }

  lemma {:induction false} DropText(arrivals: seq<string>, n: nat)
    requires n <= |Text(arrivals)|
    ensures Text(Drop(arrivals, n)) == Text(arrivals)[n..]
    ensures Steady(arrivals) ==> Steady(Drop(arrivals, n))
    decreases |arrivals|
  {
    if n > 0 {
      var first, more := arrivals[0], arrivals[1..];
      if |first| <= n {
        DropText(more, n - |first|);
        assert (first + Text(more))[n..] == Text(more)[n - |first|..];
      } else {
        assert (first + Text(more))[n..] == first[n..] + Text(more);
        assert ([first[n..]] + more)[1..] == more;
      }
    }
  }

  lemma {:induction false} DropDrop(arrivals: seq<string>, m: nat, n: nat)
    requires m <= |Text(arrivals)| && n <= |Text(Drop(arrivals, m))|
    ensures m + n <= |Text(arrivals)| && Drop(Drop(arrivals, m), n) == Drop(arrivals, m + n)
    decreases |arrivals|
  {
    DropText(arrivals, m);
    if m > 0 {
      var first, more := arrivals[0], arrivals[1..];
      if |first| <= m {
        DropDrop(more, m - |first|, n);
      } else if n > 0 {
        var left := [first[m..]] + more;
        assert left[1..] == more && left[0] == first[m..];
        if |first| > m + n { assert first[m..][n..] == first[m + n..]; }
      }
    }
  }

  // One arrival is what a recv finds waiting. An empty one is a recv that fails.
  class Socket {
    var arrivals: seq<string>

    constructor (arrivals: seq<string>)
      ensures this.arrivals == arrivals
    {
      this.arrivals := arrivals;
    }

    method Recv(max: nat) returns (got: string)
      requires max > 0 && arrivals != []
      modifies this
      ensures |got| <= max && (got == "" <==> old(arrivals)[0] == "")
      ensures Text(old(arrivals)) == got + Text(arrivals)
      ensures got != "" ==> Live(old(arrivals)) == got + Live(arrivals)
      ensures got == "" ==> |arrivals| < |old(arrivals)|
      ensures Steady(old(arrivals)) <==> got != "" && Steady(arrivals)
      ensures got != "" ==> |got| <= |Text(old(arrivals))| && arrivals == Drop(old(arrivals), |got|)
      ensures got == "" ==> arrivals == old(arrivals)[1..]
    {
      var first := arrivals[0];
      if |first| <= max {
        got := first;
        assert Steady(arrivals) <==> first != "" && Steady(arrivals[1..]) by {
          assert arrivals == [first] + arrivals[1..];
        }
        assert Drop(arrivals[1..], 0) == arrivals[1..];
        arrivals := arrivals[1..];
      } else {
        got := first[..max];
        assert first == got + first[max..];
        assert Steady(arrivals) <==> Steady(arrivals[1..]) by {
          assert arrivals == [first] + arrivals[1..];
        }
        arrivals := [first[max..]] + arrivals[1..];
        assert Steady(arrivals) <==> Steady(arrivals[1..]);
      }
    }
  }

  // Where the header reader stops in a text, or -1
  function Stop(s: string): (n: int)
    ensures n < 0 || 0 < n <= |s|
  {
    StopFrom(s, 1)
  }

  function StopFrom(s: string, n: nat): (r: int)
    ensures r < 0 || n <= r <= |s|
    decreases |s| + 1 - n
  {
    if n > |s| then -1 else if Trail(s[..n]) == 4 then n else StopFrom(s, n + 1)
  }

  lemma {:induction false} StopFromIs(s: string, n: nat, k: nat)
    requires n <= k <= |s| && Trail(s[..k]) == 4
    requires forall m | n <= m < k :: Trail(s[..m]) != 4
    ensures StopFrom(s, n) == k
    decreases k - n
  {
    if n < k {
      assert Trail(s[..n]) != 4;
      StopFromIs(s, n + 1, k);
    }
  }

  lemma {:induction false} StopFromNone(s: string, n: nat)
    requires forall m | n <= m <= |s| :: Trail(s[..m]) != 4
    ensures StopFrom(s, n) < 0
    decreases |s| + 1 - n
  {
    if n <= |s| {
      assert Trail(s[..n]) != 4;
      StopFromNone(s, n + 1);
    }
  }

  datatype Outcome = Got(text: string) | Waiting | Lost

  // The thread of one connection
  class Client {
    const socket: Socket
    var message: array<char>

    ghost predicate Valid() reads this {
      message.Length >= 100
    }

    constructor (socket: Socket)
      ensures Valid() && fresh(message) && this.socket == socket
    {
      this.socket := socket;
      message := new char[100];
    }

    // The realloc that adds 50 bytes
    method Grow()
      requires Valid()
      modifies this
      ensures Valid() && fresh(message) && message.Length == old(message.Length) + 50
      ensures message[..old(message.Length)] == old(message[..])
    {
      var larger := new char[message.Length + 50];
      for i := 0 to message.Length
        invariant message == old(message) && larger.Length == message.Length + 50
        invariant message[..] == old(message[..]) && larger[..i] == message[..i]
      {
        larger[i] := message[i];
      }
      assert larger[..message.Length] == message[..];
      message := larger;
    }

    // Appends a byte and a NUL. Ten bytes stay spare.
    method Keep(c: char, position: nat)
      requires Valid() && message.Length - position >= 10
      modifies this, message
      ensures Valid() && message.Length - (position + 1) >= 10
      ensures message == old(message) || fresh(message)
      ensures message[..position + 1] == old(message[..position]) + [c] && message[position + 1] == NUL
    {
      message[position] := c;
      message[position + 1] := NUL;
      ghost var kept := message[..];
      if message.Length - (position + 1) < 10 {
        Grow();
      }
      assert message[..|kept|] == kept;
      assert message[..position + 1] == kept[..position + 1];
      assert message[position + 1] == kept[position + 1];
    }

    // position bytes of the arrivals are read and kept, with ten spare bytes behind them.
    ghost predicate Holds(position: nat, live: string, arrivals: seq<string>)
      reads this, message, socket
    {
      && Valid() && message.Length - position >= 10
      && position <= |live| && position <= |Text(arrivals)|
      && Live(socket.arrivals) == live[position..] && socket.arrivals == Drop(arrivals, position)
      && message[..position] == live[..position]
      && (position > 0 ==> message[position] == NUL)
    }

    // Receives one byte and keeps it.
    method ReadByte(position: nat, ghost live: string, ghost arrivals: seq<string>) returns (o: Outcome)
      requires Holds(position, live, arrivals)
      modifies this, message, socket
      ensures message == old(message) || fresh(message)
      ensures !o.Got? ==> Valid() && position == |live| && (o.Waiting? <==> Steady(old(socket.arrivals)))
      ensures o.Got? ==> position < |live| && o.text == [live[position]] && Holds(position + 1, live, arrivals)
      ensures o.Got? ==> (Steady(old(socket.arrivals)) <==> Steady(socket.arrivals))
    {
      if socket.arrivals == [] {
        return Waiting;
      }
      var got := socket.Recv(1);
      if got == "" {
        return Lost;
      }
      assert live[position..] == got + Live(socket.arrivals);
      assert live[position..][0] == got[0] && live[position..][1..] == live[position + 1..];
      DropDrop(arrivals, position, 1);
      Keep(got[0], position);
      assert live[..position + 1] == live[..position] + got;
      o := Got(got);
    }

    // Reads a header byte by byte. It is got exactly if the reader stops before a recv fails.
    method ReadHeader() returns (o: Outcome)
      requires Valid()
      modifies this, message, socket
      ensures Valid() && (message == old(message) || fresh(message))
      ensures o.Got? <==> Stop(Live(old(socket.arrivals))) >= 0
      ensures o.Got? ==> Parted(old(socket.arrivals), o.text, socket.arrivals)
      ensures !o.Got? ==> (o.Waiting? <==> Steady(old(socket.arrivals)))
    {
      var trailer, position := 0, 0;
      ghost var live, arrivals := Live(socket.arrivals), socket.arrivals;
      ghost var steady := Steady(socket.arrivals);
      while trailer != 4
        invariant message == old(message) || fresh(message)
        invariant Holds(position, live, arrivals)
        invariant steady <==> Steady(socket.arrivals)
        invariant Unfinished(live, position, trailer)
        decreases |live| - position
      {
        o := ReadByte(position, live, arrivals);
        if !o.Got? {
          NoStop(live, position, trailer);
          return;
        }
        UnfinishedStep(live, position, trailer);
        trailer := Next(trailer, o.text[0]);
        position := position + 1;
      }
      Finished(live, position);
      ghost var rest := message[position..];
      assert message[..] == message[..position] + rest;
      CStringStops(message[..position], rest);
      o := Got(CString(message[..]));
    }

    // Puts what a recv has got behind what is there.
    method Fill(blob: array<char>, total: nat, got: string)
      requires total + |got| <= blob.Length
      modifies blob
      ensures blob[..total + |got|] == old(blob[..total]) + got
      ensures forall i | total + |got| <= i < blob.Length :: blob[i] == old(blob[i])
    {
      forall i | 0 <= i < |got| { blob[total + i] := got[i]; }
    }

    // Reads len bytes, over as many recv calls as it takes. A failing recv is tried again.
    method GetContent(len: nat) returns (o: Outcome)
      requires len > 0
      modifies socket
      ensures !o.Lost?
      ensures o.Got? <==> len <= |Text(old(socket.arrivals))|
      ensures o.Got? ==> && o.text == CString(Text(old(socket.arrivals))[..len])
                         && socket.arrivals == Drop(old(socket.arrivals), len)
    {
      var blob := new char[len + 1](_ => NUL);
      var total := 0;
      ghost var arrivals, text := socket.arrivals, Text(socket.arrivals);
      assert text[0..] == text;
      while total < len
        invariant 0 <= total <= len && total <= |text|
        invariant Text(socket.arrivals) == text[total..]
        invariant len <= |text| ==> Drop(socket.arrivals, len - total) == Drop(arrivals, len)
        invariant blob[..total] == text[..total]
        invariant forall i | total <= i <= len :: blob[i] == NUL
        decreases len - total, |socket.arrivals|
      {
        if socket.arrivals == [] {
          return Waiting;
        }
        ghost var before := socket.arrivals;
        var got := socket.Recv(len - total);
        Received(text, total, got, Text(socket.arrivals));
        if got != "" && len <= |text| { DropDrop(before, |got|, len - total - |got|); }
        Fill(blob, total, got);
        total := total + |got|;
      }
      assert blob[..] == blob[..len] + [NUL];
      CStringStops(blob[..len], [NUL]);
      o := Got(CString(blob[..]));
    }
  }

  lemma Received(text: string, total: nat, got: string, rest: string)
    requires total <= |text| && text[total..] == got + rest
    ensures total + |got| <= |text| && rest == text[total + |got|..]
    ensures text[..total + |got|] == text[..total] + got
  {
    assert text == text[..total] + (got + rest);
  }

  // The header at the front of the arrivals is taken off them.
  ghost predicate Parted(arrivals: seq<string>, header: string, arrivals': seq<string>) {
    var live := Live(arrivals);
    var n := Stop(live);
    0 <= n <= |Text(arrivals)| && header == CString(live[..n]) && arrivals' == Drop(arrivals, n)
  }

  // The automaton was in its final state after none of the first bytes.
  ghost predicate Unfinished(s: string, position: nat, trailer: nat) {
    && position <= |s| && trailer == Trail(s[..position])
    && forall m | 0 <= m < position :: Trail(s[..m]) != 4
  }

  lemma UnfinishedStep(s: string, position: nat, trailer: nat)
    requires Unfinished(s, position, trailer) && trailer != 4 && position < |s|
    ensures Unfinished(s, position + 1, Next(trailer, s[position]))
  {
    TrailStep(s, position + 1);
  }

  lemma Finished(s: string, position: nat)
    requires Unfinished(s, position, 4)
    ensures Stop(s) == position
  {
    assert s[..0] == [];
    StopFromIs(s, 1, position);
  }

  lemma NoStop(s: string, position: nat, trailer: nat)
    requires Unfinished(s, position, trailer) && trailer != 4 && position == |s|
    ensures Stop(s) < 0
  {
    StopFromNone(s, 1);
  }

  // The reader stops exactly where the automaton says.
  lemma StopIff(s: string, n: nat)
    ensures Stop(s) == n <==> StopsAt(s, n)
  {
    assert s[..0] == [];
    if StopsAt(s, n) {
      StopFromIs(s, 1, n);
    } else if Stop(s) == n {
      StopFromStops(s, 1);
    }
  }

  lemma {:induction false} StopFromStops(s: string, n: nat)
    requires StopFrom(s, n) >= 0
    ensures Trail(s[..StopFrom(s, n)]) == 4
    ensures forall m | n <= m < StopFrom(s, n) :: Trail(s[..m]) != 4
    decreases |s| + 1 - n
  {
    if Trail(s[..n]) != 4 { StopFromStops(s, n + 1); }
  }
}
