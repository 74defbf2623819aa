// The timelines of a prompt: a table of steps by four tracks, filled as the elements of a prompt are read.
module Timeline {

  const TRACKS := 4
  const NORMAL := 0
  const PAR := 1
  const SEQ := 2
  const ENDSYNC_NONE := -1
  const ENDSYNC_FIRST := 0
  const ENDSYNC_LAST := 1

  // One addition
  datatype Row = Row(file: string, timeout: int, level: int, clipBegin: int, clipEnd: int)

  datatype TimeLine = TimeLine(
    files: seq<string>, timeouts: seq<int>, levels: seq<int>, clipBegins: seq<int>, clipEnds: seq<int>)
  {
    predicate Square() {
      |timeouts| == |files| && |levels| == |files| && |clipBegins| == |files| && |clipEnds| == |files|
    }

    function Push(r: Row): TimeLine {
      TimeLine(files + [r.file], timeouts + [r.timeout], levels + [r.level],
               clipBegins + [r.clipBegin], clipEnds + [r.clipEnd])
    }

    function Rows(): (rows: seq<Row>)
      requires Square()
      ensures |rows| == |files|
    {
      seq(|files|, i requires 0 <= i < |files| => Row(files[i], timeouts[i], levels[i], clipBegins[i], clipEnds[i]))
    }
  }

  const BLANK := TimeLine([], [], [], [], [])

  datatype Table = Table(
    tracks: seq<seq<TimeLine>>, endsync: seq<int>, slot: nat, newStep: bool, newSlot: bool, sync: int)

  const EMPTY := Table([[], [], [], []], [], 0, true, true, ENDSYNC_NONE)

  predicate Shaped(t: Table) {
    && |t.tracks| == TRACKS && t.slot < TRACKS
    && (forall i | 0 <= i < TRACKS :: |t.tracks[i]| == |t.endsync|)
    && (forall i, k | 0 <= i < TRACKS && 0 <= k < |t.endsync| :: t.tracks[i][k].Square())
    && (!t.newStep ==> t.endsync != [])
  }

  // The slots of a step that are in use: the first ones
  ghost predicate UsedTo(t: Table, k: nat, last: nat)
    requires Shaped(t) && k < |t.endsync|
  {
    forall i | 0 <= i < TRACKS :: t.tracks[i][k].files != [] <==> i <= last
  }

  // A step uses its first slot, and no slot behind an empty one.
  ghost predicate Packed(t: Table, k: nat)
    requires Shaped(t) && k < |t.endsync|
  {
    && t.tracks[0][k].files != []
    && (t.tracks[1][k].files != [] || t.tracks[2][k].files == [])
    && (t.tracks[2][k].files != [] || t.tracks[3][k].files == [])
  }

  // Every step uses a prefix of its slots, at least the first; the current slot is the last one in use.
  ghost predicate Valid(t: Table) {
    && Shaped(t)
    && (forall k | 0 <= k < |t.endsync| :: Packed(t, k))
    && (t.endsync != [] ==> UsedTo(t, |t.endsync| - 1, t.slot))
  }

  predicate Contains(s: string, p: string) {
    exists i | 0 <= i <= |s| - |p| :: At(s, i, p)
  }

  predicate At(s: string, i: nat, p: string) {
    i + |p| <= |s| && s[i..i + |p|] == p
  }

  predicate Unsupported(file: string) {
    !Contains(file, ".wav") && Contains(file, ".mp3") && Contains(file, ".ogg")
  }

  ghost predicate Holds(s: string, p: string) { exists a, b :: s == a + p + b }

  lemma ContainsIff(s: string, p: string)
    ensures Contains(s, p) <==> Holds(s, p)
  {
    if Contains(s, p) {
      var i :| 0 <= i <= |s| - |p| && At(s, i, p);
      assert s == s[..i] + p + s[i + |p|..];
    }
    if a, b :| s == a + p + b { assert At(s, |a|, p); }
  }

  // A file is not played if its name has both .mp3 and .ogg in it somewhere, and .wav nowhere.
  lemma UnsupportedIff(file: string)
    ensures Unsupported(file) <==> Holds(file, ".mp3") && Holds(file, ".ogg") && !Holds(file, ".wav")
  {
    ContainsIff(file, ".mp3");
    ContainsIff(file, ".ogg");
    ContainsIff(file, ".wav");
  }

  // A new step: the row in the first slot, nothing in the others
  function Fresh(t: Table, r: Row, sync: int): Table
    requires Shaped(t)
  {
    t.(tracks := [t.tracks[0] + [BLANK.Push(r)], t.tracks[1] + [BLANK], t.tracks[2] + [BLANK], t.tracks[3] + [BLANK]],
       endsync := t.endsync + [sync], slot := 0)
  }

  // The row at the end of a slot of the last step
  function Into(t: Table, i: nat, r: Row): Table
    requires Shaped(t) && t.endsync != [] && i < TRACKS
  {
    var n := |t.endsync| - 1;
    t.(tracks := t.tracks[i := t.tracks[i][n := t.tracks[i][n].Push(r)]], slot := i)
  }

  // The first slot of the last step that is not in use
  function FirstFree(t: Table, i: nat): (k: nat)
    requires Shaped(t) && t.endsync != [] && i <= TRACKS
    ensures i <= k <= TRACKS && (k < TRACKS ==> t.tracks[k][|t.endsync| - 1].files == [])
    ensures forall j | i <= j < k :: t.tracks[j][|t.endsync| - 1].files != []
    decreases TRACKS - i
  {
    if i == TRACKS || t.tracks[i][|t.endsync| - 1].files == [] then i else FirstFree(t, i + 1)
  }

  // One addition and its answer
  function Add(t: Table, how: int, r: Row): (Table, int)
    requires Shaped(t)
  {
    if how != NORMAL && how != PAR && how != SEQ then (t, -1)
    else if Unsupported(r.file) then (t, 422)
    else if how == NORMAL then (Fresh(t, r, ENDSYNC_NONE), 0)
    else if t.newStep then (Fresh(t, r, t.sync), 0)
    else if how == PAR || t.newSlot then
      var i := FirstFree(t, 0);
      if i == TRACKS then (t, 435) else (Into(t, i, r), 0)
    else (Into(t, t.slot, r), 0)
  }

  // A row is placed in the last step, behind all rows that are there.
  ghost predicate Placed(t: Table, t': Table, r: Row)
    requires Shaped(t)
  {
    Shaped(t') && Reading(t') == Reading(t) + [r]
  }

  // The rows of one step, slot by slot
  function StepRows(t: Table, k: nat): seq<Row>
    requires Shaped(t) && k < |t.endsync|
  {
    t.tracks[0][k].Rows() + t.tracks[1][k].Rows() + t.tracks[2][k].Rows() + t.tracks[3][k].Rows()
  }

  function ReadingTo(t: Table, n: nat): seq<Row>
    requires Shaped(t) && n <= |t.endsync|
  {
    if n == 0 then [] else ReadingTo(t, n - 1) + StepRows(t, n - 1)
  }

  // All rows: step by step, slot by slot, row by row
  function Reading(t: Table): seq<Row>
    requires Shaped(t)
  {
    ReadingTo(t, |t.endsync|)
  }

  lemma {:induction false} ReadingSame(t: Table, t': Table, n: nat)
    requires Shaped(t) && Shaped(t') && n <= |t.endsync| && n <= |t'.endsync|
    requires forall i, k | 0 <= i < TRACKS && 0 <= k < n :: t.tracks[i][k] == t'.tracks[i][k]
    ensures ReadingTo(t, n) == ReadingTo(t', n)
  {
    if n > 0 { ReadingSame(t, t', n - 1); }
  }

  lemma PushRows(tl: TimeLine, r: Row)
    requires tl.Square()
    ensures tl.Push(r).Square() && tl.Push(r).Rows() == tl.Rows() + [r]
  {
  }

  lemma FreshShaped(t: Table, r: Row, sync: int)
    requires Shaped(t)
    ensures Shaped(Fresh(t, r, sync)) && UsedTo(Fresh(t, r, sync), |t.endsync|, 0)
  {
  }

  lemma FreshKeeps(t: Table, r: Row, sync: int)
    requires Valid(t)
    ensures Valid(Fresh(t, r, sync)) && Placed(t, Fresh(t, r, sync), r)
  {
    var t', n := Fresh(t, r, sync), |t.endsync|;
    FreshShaped(t, r, sync);
    assert UsedTo(t', n, 0);
    forall k | 0 <= k <= n ensures Packed(t', k) {
      if k < n { assert Packed(t, k); }
    }
    ReadingSame(t, t', n);
    PushRows(BLANK, r);
    assert BLANK.Rows() == [];
    assert StepRows(t', n) == [r];
  }

  lemma IntoShaped(t: Table, i: nat, r: Row)
    requires Shaped(t) && t.endsync != [] && i < TRACKS
    ensures Shaped(Into(t, i, r))
  {
  }

  lemma BlankRows(tl: TimeLine)
    requires tl.Square() && tl.files == []
    ensures tl.Rows() == []
  {
  }

  // The rows of the last step, when one is put in its last used slot or the next one
  lemma IntoRows(t: Table, i: nat, r: Row)
    requires Valid(t) && t.endsync != [] && i < TRACKS && (i == t.slot || i == t.slot + 1)
    ensures Shaped(Into(t, i, r))
    ensures StepRows(Into(t, i, r), |t.endsync| - 1) == StepRows(t, |t.endsync| - 1) + [r]
  {
    var t', n := Into(t, i, r), |t.endsync| - 1;
    IntoShaped(t, i, r);
    PushRows(t.tracks[i][n], r);
    assert UsedTo(t, n, t.slot);
    forall j | i < j < TRACKS ensures t.tracks[j][n].Rows() == [] && t'.tracks[j][n] == t.tracks[j][n] {
      BlankRows(t.tracks[j][n]);
    }
    assert forall j | 0 <= j < TRACKS && j != i :: t'.tracks[j][n] == t.tracks[j][n];
    if i == 3 {
    } else if i == 2 {
      assert t.tracks[3][n].Rows() == [];
    } else if i == 1 {
      assert t.tracks[2][n].Rows() == [] && t.tracks[3][n].Rows() == [];
    } else {
      assert t.tracks[1][n].Rows() == [] && t.tracks[2][n].Rows() == [] && t.tracks[3][n].Rows() == [];
    }
  }

  lemma IntoKeeps(t: Table, i: nat, r: Row)
    requires Valid(t) && t.endsync != [] && i < TRACKS && (i == t.slot || i == t.slot + 1)
    ensures Valid(Into(t, i, r)) && Placed(t, Into(t, i, r), r)
  {
    var t', n := Into(t, i, r), |t.endsync| - 1;
    IntoRows(t, i, r);
    ReadingSame(t, t', n);
    assert UsedTo(t, n, t.slot) && UsedTo(t', n, i);
    forall k | 0 <= k <= n ensures Packed(t', k) {
      if k < n { assert Packed(t, k); }
    }
  }

  // The first free slot is the one behind the current one.
  lemma FreeIsNext(t: Table)
    requires Valid(t) && t.endsync != []
    ensures FirstFree(t, 0) == t.slot + 1
  {
    assert UsedTo(t, |t.endsync| - 1, t.slot);
  }

  // An accepted row is added behind all others; a refused one changes nothing.
  lemma AddKeeps(t: Table, how: int, r: Row)
    requires Valid(t)
    ensures var (t', code) := Add(t, how, r);
            Valid(t') && (if code == 0 then Placed(t, t', r) else t' == t)
  {
    if t.endsync != [] { FreeIsNext(t); }
    var (t', code) := Add(t, how, r);
    if code == 0 {
      if how == NORMAL {
        FreshKeeps(t, r, ENDSYNC_NONE);
      } else if t.newStep {
        FreshKeeps(t, r, t.sync);
      } else {
        IntoKeeps(t, if how == PAR || t.newSlot then t.slot + 1 else t.slot, r);
      }
    }
  }

  // A step has room for a row in a new slot unless all four slots are in use.
  lemma NoRoomIff(t: Table, how: int, r: Row)
    requires Valid(t)
    ensures Add(t, how, r).1 == 435 <==>
            && !Unsupported(r.file) && !t.newStep && (how == PAR || (how == SEQ && t.newSlot))
            && forall i | 0 <= i < TRACKS :: t.tracks[i][|t.endsync| - 1].files != []
  {
    if t.endsync != [] { FreeIsNext(t); }
  }

  // What an addition is answered
  lemma AddAnswers(t: Table, how: int, r: Row)
    requires Valid(t)
    ensures var code := Add(t, how, r).1;
            && code in {0, -1, 422, 435}
            && (code == -1 <==> how !in {NORMAL, PAR, SEQ})
            && (code == 422 <==> how in {NORMAL, PAR, SEQ} && Unsupported(r.file))
  {
  }

  // The elements of a prompt, as the parser reports them
  datatype Element =
    | Media(row: Row)
    | Variable(files: seq<string>)
    | Par(sync: int)
    | ParMedia(row: Row)
    | ParVariable(files: seq<string>)
    | ParSeq
    | SeqMedia(row: Row)
    | SeqVariable(files: seq<string>)

  function Child(t: Table, sync: int): Table {
    t.(newStep := true, newSlot := true, sync := sync)
  }

  function VariableRow(file: string): Row { Row(file, 30000, 100, 0, 0) }

  // A row that continues what is open
  function AddSeq(t: Table, r: Row): (Table, int)
    requires Shaped(t)
  {
    var (t', code) := Add(t, SEQ, r);
    (if code == 0 then t'.(newStep := false, newSlot := false) else t', code)
  }

  // The files of a variable, up to the first that is refused
  function AddFiles(t: Table, files: seq<string>): (r: (Table, seq<Row>, int))
    requires Valid(t)
    decreases |files|
  {
    if files == [] then (t, [], 0)
    else
      var row := VariableRow(files[0]);
      var (t1, code) := AddSeq(t, row);
      AddSeqKeeps(t, row);
      if code != 0 then (t1, [], code)
      else
        var (t2, rows, last) := AddFiles(t1, files[1..]);
        (t2, [row] + rows, last)
  }

  // What an element does to the table, the rows that it adds, and its answer
  function Step(t: Table, e: Element): (Table, seq<Row>, int)
    requires Valid(t)
  {
    match e
    case Media(row) =>
      var (t', code) := Add(Child(t, ENDSYNC_NONE), NORMAL, row);
      (t', if code == 0 then [row] else [], code)
    case Variable(files) =>
      FlagsKeep(t, true, true, ENDSYNC_NONE);
      AddFiles(Child(t, ENDSYNC_NONE), files)
    case Par(sync) => (Child(t, sync), [], 0)
    case ParMedia(row) =>
      var (t', code) := Add(t.(newSlot := true), PAR, row);
      (if code == 0 then t'.(newStep := false) else t', if code == 0 then [row] else [], code)
    case ParVariable(files) =>
      FlagsKeep(t, t.newStep, true, t.sync);
      AddFiles(t.(newSlot := true), files)
    case ParSeq => (t.(newSlot := true), [], 0)
    case SeqMedia(row) =>
      var (t', code) := AddSeq(t, row);
      (t', if code == 0 then [row] else [], code)
    case SeqVariable(files) => AddFiles(t, files)
  }

  // The flags are no part of the table.
  lemma FlagsKeep(t: Table, newStep: bool, newSlot: bool, sync: int)
    requires Valid(t) && (!newStep ==> t.endsync != [])
    ensures Valid(t.(newStep := newStep, newSlot := newSlot, sync := sync))
    ensures Reading(t.(newStep := newStep, newSlot := newSlot, sync := sync)) == Reading(t)
  {
    var t' := t.(newStep := newStep, newSlot := newSlot, sync := sync);
    ReadingSame(t, t', |t.endsync|);
    forall k | 0 <= k < |t.endsync| ensures Packed(t', k) {
      assert Packed(t, k);
    }
    assert t.endsync != [] ==> UsedTo(t, |t.endsync| - 1, t.slot) && UsedTo(t', |t.endsync| - 1, t.slot);
  }

  // A table reads on with some rows.
  ghost predicate ReadsOn(t: Table, t': Table, rows: seq<Row>)
    requires Valid(t)
  {
    Valid(t') && Reading(t') == Reading(t) + rows
  }

  lemma ReadsOnAgain(t: Table, t1: Table, t2: Table, rows: seq<Row>, more: seq<Row>)
    requires Valid(t) && ReadsOn(t, t1, rows) && ReadsOn(t1, t2, more)
    ensures ReadsOn(t, t2, rows + more)
  {
  }

  lemma AddSeqKeeps(t: Table, r: Row)
    requires Valid(t)
    ensures var (t', code) := AddSeq(t, r);
            ReadsOn(t, t', if code == 0 then [r] else [])
  {
    AddKeeps(t, SEQ, r);
    var (t', code) := Add(t, SEQ, r);
    if code == 0 { FlagsKeep(t', false, false, t'.sync); }
  }

  lemma {:induction false} AddFilesKeeps(t: Table, files: seq<string>)
    requires Valid(t)
    ensures ReadsOn(t, AddFiles(t, files).0, AddFiles(t, files).1)
    decreases |files|
  {
    if files != [] {
      var row := VariableRow(files[0]);
      var (t1, code) := AddSeq(t, row);
      AddSeqKeeps(t, row);
      if code == 0 {
        AddFilesKeeps(t1, files[1..]);
        ReadsOnAgain(t, t1, AddFiles(t1, files[1..]).0, [row], AddFiles(t1, files[1..]).1);
      }
    }
  }

  // Whatever the element: the shape is kept, and the table reads on with the rows that were accepted.
  lemma StepKeeps(t: Table, e: Element)
    requires Valid(t)
    ensures ReadsOn(t, Step(t, e).0, Step(t, e).1)
  {
    match e
    case Media(row) =>
      FlagsKeep(t, true, true, ENDSYNC_NONE);
      AddKeeps(Child(t, ENDSYNC_NONE), NORMAL, row);
    case Variable(files) =>
      FlagsKeep(t, true, true, ENDSYNC_NONE);
      AddFilesKeeps(Child(t, ENDSYNC_NONE), files);
    case Par(sync) =>
      FlagsKeep(t, true, true, sync);
    case ParMedia(row) =>
      ParMediaKeeps(t, row);
    case ParVariable(files) =>
      FlagsKeep(t, t.newStep, true, t.sync);
      AddFilesKeeps(t.(newSlot := true), files);
    case ParSeq =>
      FlagsKeep(t, t.newStep, true, t.sync);
    case SeqMedia(row) =>
      AddSeqKeeps(t, row);
    case SeqVariable(files) =>
      AddFilesKeeps(t, files);
  }

  lemma ParMediaKeeps(t: Table, row: Row)
    requires Valid(t)
    ensures var (t', rows, _) := Step(t, ParMedia(row));
            Valid(t') && Reading(t') == Reading(t) + rows
  {
    var t0 := t.(newSlot := true);
    FlagsKeep(t, t.newStep, true, t.sync);
    AddKeeps(t0, PAR, row);
    var (t', code) := Add(t0, PAR, row);
    if code == 0 { FlagsKeep(t', false, t'.newSlot, t'.sync); }
  }

  // The rows that an element asks for
  function AskedRows(e: Element): seq<Row> {
    match e
    case Media(row) => [row]
    case ParMedia(row) => [row]
    case SeqMedia(row) => [row]
    case Variable(files) => FileRows(files)
    case ParVariable(files) => FileRows(files)
    case SeqVariable(files) => FileRows(files)
    case _ => []
  }

  function FileRows(files: seq<string>): seq<Row> {
    if files == [] then [] else [Row(files[0], 30000, 100, 0, 0)] + FileRows(files[1..])
  }

  lemma {:induction false} FilesAnswer(t: Table, files: seq<string>)
    requires Valid(t)
    ensures var (t', rows, code) := AddFiles(t, files);
            rows <= FileRows(files) && (code == 0 <==> rows == FileRows(files))
    decreases |files|
  {
    if files != [] {
      AddSeqKeeps(t, VariableRow(files[0]));
      var (t1, code) := AddSeq(t, VariableRow(files[0]));
      if code == 0 { FilesAnswer(t1, files[1..]); }
    }
  }

  // The answer to an element is 0 exactly if all its rows were accepted; else the first of them were.
  lemma StepAnswers(t: Table, e: Element)
    requires Valid(t)
    ensures var (t', rows, code) := Step(t, e);
            rows <= AskedRows(e) && (code == 0 <==> rows == AskedRows(e))
  {
    match e
    case Variable(files) =>
      FlagsKeep(t, true, true, ENDSYNC_NONE);
      FilesAnswer(Child(t, ENDSYNC_NONE), files);
    case ParVariable(files) =>
      FlagsKeep(t, t.newStep, true, t.sync);
      FilesAnswer(t.(newSlot := true), files);
    case SeqVariable(files) => FilesAnswer(t, files);
    case _ =>
  }

  // A prompt: all its elements, the rows accepted on the way, and the answers
  function Run(t: Table, es: seq<Element>): (Table, seq<Row>)
    requires Valid(t)
    decreases |es|
  {
    if es == [] then (t, [])
    else
      StepKeeps(t, es[0]);
      var (t1, rows, _) := Step(t, es[0]);
      var (t2, more) := Run(t1, es[1..]);
      (t2, rows + more)
  }

  lemma {:induction false} RunFrom(t: Table, es: seq<Element>)
    requires Valid(t)
    ensures ReadsOn(t, Run(t, es).0, Run(t, es).1)
    decreases |es|
  {
    if es != [] {
      StepKeeps(t, es[0]);
      var (t1, rows, _) := Step(t, es[0]);
      RunFrom(t1, es[1..]);
      ReadsOnAgain(t, t1, Run(t1, es[1..]).0, rows, Run(t1, es[1..]).1);
    }
  }

  lemma EmptyValid()
    ensures Valid(EMPTY) && Reading(EMPTY) == []
  {
  }

  // Over any prompt, refused additions among them: the table keeps its shape, and reading it gives the
  // accepted rows, each once and in the order they came in.
  lemma RunReads(es: seq<Element>)
    ensures Valid(EMPTY)
    ensures var (t, rows) := Run(EMPTY, es);
            Valid(t) && Reading(t) == rows
  {
    EmptyValid();
    RunFrom(EMPTY, es);
  }

  predicate Inside(e: Element) {
    e.ParMedia? || e.ParVariable? || e.ParSeq? || e.SeqMedia? || e.SeqVariable?
  }

  // A parallel element is open: it has made no step yet, or exactly one that ends as it says.
  ghost predicate Open(t: Table, before: seq<int>, sync: int) {
    t.sync == sync && t.endsync == if t.newStep then before else before + [sync]
  }

  lemma {:induction false} AddFilesOpen(t: Table, files: seq<string>, before: seq<int>, sync: int)
    requires Valid(t) && Open(t, before, sync)
    ensures Open(AddFiles(t, files).0, before, sync)
    decreases |files|
  {
    if files != [] {
      var row := VariableRow(files[0]);
      AddSeqKeeps(t, row);
      var (t1, code) := AddSeq(t, row);
      if code == 0 { AddFilesOpen(t1, files[1..], before, sync); }
    }
  }

  lemma InsideOpen(t: Table, e: Element, before: seq<int>, sync: int)
    requires Valid(t) && Inside(e) && Open(t, before, sync)
    ensures Open(Step(t, e).0, before, sync)
  {
    if e.ParVariable? {
      FlagsKeep(t, t.newStep, true, t.sync);
      AddFilesOpen(t.(newSlot := true), e.files, before, sync);
    } else if e.SeqVariable? {
      AddFilesOpen(t, e.files, before, sync);
    }
  }

  lemma {:induction false} InsideAllOpen(t: Table, es: seq<Element>, before: seq<int>, sync: int)
    requires Valid(t) && Open(t, before, sync) && forall i | 0 <= i < |es| :: Inside(es[i])
    ensures Open(Run(t, es).0, before, sync)
    decreases |es|
  {
    if es != [] {
      StepKeeps(t, es[0]);
      InsideOpen(t, es[0], before, sync);
      InsideAllOpen(Step(t, es[0]).0, es[1..], before, sync);
    }
  }

  // All that is inside one parallel element shares one step, and that step ends as the element says.
  lemma ParIsOneStep(t: Table, sync: int, es: seq<Element>)
    requires Valid(t) && forall i | 0 <= i < |es| :: Inside(es[i])
    ensures var (t', rows) := Run(t, [Par(sync)] + es);
            && (t'.endsync == t.endsync || t'.endsync == t.endsync + [sync])
            && (t'.endsync == t.endsync ==> rows == [])
  {
    var all := [Par(sync)] + es;
    assert all[1..] == es;
    FlagsKeep(t, true, true, sync);
    var t0 := Child(t, sync);
    InsideAllOpen(t0, es, t.endsync, sync);
    var (t', rows) := Run(t0, es);
    assert Run(t, all).0 == t' && Run(t, all).1 == [] + rows == rows;
    if t'.endsync == t.endsync {
      NoStepNoRows(t0, es, t.endsync, sync);
    }
  }

  lemma {:induction false} NoStepNoRows(t: Table, es: seq<Element>, before: seq<int>, sync: int)
    requires Valid(t) && Open(t, before, sync) && t.newStep && forall i | 0 <= i < |es| :: Inside(es[i])
    requires Run(t, es).0.endsync == before
    ensures Run(t, es).1 == []
    decreases |es|
  {
    if es != [] {
      StepKeeps(t, es[0]);
      InsideOpen(t, es[0], before, sync);
      var (t1, rows, _) := Step(t, es[0]);
      InsideAllOpen(t1, es[1..], before, sync);
      if t1.newStep {
        StepNoRows(t, es[0]);
        NoStepNoRows(t1, es[1..], before, sync);
      } else {
        StepStays(t1, es[1..], before, sync);
      }
    }
  }

  // With the step still to come, nothing was accepted.
  lemma StepNoRows(t: Table, e: Element)
    requires Valid(t) && Inside(e) && t.newStep && Step(t, e).0.newStep
    ensures Step(t, e).1 == []
  {
    if e.ParVariable? {
      FlagsKeep(t, t.newStep, true, t.sync);
      FilesNoRows(t.(newSlot := true), e.files);
    } else if e.SeqVariable? {
      FilesNoRows(t, e.files);
    }
  }

  lemma {:induction false} FilesStay(t: Table, files: seq<string>)
    requires Valid(t) && !t.newStep
    ensures !AddFiles(t, files).0.newStep
    decreases |files|
  {
    if files != [] {
      AddSeqKeeps(t, VariableRow(files[0]));
      var (t1, code) := AddSeq(t, VariableRow(files[0]));
      if code == 0 { FilesStay(t1, files[1..]); }
    }
  }

  lemma FilesNoRows(t: Table, files: seq<string>)
    requires Valid(t) && t.newStep && AddFiles(t, files).0.newStep
    ensures AddFiles(t, files).1 == []
  {
    if files != [] {
      AddSeqKeeps(t, VariableRow(files[0]));
      var (t1, code) := AddSeq(t, VariableRow(files[0]));
      if code == 0 { FilesStay(t1, files[1..]); }
    }
  }

  lemma {:induction false} StepStays(t: Table, es: seq<Element>, before: seq<int>, sync: int)
    requires Valid(t) && Open(t, before, sync) && !t.newStep && forall i | 0 <= i < |es| :: Inside(es[i])
    ensures !Run(t, es).0.newStep
    decreases |es|
  {
    if es != [] {
      StepKeeps(t, es[0]);
      InsideOpen(t, es[0], before, sync);
      if es[0].ParVariable? {
        FlagsKeep(t, t.newStep, true, t.sync);
        FilesStay(t.(newSlot := true), es[0].files);
      } else if es[0].SeqVariable? {
        FilesStay(t, es[0].files);
      }
      StepStays(Step(t, es[0]).0, es[1..], before, sync);
    }
  }

  // The prompt of a dialog
  class IvrDialog {
    const audioTimeLine: array<seq<TimeLine>>
    var endsync: seq<int>
    var currentEndSync: int
    var currentSlot: nat
    var newTimelineStep: bool
    var newSlot: bool

    ghost function State(): Table reads this, audioTimeLine {
      Table(audioTimeLine[..], endsync, currentSlot, newTimelineStep, newSlot, currentEndSync)
    }

    constructor ()
      ensures State() == EMPTY && fresh(audioTimeLine)
    {
      audioTimeLine := new seq<TimeLine>[TRACKS](_ => []);
      endsync := [];
      currentEndSync := ENDSYNC_NONE;
      currentSlot := 0;
      newTimelineStep, newSlot := true, true;
      new;
      assert audioTimeLine[..] == [[], [], [], []];
    }

    // Opens a step with a row in its first slot.
    method NewStep(r: Row, sync: int)
      requires Shaped(State())
      modifies audioTimeLine, this`endsync, this`currentSlot
      ensures State() == Fresh(old(State()), r, sync)
    {
      currentSlot := 0;
      endsync := endsync + [sync];
      audioTimeLine[0] := audioTimeLine[0] + [BLANK.Push(r)];
      for i := 1 to TRACKS
        invariant endsync == old(endsync) + [sync] && currentSlot == 0
        invariant forall j | 1 <= j < i :: audioTimeLine[j] == old(audioTimeLine[j]) + [BLANK]
        invariant forall j | i <= j < TRACKS :: audioTimeLine[j] == old(audioTimeLine[j])
        invariant audioTimeLine[0] == old(audioTimeLine[0]) + [BLANK.Push(r)]
      {
        audioTimeLine[i] := audioTimeLine[i] + [BLANK];
      }
      assert audioTimeLine[..] == Fresh(old(State()), r, sync).tracks;
    }

    // Looks for a slot that is not in use.
    method FreeSlot() returns (i: nat)
      requires Shaped(State()) && endsync != []
      ensures i == FirstFree(State(), 0)
    {
      i := 0;
      while i < TRACKS && audioTimeLine[i][|endsync| - 1].files != []
        invariant i <= TRACKS && FirstFree(State(), i) == FirstFree(State(), 0)
      {
        i := i + 1;
      }
    }

    // Puts a row in a slot of the last step.
    method Append(i: nat, r: Row)
      requires Shaped(State()) && endsync != [] && i < TRACKS
      modifies audioTimeLine, this`currentSlot
      ensures State() == Into(old(State()), i, r)
    {
      var n := |endsync| - 1;
      currentSlot := i;
      audioTimeLine[i] := audioTimeLine[i][n := audioTimeLine[i][n].Push(r)];
    }

    method AddFilename(how: int, r: Row) returns (code: int)
      requires Valid(State())
      modifies audioTimeLine, this`endsync, this`currentSlot
      ensures (State(), code) == Add(old(State()), how, r)
      ensures Valid(State()) && (if code == 0 then Placed(old(State()), State(), r) else State() == old(State()))
    {
      AddKeeps(State(), how, r);
      if how != NORMAL && how != PAR && how != SEQ {
        return -1;
      }
      if Unsupported(r.file) {
        return 422;
      }
      if how == NORMAL {
        NewStep(r, ENDSYNC_NONE);
      } else if newTimelineStep {
        NewStep(r, currentEndSync);
      } else if how == PAR || newSlot {
        var i := FreeSlot();
        if i == TRACKS {
          return 435;
        }
        Append(i, r);
      } else {
        Append(currentSlot, r);
      }
      return 0;
    }

    // A file that continues what is open
    method AddNext(r: Row) returns (code: int)
      requires Valid(State())
      modifies audioTimeLine, this`endsync, this`currentSlot, this`newTimelineStep, this`newSlot
      ensures Valid(State()) && (State(), code) == AddSeq(old(State()), r)
    {
      AddSeqKeeps(State(), r);
      code := AddFilename(SEQ, r);
      if code == 0 {
        AcceptedStep(old(State()), SEQ, r);
        newSlot := false;
        newTimelineStep := false;
      }
    }

    // The files of a variable
    method AddVariable(files: seq<string>) returns (code: int)
      requires Valid(State())
      modifies audioTimeLine, this`endsync, this`currentSlot, this`newTimelineStep, this`newSlot
      ensures Valid(State())
      ensures State() == AddFiles(old(State()), files).0 && code == AddFiles(old(State()), files).2
    {
      ghost var all := AddFiles(State(), files);
      var i := 0;
      while i < |files|
        invariant i <= |files| && Valid(State())
        invariant all.0 == AddFiles(State(), files[i..]).0 && all.2 == AddFiles(State(), files[i..]).2
      {
        AddSeqKeeps(State(), VariableRow(files[i]));
        assert files[i..][1..] == files[i + 1..];
        code := AddNext(VariableRow(files[i]));
        if code != 0 {
          return;
        }
        i := i + 1;
      }
      code := 0;
    }

    // A media element of the prompt itself
    method OnMedia(row: Row) returns (code: int)
      requires Valid(State())
      modifies this, audioTimeLine
      ensures Valid(State()) && (State(), code) == Add(Child(old(State()), ENDSYNC_NONE), NORMAL, row)
    {
      FlagsKeep(State(), true, true, ENDSYNC_NONE);
      newTimelineStep, newSlot, currentEndSync := true, true, ENDSYNC_NONE;
      code := AddFilename(NORMAL, row);
    }

    // A media element inside a parallel one
    method OnParMedia(row: Row) returns (code: int)
      requires Valid(State())
      modifies this, audioTimeLine
      ensures Valid(State())
      ensures State() == Step(old(State()), ParMedia(row)).0 && code == Step(old(State()), ParMedia(row)).2
    {
      ghost var t := State();
      ParMediaKeeps(t, row);
      FlagsKeep(t, t.newStep, true, t.sync);
      newSlot := true;
      code := AddFilename(PAR, row);
      if code == 0 {
        AcceptedStep(t.(newSlot := true), PAR, row);
        newTimelineStep := false;
      }
    }

    // The variables of both places
    method OnVariable(files: seq<string>) returns (code: int)
      requires Valid(State())
      modifies this, audioTimeLine
      ensures Valid(State())
      ensures State() == Step(old(State()), Variable(files)).0 && code == Step(old(State()), Variable(files)).2
    {
      FlagsKeep(State(), true, true, ENDSYNC_NONE);
      newTimelineStep, newSlot, currentEndSync := true, true, ENDSYNC_NONE;
      code := AddVariable(files);
    }

    method OnParVariable(files: seq<string>) returns (code: int)
      requires Valid(State())
      modifies this, audioTimeLine
      ensures Valid(State())
      ensures State() == Step(old(State()), ParVariable(files)).0 && code == Step(old(State()), ParVariable(files)).2
    {
      FlagsKeep(State(), newTimelineStep, true, currentEndSync);
      newSlot := true;
      code := AddVariable(files);
    }

    // An element of the prompt
    method OnElement(e: Element) returns (code: int)
      requires Valid(State())
      modifies this, audioTimeLine
      ensures Valid(State())
      ensures State() == Step(old(State()), e).0 && code == Step(old(State()), e).2
    {
      ghost var t := State();
      StepKeeps(t, e);
      code := 0;
      match e
      case Media(row) =>
        code := OnMedia(row);
      case Variable(files) =>
        code := OnVariable(files);
      case Par(sync) =>
        newTimelineStep, newSlot, currentEndSync := true, true, sync;
      case ParMedia(row) =>
        code := OnParMedia(row);
      case ParVariable(files) =>
        code := OnParVariable(files);
      case ParSeq =>
        newSlot := true;
      case SeqMedia(row) =>
        code := AddNext(row);
      case SeqVariable(files) =>
        code := AddVariable(files);
    }
  }

  // After an accepted row there is a step.
  lemma AcceptedStep(t: Table, how: int, r: Row)
    requires Valid(t) && Add(t, how, r).1 == 0
    ensures Add(t, how, r).0.endsync != []
  {
  }
}
