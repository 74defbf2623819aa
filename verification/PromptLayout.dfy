// A prompt as it is written, and where each of its files is to be played: the steps one after the other, and
// the tracks of a step together.
module PromptLayout {
  import opened Timeline

  // A media element, or a variable with the files that it stands for
  datatype Item = One(row: Row) | Files(files: seq<string>)

  // A branch of a parallel element: an item, or a sequence of them
  datatype Branch = Alone(item: Item) | Several(items: seq<Item>)

  datatype Part = Plain(item: Item) | Parallel(sync: int, branches: seq<Branch>)

  // A step: how it ends, and its tracks, each with its rows
  datatype Scene = Scene(sync: int, tracks: seq<seq<Row>>)

  // ---- what is to be played ----

  // The files of a variable up to the first that cannot be played, each as a whole at full level
  function PlayedRows(files: seq<string>): seq<Row> {
    if files == [] || Unsupported(files[0]) then []
    else [Row(files[0], 30000, 100, 0, 0)] + PlayedRows(files[1..])
  }

  function ItemRows(item: Item): seq<Row> {
    match item
    case One(row) => if Unsupported(row.file) then [] else [row]
    case Files(files) => PlayedRows(files)
  }

  function AllRows(items: seq<Item>): seq<Row> {
    if items == [] then [] else ItemRows(items[0]) + AllRows(items[1..])
  }

  function BranchRows(branch: Branch): seq<Row> {
    match branch
    case Alone(item) => ItemRows(item)
    case Several(items) => AllRows(items)
  }

  // The branches with something to play, a track each, as long as there are tracks
  function Together(tracks: seq<seq<Row>>, branches: seq<Branch>): seq<seq<Row>>
    decreases |branches|
  {
    if branches == [] then tracks
    else
      var rows := BranchRows(branches[0]);
      Together(if rows == [] || |tracks| == 4 then tracks else tracks + [rows], branches[1..])
  }

  // A step for each part with something to play
  function Scenes(part: Part): seq<Scene> {
    var scene :=
      match part
      case Plain(item) => Scene(-1, if ItemRows(item) == [] then [] else [ItemRows(item)])
      case Parallel(sync, branches) => Scene(sync, Together([], branches));
    if scene.tracks == [] then [] else [scene]
  }

  function Played(parts: seq<Part>): seq<Scene> {
    if parts == [] then [] else Scenes(parts[0]) + Played(parts[1..])
  }

  // ---- how a prompt is written ----

  function SeqElement(item: Item): Element {
    match item
    case One(row) => SeqMedia(row)
    case Files(files) => SeqVariable(files)
  }

  function SeqElements(items: seq<Item>): seq<Element> {
    if items == [] then [] else [SeqElement(items[0])] + SeqElements(items[1..])
  }

  function BranchElements(branch: Branch): seq<Element> {
    match branch
    case Alone(One(row)) => [ParMedia(row)]
    case Alone(Files(files)) => [ParVariable(files)]
    case Several(items) => [ParSeq] + SeqElements(items)
  }

  function BranchesElements(branches: seq<Branch>): seq<Element> {
    if branches == [] then [] else BranchElements(branches[0]) + BranchesElements(branches[1..])
  }

  function PartElements(part: Part): seq<Element> {
    match part
    case Plain(One(row)) => [Media(row)]
    case Plain(Files(files)) => [Variable(files)]
    case Parallel(sync, branches) => [Par(sync)] + BranchesElements(branches)
  }

  function Written(parts: seq<Part>): seq<Element> {
    if parts == [] then [] else PartElements(parts[0]) + Written(parts[1..])
  }

  // ---- the table as scenes ----

  // The tracks in use from the i-th on
  function TracksFrom(t: Table, k: nat, i: nat): (r: seq<seq<Row>>)
    requires Shaped(t) && k < |t.endsync| && i <= TRACKS
    ensures |r| <= TRACKS - i
    decreases TRACKS - i
  {
    if i == TRACKS || t.tracks[i][k].files == [] then [] else [t.tracks[i][k].Rows()] + TracksFrom(t, k, i + 1)
  }

  function ScenesTo(t: Table, n: nat): (r: seq<Scene>)
    requires Shaped(t) && n <= |t.endsync|
    ensures |r| == n
  {
    if n == 0 then [] else ScenesTo(t, n - 1) + [Scene(t.endsync[n - 1], TracksFrom(t, n - 1, 0))]
  }

  function Layout(t: Table): (r: seq<Scene>)
    requires Shaped(t)
    ensures |r| == |t.endsync|
  {
    ScenesTo(t, |t.endsync|)
  }

  lemma {:induction false} TracksSame(t: Table, t': Table, k: nat, i: nat)
    requires Shaped(t) && Shaped(t') && k < |t.endsync| && k < |t'.endsync| && i <= TRACKS
    requires forall j | i <= j < TRACKS :: t.tracks[j][k] == t'.tracks[j][k]
    ensures TracksFrom(t, k, i) == TracksFrom(t', k, i)
    decreases TRACKS - i
  {
    if i < TRACKS { TracksSame(t, t', k, i + 1); }
  }

  lemma {:induction false} ScenesSame(t: Table, t': Table, n: nat)
    requires Shaped(t) && Shaped(t') && n <= |t.endsync| && n <= |t'.endsync|
    requires forall i, k | 0 <= i < TRACKS && 0 <= k < n :: t.tracks[i][k] == t'.tracks[i][k]
    requires t.endsync[..n] == t'.endsync[..n]
    ensures ScenesTo(t, n) == ScenesTo(t', n)
  {
    if n > 0 {
      assert t.endsync[..n][..n - 1] == t.endsync[..n - 1] && t'.endsync[..n][..n - 1] == t'.endsync[..n - 1];
      assert t.endsync[..n][n - 1] == t.endsync[n - 1] && t'.endsync[..n][n - 1] == t'.endsync[n - 1];
      ScenesSame(t, t', n - 1);
      TracksSame(t, t', n - 1, 0);
    }
  }

  // The current slot of the last step is its last track.
  lemma {:induction false} TracksCount(t: Table, k: nat, last: nat, i: nat)
    requires Shaped(t) && k < |t.endsync| && last < TRACKS && UsedTo(t, k, last) && i <= last + 1
    ensures |TracksFrom(t, k, i)| == last + 1 - i
    decreases TRACKS - i
  {
    if i <= last { TracksCount(t, k, last, i + 1); }
  }

  lemma LastScene(t: Table)
    requires Valid(t) && t.endsync != []
    ensures var n := |t.endsync| - 1;
            && Layout(t) == ScenesTo(t, n) + [Scene(t.endsync[n], TracksFrom(t, n, 0))]
            && |TracksFrom(t, n, 0)| == t.slot + 1
  {
    var n := |t.endsync| - 1;
    assert UsedTo(t, n, t.slot);
    TracksCount(t, n, t.slot, 0);
  }

  // ---- what an addition does to the scenes ----

  lemma FreshLayout(t: Table, r: Row, sync: int)
    requires Valid(t)
    ensures Valid(Fresh(t, r, sync)) && Layout(Fresh(t, r, sync)) == Layout(t) + [Scene(sync, [[r]])]
  {
    var t', n := Fresh(t, r, sync), |t.endsync|;
    FreshKeeps(t, r, sync);
    ScenesSame(t, t', n);
    LastScene(t');
    PushRows(BLANK, r);
    assert BLANK.Rows() == [] && [] + [r] == [r];
    assert t'.tracks[0][n] == BLANK.Push(r) && t'.tracks[1][n] == BLANK;
    assert TracksFrom(t', n, 1) == [];
    assert TracksFrom(t', n, 0) == [[r]] + [] == [[r]];
  }

  // Tracks with one more row: in a new track, or at the end of the k-th
  function Grown(tracks: seq<seq<Row>>, k: nat, r: Row): seq<seq<Row>>
    requires k <= |tracks|
  {
    if k == |tracks| then tracks + [[r]] else tracks[k := tracks[k] + [r]]
  }

  lemma GrownBehind(rows: seq<Row>, more: seq<seq<Row>>, k: nat, r: Row)
    requires k <= |more|
    ensures Grown([rows] + more, k + 1, r) == [rows] + Grown(more, k, r)
  {
  }

  lemma {:induction false} TracksInto(t: Table, i: nat, r: Row, j: nat)
    requires Valid(t) && t.endsync != [] && i < TRACKS && (i == t.slot || i == t.slot + 1) && j <= i
    ensures Shaped(Into(t, i, r)) && |TracksFrom(t, |t.endsync| - 1, j)| == t.slot + 1 - j
    ensures TracksFrom(Into(t, i, r), |t.endsync| - 1, j) == Grown(TracksFrom(t, |t.endsync| - 1, j), i - j, r)
    decreases TRACKS - j
  {
    var t', n := Into(t, i, r), |t.endsync| - 1;
    IntoShaped(t, i, r);
    assert UsedTo(t, n, t.slot);
    TracksCount(t, n, t.slot, j);
    if j == i {
      IntoAt(t, i, r);
    } else {
      TracksInto(t, i, r, j + 1);
      IntoElsewhere(t, i, r, j);
      GrownBehind(t.tracks[j][n].Rows(), TracksFrom(t, n, j + 1), i - (j + 1), r);
    }
  }

  lemma IntoElsewhere(t: Table, i: nat, r: Row, j: nat)
    requires Valid(t) && t.endsync != [] && i < TRACKS && (i == t.slot || i == t.slot + 1) && j < i
    ensures Shaped(Into(t, i, r))
    ensures var n := |t.endsync| - 1;
            && TracksFrom(t, n, j) == [t.tracks[j][n].Rows()] + TracksFrom(t, n, j + 1)
            && TracksFrom(Into(t, i, r), n, j) == [t.tracks[j][n].Rows()] + TracksFrom(Into(t, i, r), n, j + 1)
  {
    var t', n := Into(t, i, r), |t.endsync| - 1;
    IntoShaped(t, i, r);
    assert UsedTo(t, n, t.slot);
    assert t'.tracks[j][n] == t.tracks[j][n] && t.tracks[j][n].files != [];
  }

  lemma IntoAt(t: Table, i: nat, r: Row)
    requires Valid(t) && t.endsync != [] && i < TRACKS && (i == t.slot || i == t.slot + 1)
    ensures Shaped(Into(t, i, r)) && |TracksFrom(t, |t.endsync| - 1, i)| == t.slot + 1 - i
    ensures TracksFrom(Into(t, i, r), |t.endsync| - 1, i) == Grown(TracksFrom(t, |t.endsync| - 1, i), 0, r)
  {
    var t', n := Into(t, i, r), |t.endsync| - 1;
    IntoShaped(t, i, r);
    assert UsedTo(t, n, t.slot);
    TracksCount(t, n, t.slot, i);
    PushRows(t.tracks[i][n], r);
    BlankRowsIf(t.tracks[i][n]);
    assert t'.tracks[i][n] == t.tracks[i][n].Push(r);
    if i + 1 < TRACKS { assert t'.tracks[i + 1][n] == t.tracks[i + 1][n] && t.tracks[i + 1][n].files == []; }
    assert TracksFrom(t', n, i + 1) == [];
    if i == t.slot { assert TracksFrom(t, n, i + 1) == []; }
    assert [] + [r] == [r];
  }

  lemma BlankRowsIf(tl: TimeLine)
    requires tl.Square()
    ensures tl.files == [] ==> tl.Rows() == []
  {
  }

  // The scenes with other tracks in the last one
  function WithLast(scenes: seq<Scene>, tracks: seq<seq<Row>>): seq<Scene>
    requires scenes != []
  {
    scenes[..|scenes| - 1] + [scenes[|scenes| - 1].(tracks := tracks)]
  }

  function LastTracks(t: Table): (tracks: seq<seq<Row>>)
    requires Shaped(t) && t.endsync != []
  {
    Layout(t)[|t.endsync| - 1].tracks
  }

  lemma IntoLayout(t: Table, i: nat, r: Row)
    requires Valid(t) && t.endsync != [] && i < TRACKS && (i == t.slot || i == t.slot + 1)
    ensures Valid(Into(t, i, r)) && |LastTracks(t)| == t.slot + 1
    ensures Layout(Into(t, i, r)) == WithLast(Layout(t), Grown(LastTracks(t), i, r))
  {
    var t', n := Into(t, i, r), |t.endsync| - 1;
    IntoKeeps(t, i, r);
    TracksInto(t, i, r, 0);
    LastScene(t);
    LastScene(t');
    ScenesSame(t, t', n);
  }

  lemma FlagsLayout(t: Table, newStep: bool, newSlot: bool, sync: int)
    requires Valid(t) && (!newStep ==> t.endsync != [])
    ensures var t' := t.(newStep := newStep, newSlot := newSlot, sync := sync);
            Valid(t') && Layout(t') == Layout(t)
  {
    FlagsKeep(t, newStep, newSlot, sync);
    ScenesSame(t, t.(newStep := newStep, newSlot := newSlot, sync := sync), |t.endsync|);
  }

  // ---- inside a parallel element ----

  // The element has these tracks so far, behind the scenes before it.
  ghost predicate Outer(t: Table, base: seq<Scene>, sync: int, tracks: seq<seq<Row>>) {
    && Valid(t) && t.sync == sync && |tracks| <= TRACKS && (t.newStep <==> tracks == [])
    && Layout(t) == base + if tracks == [] then [] else [Scene(sync, tracks)]
  }

  // With the rows of one more branch, if there is a track for it
  function With(tracks: seq<seq<Row>>, rows: seq<Row>): seq<seq<Row>> {
    if rows == [] || |tracks| == TRACKS then tracks else tracks + [rows]
  }

  // One of its branches has given these rows so far.
  ghost predicate Inner(t: Table, base: seq<Scene>, sync: int, tracks: seq<seq<Row>>, rows: seq<Row>) {
    && Outer(t, base, sync, With(tracks, rows)) && |tracks| <= TRACKS
    && (t.newSlot <==> rows == [] || |tracks| == TRACKS)
  }

  lemma OuterLast(t: Table, base: seq<Scene>, sync: int, tracks: seq<seq<Row>>)
    requires Outer(t, base, sync, tracks) && tracks != []
    ensures t.endsync != [] && LastTracks(t) == tracks && t.slot == |tracks| - 1
    ensures forall more :: WithLast(Layout(t), more) == base + [Scene(sync, more)]
  {
    LastScene(t);
    assert |Layout(t)| == |base| + 1;
  }

  lemma AddSeqInner(t: Table, base: seq<Scene>, sync: int, tracks: seq<seq<Row>>, rows: seq<Row>, row: Row)
    requires Inner(t, base, sync, tracks, rows)
    ensures Inner(AddSeq(t, row).0, base, sync, tracks, rows + ItemRows(One(row)))
    ensures Unsupported(row.file) ==> AddSeq(t, row) == (t, 422)
    ensures AddSeq(t, row).1 != 0 ==> Unsupported(row.file) || |tracks| == TRACKS
  {
    if Unsupported(row.file) {
      assert rows + [] == rows;
    } else if t.newStep {
      AddOpens(t, base, sync, row);
    } else {
      OuterLast(t, base, sync, With(tracks, rows));
      FreeIsNext(t);
      if |tracks| < TRACKS {
        var i := if rows == [] then t.slot + 1 else t.slot;
        IntoLayout(t, i, row);
        AddContinues(t, i, base, sync, tracks, rows, row);
      }
    }
  }

  lemma AddOpens(t: Table, base: seq<Scene>, sync: int, row: Row)
    requires Inner(t, base, sync, [], []) && t.newStep && !Unsupported(row.file)
    ensures AddSeq(t, row).1 == 0 && Inner(AddSeq(t, row).0, base, sync, [], [] + [row])
  {
    FreshLayout(t, row, t.sync);
    FlagsLayout(Fresh(t, row, t.sync), false, false, t.sync);
    assert [] + [[row]] == [[row]] && [] + [row] == [row];
  }

  lemma GrownIs(tracks: seq<seq<Row>>, rows: seq<Row>, row: Row)
    requires |tracks| < TRACKS
    ensures |tracks| <= |With(tracks, rows)| && Grown(With(tracks, rows), |tracks|, row) == With(tracks, rows + [row])
  {
    if rows == [] { assert rows + [row] == [row]; }
  }

  lemma AddSeqInto(t: Table, i: nat, row: Row)
    requires Valid(t) && !t.newStep && !Unsupported(row.file) && i < TRACKS && t.endsync != []
    requires i == if t.newSlot then FirstFree(t, 0) else t.slot
    ensures AddSeq(t, row) == (Into(t, i, row).(newStep := false, newSlot := false), 0)
  {
  }

  lemma AddContinues(t: Table, i: nat, base: seq<Scene>, sync: int, tracks: seq<seq<Row>>, rows: seq<Row>, row: Row)
    requires Inner(t, base, sync, tracks, rows) && !t.newStep && |tracks| < TRACKS && !Unsupported(row.file)
    requires i == (if rows == [] then t.slot + 1 else t.slot) && i < TRACKS
    requires t.endsync != [] && LastTracks(t) == With(tracks, rows) && t.slot == |With(tracks, rows)| - 1
    requires FirstFree(t, 0) == t.slot + 1 && Valid(Into(t, i, row))
    requires Layout(Into(t, i, row)) == base + [Scene(sync, Grown(With(tracks, rows), i, row))]
    ensures AddSeq(t, row).1 == 0 && Inner(AddSeq(t, row).0, base, sync, tracks, rows + [row])
  {
    GrownIs(tracks, rows, row);
    AddSeqInto(t, i, row);
    FlagsLayout(Into(t, i, row), false, false, t.sync);
  }

  lemma {:induction false} FilesInner(t: Table, base: seq<Scene>, sync: int, tracks: seq<seq<Row>>, rows: seq<Row>,
                                      files: seq<string>)
    requires Inner(t, base, sync, tracks, rows)
    ensures Inner(AddFiles(t, files).0, base, sync, tracks, rows + PlayedRows(files))
    decreases |files|
  {
    if files == [] {
      assert rows + PlayedRows(files) == rows;
    } else {
      var row := VariableRow(files[0]);
      FileInner(t, base, sync, tracks, rows, files);
      if AddSeq(t, row).1 == 0 {
        FilesInner(AddSeq(t, row).0, base, sync, tracks, rows + ItemRows(One(row)), files[1..]);
      }
    }
  }

  lemma FilesStep(t: Table, files: seq<string>)
    requires Valid(t) && files != []
    ensures var (t1, code) := AddSeq(t, VariableRow(files[0]));
            Valid(t1) && AddFiles(t, files).0 == if code == 0 then AddFiles(t1, files[1..]).0 else t1
  {
    AddSeqKeeps(t, VariableRow(files[0]));
  }

  lemma FileRow(files: seq<string>)
    requires files != []
    ensures ItemRows(One(VariableRow(files[0]))) == if Unsupported(files[0]) then [] else [VariableRow(files[0])]
    ensures PlayedRows(files)
         == if Unsupported(files[0]) then [] else ItemRows(One(VariableRow(files[0]))) + PlayedRows(files[1..])
  {
  }

  lemma RowsPlayed(rows: seq<Row>, files: seq<string>)
    requires files != []
    ensures var row := VariableRow(files[0]);
            if Unsupported(files[0]) then rows + ItemRows(One(row)) == rows == rows + PlayedRows(files)
            else rows + ItemRows(One(row)) + PlayedRows(files[1..]) == rows + PlayedRows(files)
  {
    FileRow(files);
    Regroup(rows, ItemRows(One(VariableRow(files[0]))), PlayedRows(files[1..]));
  }

  lemma Regroup<T>(a: seq<T>, b: seq<T>, c: seq<T>)
    ensures a + b + c == a + (b + c) && a + [] == a
  {
  }

  // Without a track left the rows do not matter.
  lemma FullInner(t: Table, base: seq<Scene>, sync: int, tracks: seq<seq<Row>>, rows: seq<Row>, more: seq<Row>)
    requires Inner(t, base, sync, tracks, rows) && |tracks| == TRACKS
    ensures Inner(t, base, sync, tracks, more)
  {
  }

  // The first file: the others go on behind it, or it was refused and they are left out.
  lemma FileInner(t: Table, base: seq<Scene>, sync: int, tracks: seq<seq<Row>>, rows: seq<Row>, files: seq<string>)
    requires files != [] && Inner(t, base, sync, tracks, rows)
    ensures var row := VariableRow(files[0]); var (t1, code) := AddSeq(t, row);
            && Inner(t1, base, sync, tracks, rows + ItemRows(One(row)))
            && AddFiles(t, files).0 == (if code == 0 then AddFiles(t1, files[1..]).0 else t1)
            && (code == 0 ==> rows + ItemRows(One(row)) + PlayedRows(files[1..]) == rows + PlayedRows(files))
            && (code != 0 ==> Inner(t1, base, sync, tracks, rows + PlayedRows(files)))
  {
    var row := VariableRow(files[0]);
    FilesStep(t, files);
    RowsPlayed(rows, files);
    AddSeqInner(t, base, sync, tracks, rows, row);
    var (t1, code) := AddSeq(t, row);
    if code != 0 && !Unsupported(files[0]) {
      FullInner(t1, base, sync, tracks, rows + ItemRows(One(row)), rows + PlayedRows(files));
    }
  }

  lemma SeqMediaIs(t: Table, row: Row)
    requires Valid(t)
    ensures Step(t, SeqMedia(row)).0 == AddSeq(t, row).0
  {
  }

  // An item of a branch
  lemma ItemInner(t: Table, base: seq<Scene>, sync: int, tracks: seq<seq<Row>>, rows: seq<Row>, item: Item)
    requires Inner(t, base, sync, tracks, rows)
    ensures Inner(Step(t, SeqElement(item)).0, base, sync, tracks, rows + ItemRows(item))
  {
    match item
    case One(row) =>
      AddSeqInner(t, base, sync, tracks, rows, row);
      SeqMediaIs(t, row);
    case Files(files) =>
      FilesInner(t, base, sync, tracks, rows, files);
      SeqVariableIs(t, files);
  }

  lemma SeqVariableIs(t: Table, files: seq<string>)
    requires Valid(t)
    ensures Step(t, SeqVariable(files)).0 == AddFiles(t, files).0
  {
  }

  lemma RunOne(t: Table, e: Element, es: seq<Element>)
    requires Valid(t)
    ensures Valid(Step(t, e).0) && Run(t, [e] + es).0 == Run(Step(t, e).0, es).0
  {
    StepKeeps(t, e);
    assert ([e] + es)[1..] == es;
  }

  lemma {:induction false} RunBoth(t: Table, a: seq<Element>, b: seq<Element>)
    requires Valid(t)
    ensures Valid(Run(t, a).0) && Run(t, a + b).0 == Run(Run(t, a).0, b).0
    decreases |a|
  {
    if a == [] {
      assert a + b == b;
    } else {
      RunOne(t, a[0], a[1..]);
      RunOne(t, a[0], a[1..] + b);
      assert a == [a[0]] + a[1..] && a + b == [a[0]] + (a[1..] + b);
      RunBoth(Step(t, a[0]).0, a[1..], b);
    }
  }

  lemma {:induction false} ItemsInner(t: Table, base: seq<Scene>, sync: int, tracks: seq<seq<Row>>, rows: seq<Row>,
                                      items: seq<Item>)
    requires Inner(t, base, sync, tracks, rows)
    ensures Inner(Run(t, SeqElements(items)).0, base, sync, tracks, rows + AllRows(items))
    decreases |items|
  {
    if items == [] {
      assert rows + AllRows(items) == rows;
    } else {
      FirstItem(t, base, sync, tracks, rows, items);
      RowsFirst(rows, items);
      ItemsInner(Step(t, SeqElement(items[0])).0, base, sync, tracks, rows + ItemRows(items[0]), items[1..]);
    }
  }

  lemma FirstItem(t: Table, base: seq<Scene>, sync: int, tracks: seq<seq<Row>>, rows: seq<Row>, items: seq<Item>)
    requires items != [] && Inner(t, base, sync, tracks, rows)
    ensures var t1 := Step(t, SeqElement(items[0])).0;
            && Inner(t1, base, sync, tracks, rows + ItemRows(items[0]))
            && Run(t, SeqElements(items)).0 == Run(t1, SeqElements(items[1..])).0
  {
    ItemInner(t, base, sync, tracks, rows, items[0]);
    RunOne(t, SeqElement(items[0]), SeqElements(items[1..]));
  }

  lemma RowsFirst(rows: seq<Row>, items: seq<Item>)
    requires items != []
    ensures rows + ItemRows(items[0]) + AllRows(items[1..]) == rows + AllRows(items)
  {
  }

  lemma BranchStarts(t: Table, base: seq<Scene>, sync: int, tracks: seq<seq<Row>>)
    requires Outer(t, base, sync, tracks)
    ensures Inner(t.(newSlot := true), base, sync, tracks, [])
  {
    FlagsLayout(t, t.newStep, true, t.sync);
  }

  // A media element of a parallel one opens a track.
  lemma ParMediaOuter(t: Table, base: seq<Scene>, sync: int, tracks: seq<seq<Row>>, row: Row)
    requires Outer(t, base, sync, tracks)
    ensures Outer(Step(t, ParMedia(row)).0, base, sync, With(tracks, ItemRows(One(row))))
  {
    var t0 := t.(newSlot := true);
    BranchStarts(t, base, sync, tracks);
    AddSeqInner(t0, base, sync, tracks, [], row);
    assert [] + ItemRows(One(row)) == ItemRows(One(row));
    ParMediaIs(t, row);
    OuterAnyhow(AddSeq(t0, row).0, base, sync, With(tracks, ItemRows(One(row))), Step(t, ParMedia(row)).0.newSlot);
  }

  // With a new slot due, both ways of adding do the same, but for the flag that is set again at the next branch.
  lemma ParMediaIs(t: Table, row: Row)
    requires Valid(t)
    ensures var t', p := AddSeq(t.(newSlot := true), row).0, Step(t, ParMedia(row)).0;
            p == t'.(newSlot := p.newSlot)
  {
  }

  lemma OuterAnyhow(t: Table, base: seq<Scene>, sync: int, tracks: seq<seq<Row>>, newSlot: bool)
    requires Outer(t, base, sync, tracks)
    ensures Outer(t.(newSlot := newSlot), base, sync, tracks)
  {
    FlagsLayout(t, t.newStep, newSlot, t.sync);
  }

  lemma BranchOuter(t: Table, base: seq<Scene>, sync: int, tracks: seq<seq<Row>>, branch: Branch)
    requires Outer(t, base, sync, tracks)
    ensures Outer(Run(t, BranchElements(branch)).0, base, sync, With(tracks, BranchRows(branch)))
  {
    match branch
    case Alone(One(row)) =>
      ParMediaOuter(t, base, sync, tracks, row);
      RunOne(t, ParMedia(row), []);
    case Alone(Files(files)) => ParFilesOuter(t, base, sync, tracks, files);
    case Several(items) => ParSeqOuter(t, base, sync, tracks, items);
  }

  lemma ParFilesOuter(t: Table, base: seq<Scene>, sync: int, tracks: seq<seq<Row>>, files: seq<string>)
    requires Outer(t, base, sync, tracks)
    ensures Outer(Run(t, [ParVariable(files)]).0, base, sync, With(tracks, PlayedRows(files)))
  {
    BranchStarts(t, base, sync, tracks);
    FilesInner(t.(newSlot := true), base, sync, tracks, [], files);
    assert [] + PlayedRows(files) == PlayedRows(files) && [ParVariable(files)] + [] == [ParVariable(files)];
    RunOne(t, ParVariable(files), []);
  }

  lemma ParSeqOuter(t: Table, base: seq<Scene>, sync: int, tracks: seq<seq<Row>>, items: seq<Item>)
    requires Outer(t, base, sync, tracks)
    ensures Outer(Run(t, [ParSeq] + SeqElements(items)).0, base, sync, With(tracks, AllRows(items)))
  {
    BranchStarts(t, base, sync, tracks);
    RunOne(t, ParSeq, SeqElements(items));
    ItemsInner(t.(newSlot := true), base, sync, tracks, [], items);
    assert [] + AllRows(items) == AllRows(items);
  }

  lemma {:induction false} BranchesOuter(t: Table, base: seq<Scene>, sync: int, tracks: seq<seq<Row>>,
                                         branches: seq<Branch>)
    requires Outer(t, base, sync, tracks)
    ensures Outer(Run(t, BranchesElements(branches)).0, base, sync, Together(tracks, branches))
    decreases |branches|
  {
    if branches != [] {
      BranchOuter(t, base, sync, tracks, branches[0]);
      RunBoth(t, BranchElements(branches[0]), BranchesElements(branches[1..]));
      var t1 := Run(t, BranchElements(branches[0])).0;
      BranchesOuter(t1, base, sync, With(tracks, BranchRows(branches[0])), branches[1..]);
    }
  }

  // ---- whole prompts ----

  lemma PlainLayout(t: Table, item: Item)
    requires Valid(t)
    ensures var t' := Run(t, PartElements(Plain(item))).0;
            Valid(t') && Layout(t') == Layout(t) + Scenes(Plain(item))
  {
    var t0 := Child(t, ENDSYNC_NONE);
    FlagsLayout(t, true, true, ENDSYNC_NONE);
    assert Layout(t) + [] == Layout(t);
    match item
    case One(row) =>
      FreshLayout(t0, row, ENDSYNC_NONE);
      RunOne(t, Media(row), []);
    case Files(files) =>
      FilesInner(t0, Layout(t), ENDSYNC_NONE, [], [], files);
      assert [] + PlayedRows(files) == PlayedRows(files) && [] + [PlayedRows(files)] == [PlayedRows(files)];
      RunOne(t, Variable(files), []);
  }

  lemma ParallelLayout(t: Table, sync: int, branches: seq<Branch>)
    requires Valid(t)
    ensures var t' := Run(t, PartElements(Parallel(sync, branches))).0;
            Valid(t') && Layout(t') == Layout(t) + Scenes(Parallel(sync, branches))
  {
    FlagsLayout(t, true, true, sync);
    RunOne(t, Par(sync), BranchesElements(branches));
    assert Layout(t) + [] == Layout(t);
    BranchesOuter(Child(t, sync), Layout(t), sync, [], branches);
  }

  lemma FirstPart(t: Table, parts: seq<Part>)
    requires Valid(t) && parts != []
    ensures var t1 := Run(t, PartElements(parts[0])).0;
            && Valid(t1) && Layout(t1) == Layout(t) + Scenes(parts[0])
            && Run(t, Written(parts)).0 == Run(t1, Written(parts[1..])).0
  {
    match parts[0] {
      case Plain(item) => PlainLayout(t, item);
      case Parallel(sync, branches) => ParallelLayout(t, sync, branches);
    }
    RunBoth(t, PartElements(parts[0]), Written(parts[1..]));
  }

  lemma PlayedFirst(scenes: seq<Scene>, parts: seq<Part>)
    requires parts != []
    ensures scenes + Scenes(parts[0]) + Played(parts[1..]) == scenes + Played(parts)
  {
    var rest := Played(parts[1..]);
    assert Played(parts) == Scenes(parts[0]) + rest;
  }

  lemma {:induction false} PartsLayout(t: Table, parts: seq<Part>)
    requires Valid(t)
    ensures Valid(Run(t, Written(parts)).0) && Layout(Run(t, Written(parts)).0) == Layout(t) + Played(parts)
    decreases |parts|
  {
    if parts == [] {
      assert Layout(t) + Played(parts) == Layout(t);
    } else {
      FirstPart(t, parts);
      PlayedFirst(Layout(t), parts);
      PartsLayout(Run(t, PartElements(parts[0])).0, parts[1..]);
    }
  }

  // Every prompt is laid out as it is written: a step for each part with something to play, and in a
  // parallel one a track for each such branch, up to four, with the branch's files one after the other.
  lemma PromptIsLaidOut(parts: seq<Part>)
    ensures Valid(EMPTY)
    ensures var t := Run(EMPTY, Written(parts)).0;
            Valid(t) && Layout(t) == Played(parts)
  {
    EmptyLayout();
    PartsLayout(EMPTY, parts);
    assert [] + Played(parts) == Played(parts);
  }

  lemma EmptyLayout()
    ensures Valid(EMPTY) && Layout(EMPTY) == []
  {
    EmptyValid();
  }
}
