/** The log files of src/core/logger.cc: rotation over base, base.1, ..., base.N. */
module LogRotation {

  type Line = string

  /** The bytes a line takes in the file, with its newline: at least one. */
  type Sizes = Line -> nat

  function LineSize(bytes: Sizes, line: Line): nat { bytes(line) + 1 }

  function FileSize(bytes: Sizes, file: seq<Line>): nat {
    if file == [] then 0 else FileSize(bytes, file[..|file| - 1]) + LineSize(bytes, file[|file| - 1])
  }

  /** What the files hold: number 0 is the file being written, `i` is base.i. */
  type Files = map<nat, seq<Line>>

  /** After a rotation there is a file of this number. */
  predicate Appears(files: Files, backups: nat, j: nat) {
    j == 0 || (if j <= backups then j - 1 in files else j in files)
  }

  function Numbers(files: Files, backups: nat): (r: set<nat>)
    ensures forall j: nat :: j in r <==> Appears(files, backups, j)
  {
    {0} + (set i <- files | i < backups :: i + 1) + (set i <- files | i > backups)
  }

  /** rotateFilesUnlocked moves every file up by one, drops base.N and starts an empty file. */
  function Shifted(files: Files, backups: nat): (r: Files)
    ensures 0 in r && r[0] == []
    ensures forall j: nat :: 0 < j <= backups ==> (j in r <==> j - 1 in files) && (j in r ==> r[j] == files[j - 1])
    ensures forall j: nat :: j > backups ==> (j in r <==> j in files) && (j in r ==> r[j] == files[j])
  {
    map j: nat | j in Numbers(files, backups) :: if j == 0 then [] else if j <= backups then files[j - 1] else files[j]
  }

  predicate RotationDue(bytes: Sizes, limit: int, backups: int, current: seq<Line>, line: Line) {
    limit > 0 && backups > 0 && FileSize(bytes, current) + LineSize(bytes, line) > limit
  }

  function Current(files: Files): seq<Line> { if 0 in files then files[0] else [] }

  function Append(files: Files, line: Line): Files { files[0 := Current(files) + [line]] }

  function Written(bytes: Sizes, limit: int, backups: int, files: Files, line: Line): Files {
    Append(if RotationDue(bytes, limit, backups, Current(files), line) then Shifted(files, backups) else files, line)
  }

  /** The files above number `i` have been moved, those up to `i` have not. */
  ghost predicate Moving(was: Files, files: Files, backups: nat, i: nat) {
    && (forall j: nat :: j <= i || j > backups ==> (j in files <==> j in was) && (j in files ==> files[j] == was[j]))
    && (forall j: nat :: i + 1 < j <= backups ==>
         (j in files <==> j - 1 in was) && (j in files ==> files[j] == was[j - 1]))
    && i + 1 !in files
  }

  function MovedUp(files: Files, i: nat): Files {
    if i in files then files[i + 1 := files[i]] - {i} else files
  }

  lemma MoveStep(was: Files, files: Files, backups: nat, i: nat)
    requires Moving(was, files, backups, i) && 0 < i < backups
    ensures Moving(was, MovedUp(files, i), backups, i - 1)
  {
  }

  /** The loop over the backups, from number `i` down. */
  function MovedDown(files: Files, i: nat): Files
    decreases i
  {
    if i == 0 then files else MovedDown(MovedUp(files, i), i - 1)
  }

  lemma {:induction false} MovedDownMoves(was: Files, files: Files, backups: nat, i: nat)
    requires Moving(was, files, backups, i) && i < backups
    ensures Moving(was, MovedDown(files, i), backups, 0)
    decreases i
  {
    if i > 0 {
      MoveStep(was, files, backups, i);
      MovedDownMoves(was, MovedUp(files, i), backups, i - 1);
    }
  }

  lemma WithoutLast(was: Files, backups: nat)
    requires backups > 0
    ensures Moving(was, was - {backups}, backups, backups - 1)
  {
  }

  lemma AllButLast(was: Files, backups: nat)
    requires backups > 0
    ensures Moving(was, MovedDown(was - {backups}, backups - 1), backups, 0)
  {
    WithoutLast(was, backups);
    MovedDownMoves(was, was - {backups}, backups, backups - 1);
  }

  /** The whole rotation is the shift. */
  lemma RotationShifts(was: Files, backups: nat)
    requires backups > 0
    ensures MovedUp(MovedDown(was - {backups}, backups - 1), 0)[0 := []] == Shifted(was, backups)
  {
    AllButLast(was, backups);
    LastMove(was, MovedDown(was - {backups}, backups - 1), backups);
  }

  lemma LastMove(was: Files, files: Files, backups: nat)
    requires Moving(was, files, backups, 0) && backups > 0
    ensures MovedUp(files, 0)[0 := []] == Shifted(was, backups)
  {
    var a, b := MovedUp(files, 0)[0 := []], Shifted(was, backups);
    forall j: nat ensures (j in a <==> j in b) && (j in a ==> a[j] == b[j]) {
      if j == 1 { assert j in b <==> 0 in was; }
    }
  }

  // ---------------------------------------------------------------- the code

  class LogFile {
    const bytes: Sizes
    const maxSize: int
    const maxBackups: int
    var files: Files

    /** The files an earlier process left are kept; base is opened for appending. */
    constructor (bytes: Sizes, maxSize: int, maxBackups: int, found: Files)
      ensures files == found[0 := Current(found)]
      ensures this.bytes == bytes && this.maxSize == maxSize && this.maxBackups == maxBackups
    {
      this.bytes, this.maxSize, this.maxBackups := bytes, maxSize, maxBackups;
      files := found[0 := Current(found)];
    }

    /** QFile::remove(dst) and QFile::rename(src, dst). */
    method MoveUp(src: nat)
      requires src in files
      modifies this
      ensures files == MovedUp(old(files), src)
    {
      files := files - {src + 1};
      files := files[src + 1 := files[src]] - {src};
    }

    method RotateFiles()
      requires maxBackups > 0
      modifies this
      ensures files == Shifted(old(files), maxBackups)
    {
      files := files - {maxBackups};
      ghost var start := files;
      var i := maxBackups - 1;
      while i >= 1
        invariant 0 <= i < maxBackups && MovedDown(files, i) == MovedDown(start, maxBackups - 1)
      {
        if i in files {
          MoveUp(i);
        }
        i := i - 1;
      }
      if 0 in files {
        MoveUp(0);
      }
      files := files[0 := []];
      RotationShifts(old(files), maxBackups);
    }

    method RotateIfNeeded(line: Line)
      modifies this
      ensures files == if RotationDue(bytes, maxSize, maxBackups, Current(old(files)), line)
                       then Shifted(old(files), maxBackups) else old(files)
    {
      if maxSize <= 0 || maxBackups <= 0 {
        return;
      }
      if FileSize(bytes, Current(files)) + LineSize(bytes, line) <= maxSize {
        return;
      }
      RotateFiles();
    }

    method WriteTextLine(line: Line)
      modifies this
      ensures files == Written(bytes, maxSize, maxBackups, old(files), line)
    {
      RotateIfNeeded(line);
      files := Append(files, line);
    }
  }

  // ---------------------------------------------------------------- any sequence of lines

  /** The files after writing the lines, from those a process finds. */
  function After(bytes: Sizes, limit: int, backups: int, start: Files, lines: seq<Line>): Files
    decreases |lines|
  {
    if lines == [] then start
    else Written(bytes, limit, backups, After(bytes, limit, backups, start, lines[..|lines| - 1]), lines[|lines| - 1])
  }

  /** base.n, ..., base.1, base read one after the other. */
  function Text(files: Files, n: nat): seq<Line> {
    (if n in files then files[n] else []) + if n == 0 then [] else Text(files, n - 1)
  }

  lemma {:induction false} TextAppend(files: Files, n: nat, line: Line)
    ensures Text(Append(files, line), n) == Text(files, n) + [line]
    decreases n
  {
    if n > 0 {
      TextAppend(files, n - 1, line);
      var head := if n in files then files[n] else [];
      assert head + (Text(files, n - 1) + [line]) == head + Text(files, n - 1) + [line];
    }
  }

  lemma {:induction false} TextShift(files: Files, backups: nat, n: nat)
    requires n < backups
    ensures Text(Shifted(files, backups), n + 1) == Text(files, n)
    decreases n
  {
    var r := Shifted(files, backups);
    if n == 0 {
      assert Text(r, 1) == (if 1 in r then r[1] else []) + ([] + []);
      assert Text(files, 0) == (if 0 in files then files[0] else []) + [];
    } else {
      TextShift(files, backups, n - 1);
    }
  }

  ghost predicate IsSuffix(t: seq<Line>, all: seq<Line>) { |t| <= |all| && t == all[|all| - |t|..] }

  /** No gap below the last of base.n, ..., base.1, base. */
  ghost predicate Contiguous(files: Files, n: nat) { forall j: nat :: j < n && j + 1 in files ==> j in files }

  /** A file above the limit holds one line, or was found so. */
  ghost predicate SmallFiles(bytes: Sizes, limit: int, found: set<seq<Line>>, files: Files) {
    forall j <- files :: FileSize(bytes, files[j]) <= limit || |files[j]| == 1 || files[j] in found
  }

  ghost predicate SameAbove(a: Files, b: Files, n: nat) {
    forall j: nat :: j > n ==> (j in a <==> j in b) && (j in a ==> a[j] == b[j])
  }

  /** A rotation forgets the oldest backup, and nothing else. */
  lemma ShiftForgets(files: Files, backups: nat)
    requires backups > 0
    ensures Text(files, backups)
         == (if backups in files then files[backups] else []) + Text(Shifted(files, backups), backups)
  {
    TextShift(files, backups, backups - 1);
  }

  // ---------------------------------------------------------------- what each write keeps

  lemma SuffixOfSuffix(head: seq<Line>, t: seq<Line>, all: seq<Line>)
    requires IsSuffix(head + t, all)
    ensures IsSuffix(t, all)
  {
    assert t == (head + t)[|head|..];
  }

  lemma SuffixGrows(t: seq<Line>, all: seq<Line>, line: Line)
    requires IsSuffix(t, all)
    ensures IsSuffix(t + [line], all + [line]) && (t + [line] == all + [line] <==> t == all)
  {
    assert t + [line] == (all + [line])[|all| - |t|..];
    if t + [line] == all + [line] { assert t == (t + [line])[..|t|] && |t| == |all|; }
  }

  lemma WriteKeepsSuffix(bytes: Sizes, limit: int, backups: int, files: Files, all: seq<Line>, line: Line)
    requires backups > 0 && IsSuffix(Text(files, backups), all)
    ensures IsSuffix(Text(Written(bytes, limit, backups, files, line), backups), all + [line])
  {
    var r := if RotationDue(bytes, limit, backups, Current(files), line) then Shifted(files, backups) else files;
    if r != files {
      ShiftForgets(files, backups);
      SuffixOfSuffix(if backups in files then files[backups] else [], Text(r, backups), all);
    }
    TextAppend(r, backups, line);
    SuffixGrows(Text(r, backups), all, line);
  }

  /** Nothing is gone, or all backups exist. */
  ghost predicate LostOnlyWhenFull(files: Files, backups: nat, all: seq<Line>) {
    Contiguous(files, backups) && (Text(files, backups) != all ==> backups in files)
  }

  lemma ShiftKeepsContiguous(files: Files, backups: nat)
    requires backups > 0 && Contiguous(files, backups)
    ensures Contiguous(Shifted(files, backups), backups)
    ensures backups in files ==> backups in Shifted(files, backups)
  {
    var r := Shifted(files, backups);
    if backups in files { assert backups - 1 + 1 in files; }
    forall j: nat | j < backups && j + 1 in r ensures j in r {
      if 0 < j { assert j - 1 + 1 in files; }
    }
  }

  lemma ShiftKeepsFull(files: Files, backups: nat, all: seq<Line>)
    requires backups > 0 && LostOnlyWhenFull(files, backups, all)
    ensures LostOnlyWhenFull(Shifted(files, backups), backups, all)
  {
    ShiftKeepsContiguous(files, backups);
    if backups !in files { ShiftKeepsText(files, backups); }
  }

  lemma ShiftKeepsText(files: Files, backups: nat)
    requires backups > 0 && backups !in files
    ensures Text(Shifted(files, backups), backups) == Text(files, backups)
  {
    ShiftForgets(files, backups);
    assert [] + Text(Shifted(files, backups), backups) == Text(Shifted(files, backups), backups);
  }

  lemma AppendKeepsFull(files: Files, backups: nat, all: seq<Line>, line: Line)
    requires IsSuffix(Text(files, backups), all) && LostOnlyWhenFull(files, backups, all)
    ensures LostOnlyWhenFull(Append(files, line), backups, all + [line])
  {
    TextAppend(files, backups, line);
    SuffixGrows(Text(files, backups), all, line);
  }

  lemma WriteKeepsFull(bytes: Sizes, limit: int, backups: int, files: Files, all: seq<Line>, line: Line)
    requires backups > 0 && IsSuffix(Text(files, backups), all) && LostOnlyWhenFull(files, backups, all)
    ensures LostOnlyWhenFull(Written(bytes, limit, backups, files, line), backups, all + [line])
  {
    if RotationDue(bytes, limit, backups, Current(files), line) {
      ShiftKeepsFull(files, backups, all);
      ShiftForgets(files, backups);
      SuffixOfSuffix(if backups in files then files[backups] else [], Text(Shifted(files, backups), backups), all);
      AppendKeepsFull(Shifted(files, backups), backups, all, line);
    } else {
      AppendKeepsFull(files, backups, all, line);
    }
  }

  lemma AppendSmall(bytes: Sizes, limit: int, found: set<seq<Line>>, files: Files, line: Line)
    requires SmallFiles(bytes, limit, found, files)
    requires Current(files) == [] || FileSize(bytes, Current(files)) + LineSize(bytes, line) <= limit
    ensures SmallFiles(bytes, limit, found, Append(files, line))
  {
    var file := Current(files) + [line];
    assert file[..|file| - 1] == Current(files);
  }

  lemma ShiftKeepsSmall(bytes: Sizes, limit: int, found: set<seq<Line>>, files: Files, backups: nat)
    requires limit > 0 && SmallFiles(bytes, limit, found, files)
    ensures SmallFiles(bytes, limit, found, Shifted(files, backups))
  {
    assert FileSize(bytes, []) == 0;
  }

  lemma WriteKeepsSmall(bytes: Sizes, limit: int, backups: int, found: set<seq<Line>>, files: Files, line: Line)
    requires limit > 0 && backups > 0 && SmallFiles(bytes, limit, found, files)
    ensures SmallFiles(bytes, limit, found, Written(bytes, limit, backups, files, line))
  {
    if RotationDue(bytes, limit, backups, Current(files), line) {
      ShiftKeepsSmall(bytes, limit, found, files, backups);
      AppendSmall(bytes, limit, found, Shifted(files, backups), line);
    } else {
      AppendSmall(bytes, limit, found, files, line);
    }
  }

  // ---------------------------------------------------------------- main results

  /** The text is the newest part of what was there and what was written, in order and without a
      gap; a file above the limit holds one line or was found above it; and backups beyond N, which
      a larger N has left, are not touched. */
  ghost predicate KeepsNewest(bytes: Sizes, limit: int, backups: nat, start: Files, lines: seq<Line>, files: Files) {
    && IsSuffix(Text(files, backups), Text(start, backups) + lines)
    && SmallFiles(bytes, limit, start.Values, files)
    && SameAbove(files, start, backups)
  }

  lemma WriteKeepsAbove(bytes: Sizes, limit: int, backups: int, start: Files, files: Files, line: Line)
    requires backups > 0 && SameAbove(files, start, backups)
    ensures SameAbove(Written(bytes, limit, backups, files, line), start, backups)
  {
  }

  lemma NewestStep(bytes: Sizes, limit: int, backups: int, start: Files, front: seq<Line>, line: Line, files: Files)
    requires limit > 0 && backups > 0 && KeepsNewest(bytes, limit, backups, start, front, files)
    ensures KeepsNewest(bytes, limit, backups, start, front + [line], Written(bytes, limit, backups, files, line))
  {
    var text := Text(start, backups);
    WriteKeepsSuffix(bytes, limit, backups, files, text + front, line);
    assert text + front + [line] == text + (front + [line]);
    WriteKeepsSmall(bytes, limit, backups, start.Values, files, line);
    WriteKeepsAbove(bytes, limit, backups, start, files, line);
  }

  lemma AfterLast(bytes: Sizes, limit: int, backups: int, start: Files, front: seq<Line>, line: Line)
    ensures After(bytes, limit, backups, start, front + [line])
         == Written(bytes, limit, backups, After(bytes, limit, backups, start, front), line)
  {
    assert (front + [line])[..|front|] == front;
  }

  lemma NothingWritten(bytes: Sizes, limit: int, backups: nat, start: Files)
    ensures KeepsNewest(bytes, limit, backups, start, [], start)
    ensures Contiguous(start, backups) ==> LostOnlyWhenFull(start, backups, Text(start, backups) + [])
  {
    assert Text(start, backups) + [] == Text(start, backups);
  }

  lemma {:induction false} NewestStays(bytes: Sizes, limit: int, backups: int, start: Files, lines: seq<Line>)
    requires limit > 0 && backups > 0
    ensures KeepsNewest(bytes, limit, backups, start, lines, After(bytes, limit, backups, start, lines))
    decreases |lines|
  {
    if lines == [] {
      NothingWritten(bytes, limit, backups, start);
    } else {
      var front, line := lines[..|lines| - 1], lines[|lines| - 1];
      assert front + [line] == lines;
      NewestStays(bytes, limit, backups, start, front);
      NewestStep(bytes, limit, backups, start, front, line, After(bytes, limit, backups, start, front));
      AfterLast(bytes, limit, backups, start, front, line);
    }
  }

  lemma FullStep(bytes: Sizes, limit: int, backups: int, start: Files, front: seq<Line>, line: Line, files: Files)
    requires limit > 0 && backups > 0 && KeepsNewest(bytes, limit, backups, start, front, files)
    requires LostOnlyWhenFull(files, backups, Text(start, backups) + front)
    ensures LostOnlyWhenFull(Written(bytes, limit, backups, files, line), backups,
                             Text(start, backups) + (front + [line]))
  {
    var text := Text(start, backups);
    WriteKeepsFull(bytes, limit, backups, files, text + front, line);
    assert text + front + [line] == text + (front + [line]);
  }

  lemma {:induction false} FullStays(bytes: Sizes, limit: int, backups: int, start: Files, lines: seq<Line>)
    requires limit > 0 && backups > 0 && Contiguous(start, backups)
    ensures LostOnlyWhenFull(After(bytes, limit, backups, start, lines), backups, Text(start, backups) + lines)
    decreases |lines|
  {
    if lines == [] {
      NothingWritten(bytes, limit, backups, start);
    } else {
      var front, line := lines[..|lines| - 1], lines[|lines| - 1];
      assert front + [line] == lines;
      FullStays(bytes, limit, backups, start, front);
      NewestStays(bytes, limit, backups, start, front);
      FullStep(bytes, limit, backups, start, front, line, After(bytes, limit, backups, start, front));
      AfterLast(bytes, limit, backups, start, front, line);
    }
  }

  /** Rotation never loses or reorders more than it must, whatever lines are written and whatever
      files an earlier process has left. If those have no gap, a line is gone only once the current
      file and all N backups exist. */
  lemma RotationKeepsNewestLines(bytes: Sizes, limit: int, backups: int, start: Files, lines: seq<Line>)
    requires limit > 0 && backups > 0
    ensures var files := After(bytes, limit, backups, start, lines);
            && KeepsNewest(bytes, limit, backups, start, lines, files)
            && (Contiguous(start, backups) && |Text(files, backups)| < |Text(start, backups)| + |lines| ==>
                  forall j: nat :: j <= backups ==> j in files)
  {
    NewestStays(bytes, limit, backups, start, lines);
    if Contiguous(start, backups) {
      var files := After(bytes, limit, backups, start, lines);
      FullStays(bytes, limit, backups, start, lines);
      if backups in files { AllBelow(files, backups, backups); }
    }
  }

  lemma {:induction false} AllBelow(files: Files, n: nat, top: nat)
    requires Contiguous(files, top) && n in files && n <= top
    ensures forall j: nat :: j <= n ==> j in files
    decreases n
  {
    if n > 0 { AllBelow(files, n - 1, top); }
  }

  /** From a first start, with no file but an empty one. */
  lemma FirstStart(bytes: Sizes, limit: int, backups: int, start: Files, lines: seq<Line>)
    requires limit > 0 && backups > 0 && start == map[0 := []]
    ensures var files := After(bytes, limit, backups, start, lines);
            && IsSuffix(Text(files, backups), lines)
            && (|Text(files, backups)| < |lines| ==> forall j: nat :: j <= backups ==> j in files)
            && (forall j <- files :: j <= backups && (FileSize(bytes, files[j]) > limit ==> |files[j]| == 1))
  {
    RotationKeepsNewestLines(bytes, limit, backups, start, lines);
    EmptyText(backups);
    assert Text(start, backups) + lines == lines;
    FromEmpty(bytes, limit, backups, start, After(bytes, limit, backups, start, lines));
  }

  lemma FromEmpty(bytes: Sizes, limit: int, backups: nat, start: Files, files: Files)
    requires limit > 0 && start == map[0 := []]
    requires SmallFiles(bytes, limit, start.Values, files) && SameAbove(files, start, backups)
    ensures forall j <- files :: j <= backups && (FileSize(bytes, files[j]) > limit ==> |files[j]| == 1)
  {
    assert FileSize(bytes, []) == 0;
  }

  lemma {:induction false} EmptyText(n: nat)
    ensures Text(map[0 := []], n) == []
    decreases n
  {
    if n > 0 { EmptyText(n - 1); }
  }

  // ---------------------------------------------------------------- no needless rotation

  /** What one write does: a line that fits is appended to base and nothing else changes; a line that
      does not is alone in base, with the former base moved to base.1. */
  lemma WriteOutcome(bytes: Sizes, limit: int, backups: int, files: Files, line: Line)
    requires limit > 0 && backups > 0
    ensures var r := Written(bytes, limit, backups, files, line);
            if FileSize(bytes, Current(files)) + bytes(line) + 1 <= limit
            then r == files[0 := Current(files) + [line]]
            else r[0] == [line] && (0 in files ==> 1 in r && r[1] == files[0])
  {
    assert [] + [line] == [line];
  }

  /** No file was closed too early: the next line, the first of its successor, did not fit. */
  ghost predicate Packed(bytes: Sizes, limit: int, backups: nat, files: Files) {
    && (forall j: nat :: j < backups && j in files && j + 1 in files && files[j] != [] ==>
          FileSize(bytes, files[j + 1]) + LineSize(bytes, files[j][0]) > limit)
    && (Current(files) == [] ==> 1 !in files)
  }

  lemma WriteKeepsPacked(bytes: Sizes, limit: int, backups: int, files: Files, line: Line)
    requires limit > 0 && backups > 0 && 0 in files && Packed(bytes, limit, backups, files)
    ensures var r := Written(bytes, limit, backups, files, line); 0 in r && Packed(bytes, limit, backups, r)
  {
    var r := Written(bytes, limit, backups, files, line);
    WriteOutcome(bytes, limit, backups, files, line);
    forall j: nat | j < backups && j in r && j + 1 in r && r[j] != []
      ensures FileSize(bytes, r[j + 1]) + LineSize(bytes, r[j][0]) > limit
    {
      if RotationDue(bytes, limit, backups, Current(files), line) {
        if j > 0 { assert j - 1 in files && j - 1 + 1 in files; }
      } else if j == 0 {
        assert files[0] != [] ==> r[0][0] == files[0][0];
      }
    }
  }

  /** Every file is filled before the next one is begun: from a first start, or from files that were
      so. */
  lemma {:induction false} FilesAreFilled(bytes: Sizes, limit: int, backups: int, start: Files, lines: seq<Line>)
    requires limit > 0 && backups > 0
    requires start == map[0 := []] || (0 in start && Packed(bytes, limit, backups, start))
    ensures var files := After(bytes, limit, backups, start, lines); 0 in files && Packed(bytes, limit, backups, files)
    decreases |lines|
  {
    if lines != [] {
      var front, line := lines[..|lines| - 1], lines[|lines| - 1];
      assert front + [line] == lines;
      FilesAreFilled(bytes, limit, backups, start, front);
      WriteKeepsPacked(bytes, limit, backups, After(bytes, limit, backups, start, front), line);
      AfterLast(bytes, limit, backups, start, front, line);
    }
  }

  // ---------------------------------------------------------------- no rotation

  lemma WriteWithoutRotation(bytes: Sizes, limit: int, backups: int, start: Files, front: seq<Line>, line: Line)
    requires limit <= 0 || backups <= 0
    ensures Written(bytes, limit, backups, start[0 := Current(start) + front], line)
         == start[0 := Current(start) + (front + [line])]
  {
    assert Current(start) + front + [line] == Current(start) + (front + [line]);
  }

  /** Without a limit or without backups nothing ever rotates: the lines are appended to what the
      process found. */
  lemma {:induction false} NoRotationKeepsAll(bytes: Sizes, limit: int, backups: int, start: Files, lines: seq<Line>)
    requires limit <= 0 || backups <= 0
    ensures After(bytes, limit, backups, start, lines)
         == if lines == [] then start else start[0 := Current(start) + lines]
    decreases |lines|
  {
    if lines != [] {
      var front, line := lines[..|lines| - 1], lines[|lines| - 1];
      assert front + [line] == lines;
      NoRotationKeepsAll(bytes, limit, backups, start, front);
      WriteWithoutRotation(bytes, limit, backups, start, front, line);
      if front == [] { assert Current(start) + lines == Current(start) + [line]; }
    }
  }
}
