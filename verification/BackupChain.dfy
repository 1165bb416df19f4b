/**
 writeWholeFileWithBackup and readWholeFileWithRecovery of src/base/io.cc under crashes: a write is
 a series of atomic file-system calls, any of which may fail, and the process may die between any
 two of them. A file holds one of the committed versions, named by its place in the commit log.
*/
module BackupChain {
  import opened Sequences

  type Bytes = seq<bv8>

  datatype Name = Primary | Bak | Bak2

  datatype Disk = Disk(files: map<Name, nat>, log: seq<Bytes>)

  datatype Call = RemoveFile(name: Name) | CopyFile(src: Name, dst: Name) | Commit(data: Bytes)

  /** One call; `ok` is false when the operating system refuses it. QFile::copy does not overwrite. */
  function Do(d: Disk, c: Call, ok: bool): Disk {
    if !ok then d
    else
      match c
      case RemoveFile(name) => d.(files := d.files - {name})
      case CopyFile(src, dst) =>
        if src in d.files && dst !in d.files then d.(files := d.files[dst := d.files[src]]) else d
      case Commit(data) => Disk(d.files[Primary := |d.log|], d.log + [data])
  }

  /** The calls of writeWholeFileWithBackup; which ones are made depends on the files at the start
      only, as the existence of .bak is asked before anything changes. */
  function Plan(d: Disk, data: Bytes): seq<Call> {
    (if Primary in d.files then
       (if Bak in d.files then [RemoveFile(Bak2), CopyFile(Bak, Bak2)] else [])
       + [RemoveFile(Bak), CopyFile(Primary, Bak)]
     else [])
    + [Commit(data)]
  }

  function Perform(d: Disk, calls: seq<Call>, oks: seq<bool>): Disk
    requires |calls| == |oks|
    decreases |calls|
  {
    if calls == [] then d
    else Do(Perform(d, calls[..|calls| - 1], oks[..|oks| - 1]), calls[|calls| - 1], oks[|oks| - 1])
  }

  /** A write that gets through the first `|oks|` calls of its plan; fewer than all is a crash. */
  datatype Attempt = Attempt(data: Bytes, oks: seq<bool>)

  predicate Fits(d: Disk, a: Attempt) { |a.oks| <= |Plan(d, a.data)| }

  function After(d: Disk, a: Attempt): Disk
    requires Fits(d, a)
  {
    Perform(d, Plan(d, a.data)[..|a.oks|], a.oks)
  }

  predicate Legal(run: seq<Attempt>)
    decreases |run|, 0
  {
    run == [] || (Legal(run[..|run| - 1]) && Fits(Reached(run[..|run| - 1]), run[|run| - 1]))
  }

  /** The disk after a run of attempts from nothing. The state between any two calls is reached by
      the run whose last attempt stops there. */
  function Reached(run: seq<Attempt>): Disk
    requires Legal(run)
    decreases |run|, 1
  {
    if run == [] then Disk(map[], []) else After(Reached(run[..|run| - 1]), run[|run| - 1])
  }

  // ---------------------------------------------------------------- the order of versions

  /** The primary holds the last commit, and along the chain no version is newer than the one before. */
  ghost predicate Ordered(d: Disk) {
    && (Primary in d.files <==> d.log != [])
    && (Primary in d.files ==> d.files[Primary] == |d.log| - 1)
    && (forall n <- d.files :: Primary in d.files && d.files[n] <= d.files[Primary])
    && (Bak in d.files && Bak2 in d.files ==> d.files[Bak2] <= d.files[Bak])
  }

  /** A call of a plan. */
  predicate Planned(c: Call) {
    || c.Commit? || c == RemoveFile(Bak2) || c == RemoveFile(Bak)
    || c == CopyFile(Bak, Bak2) || c == CopyFile(Primary, Bak)
  }

  lemma {:induction false} PerformKeepsOrder(d: Disk, calls: seq<Call>, oks: seq<bool>)
    requires Ordered(d) && |calls| == |oks| && forall c <- calls :: Planned(c)
    ensures Ordered(Perform(d, calls, oks))
    decreases |calls|
  {
    if calls != [] {
      assert calls[|calls| - 1] in calls;
      PerformKeepsOrder(d, calls[..|calls| - 1], oks[..|oks| - 1]);
    }
  }

  lemma PlanIsPlanned(d: Disk, a: Attempt)
    requires Fits(d, a)
    ensures forall c <- Plan(d, a.data)[..|a.oks|] :: Planned(c)
  {
    assert forall c <- Plan(d, a.data) :: Planned(c);
  }

  /** Whatever fails and whenever the process dies: the primary is the last committed version, and
      the versions never increase along path, .bak, .bak2. */
  lemma {:induction false} PrimaryIsLastCommit(run: seq<Attempt>)
    requires Legal(run)
    ensures Ordered(Reached(run))
    decreases |run|
  {
    if run != [] {
      var d, a := Reached(run[..|run| - 1]), run[|run| - 1];
      PrimaryIsLastCommit(run[..|run| - 1]);
      PlanIsPlanned(d, a);
      PerformKeepsOrder(d, Plan(d, a.data)[..|a.oks|], a.oks);
    }
  }

  // ---------------------------------------------------------------- a backup at all times

  predicate BackedUp(d: Disk) { |d.log| >= 2 ==> Bak in d.files || Bak2 in d.files }

  /** No copy call is refused; removals and commits may be. */
  predicate CopiesSucceed(d: Disk, a: Attempt)
    requires Fits(d, a)
  {
    forall i :: 0 <= i < |a.oks| && Plan(d, a.data)[i].CopyFile? ==> a.oks[i]
  }

  ghost predicate AllCopiesSucceed(run: seq<Attempt>)
    requires Legal(run)
    decreases |run|
  {
    run == [] || (AllCopiesSucceed(run[..|run| - 1]) && CopiesSucceed(Reached(run[..|run| - 1]), run[|run| - 1]))
  }

  /** The disk after the first `n` calls of a plan with these outcomes, call by call. */
  function Stage(d: Disk, a: Attempt, n: nat): Disk
    requires Fits(d, a) && n <= |a.oks|
  {
    if n == 0 then d else Do(Stage(d, a, n - 1), Plan(d, a.data)[n - 1], a.oks[n - 1])
  }

  lemma {:induction false} StageIsPerform(d: Disk, a: Attempt, n: nat)
    requires Fits(d, a) && n <= |a.oks|
    ensures Stage(d, a, n) == Perform(d, Plan(d, a.data)[..n], a.oks[..n])
    decreases n
  {
    if n > 0 {
      StageIsPerform(d, a, n - 1);
      assert Plan(d, a.data)[..n][..n - 1] == Plan(d, a.data)[..n - 1] && a.oks[..n][..n - 1] == a.oks[..n - 1];
    }
  }

  /** The attempt got to call `i` of its plan and the system granted it. */
  predicate Granted(a: Attempt, i: nat) { i < |a.oks| && a.oks[i] }

  /** The write leaves no backup although two versions have been committed. With a .bak to rotate,
      it was removed, neither copy went through, and no old .bak2 is left; without one, there is no
      .bak2 either and the copy was refused. */
  predicate Loses(d: Disk, a: Attempt) {
    if Primary !in d.files then false
    else if Bak in d.files then
      && Granted(a, 2) && !Granted(a, 1) && !Granted(a, 3)
      && (Bak2 in d.files ==> Granted(a, 0)) && (|d.log| >= 2 || Granted(a, 4))
    else Bak2 !in d.files && !Granted(a, 1) && (|d.log| >= 2 || Granted(a, 2))
  }

  lemma FullRotation(d: Disk, a: Attempt)
    requires Fits(d, a) && Ordered(d) && Bak in d.files
    ensures var e, n := Stage(d, a, |a.oks|), |a.oks|;
            && (Bak in e.files <==> !Granted(a, 2) || Granted(a, 3))
            && (!Granted(a, 1) ==> (Bak2 in e.files <==> Bak2 in d.files && !Granted(a, 0)))
            && (Granted(a, 1) ==> Bak2 in e.files)
            && |e.log| == |d.log| + if Granted(a, 4) then 1 else 0
  {
    var n, plan := |a.oks|, Plan(d, a.data);
    assert plan == [RemoveFile(Bak2), CopyFile(Bak, Bak2), RemoveFile(Bak), CopyFile(Primary, Bak), Commit(a.data)];
    if n >= 1 { assert Stage(d, a, 1) == Do(Stage(d, a, 0), plan[0], a.oks[0]); }
    if n >= 2 { assert Stage(d, a, 2) == Do(Stage(d, a, 1), plan[1], a.oks[1]); }
    if n >= 3 { assert Stage(d, a, 3) == Do(Stage(d, a, 2), plan[2], a.oks[2]); }
    if n >= 4 { assert Stage(d, a, 4) == Do(Stage(d, a, 3), plan[3], a.oks[3]); }
    if n >= 5 { assert Stage(d, a, 5) == Do(Stage(d, a, 4), plan[4], a.oks[4]); }
  }

  lemma ShortRotation(d: Disk, a: Attempt)
    requires Fits(d, a) && Ordered(d) && Bak !in d.files && Primary in d.files
    ensures var e := Stage(d, a, |a.oks|);
            && (Bak in e.files <==> Granted(a, 1)) && (Bak2 in e.files <==> Bak2 in d.files)
            && |e.log| == |d.log| + if Granted(a, 2) then 1 else 0
  {
    var n, plan := |a.oks|, Plan(d, a.data);
    assert plan == [RemoveFile(Bak), CopyFile(Primary, Bak), Commit(a.data)];
    if n >= 1 { assert Stage(d, a, 1) == Do(Stage(d, a, 0), plan[0], a.oks[0]); }
    if n >= 2 { assert Stage(d, a, 2) == Do(Stage(d, a, 1), plan[1], a.oks[1]); }
    if n >= 3 { assert Stage(d, a, 3) == Do(Stage(d, a, 2), plan[2], a.oks[2]); }
  }

  lemma FirstWrite(d: Disk, a: Attempt)
    requires Fits(d, a) && Ordered(d) && Primary !in d.files
    ensures |Stage(d, a, |a.oks|).log| <= 1
  {
    assert Plan(d, a.data) == [Commit(a.data)];
    if |a.oks| > 0 { assert Stage(d, a, 1) == Do(Stage(d, a, 0), Commit(a.data), a.oks[0]); }
  }

  /** Exactly when a write, complete or cut short by a crash, leaves no backup behind. */
  lemma LosesExactly(d: Disk, a: Attempt)
    requires Fits(d, a) && Ordered(d) && BackedUp(d)
    ensures BackedUp(After(d, a)) <==> !Loses(d, a)
  {
    var n := |a.oks|;
    StageIsPerform(d, a, n);
    assert Plan(d, a.data)[..n] == Plan(d, a.data)[..|a.oks|] && a.oks[..n] == a.oks;
    if Primary !in d.files {
      FirstWrite(d, a);
    } else if Bak in d.files {
      FullRotation(d, a);
    } else {
      ShortRotation(d, a);
    }
  }

  /** The attempt as it stands after its first `k` calls. */
  function Cut(a: Attempt, k: nat): Attempt
    requires k <= |a.oks|
  {
    a.(oks := a.oks[..k])
  }

  /** Between any two calls of the run there is a backup once two versions have been committed. */
  ghost predicate BackedUpThroughout(run: seq<Attempt>)
    requires Legal(run)
    decreases |run|
  {
    run == [] || (
      var d, a := Reached(run[..|run| - 1]), run[|run| - 1];
      && BackedUpThroughout(run[..|run| - 1])
      && forall k: nat :: k <= |a.oks| ==> BackedUp(After(d, Cut(a, k))))
  }

  /** No write of the run, at any of its calls, has lost the last backup. */
  ghost predicate NeverLoses(run: seq<Attempt>)
    requires Legal(run)
    decreases |run|
  {
    run == [] || (
      var d, a := Reached(run[..|run| - 1]), run[|run| - 1];
      NeverLoses(run[..|run| - 1]) && forall k: nat :: k <= |a.oks| ==> !Loses(d, Cut(a, k)))
  }

  lemma BackedUpAtEnd(run: seq<Attempt>)
    requires Legal(run) && BackedUpThroughout(run)
    ensures BackedUp(Reached(run))
  {
    if run != [] {
      var d, a := Reached(run[..|run| - 1]), run[|run| - 1];
      assert Cut(a, |a.oks|) == a;
      assert BackedUp(After(d, Cut(a, |a.oks|)));
    }
  }

  /** From the second commit on there is a backup beside the primary between any two calls of a
      run, exactly when no write has lost it. */
  lemma {:induction false} AlwaysABackup(run: seq<Attempt>)
    requires Legal(run)
    ensures BackedUpThroughout(run) <==> NeverLoses(run)
    decreases |run|
  {
    if run != [] {
      var front, a := run[..|run| - 1], run[|run| - 1];
      AlwaysABackup(front);
      if BackedUpThroughout(front) {
        BackedUpAtEnd(front);
        PrimaryIsLastCommit(front);
        forall k: nat | k <= |a.oks|
          ensures BackedUp(After(Reached(front), Cut(a, k))) <==> !Loses(Reached(front), Cut(a, k))
        {
          LosesExactly(Reached(front), Cut(a, k));
        }
      }
    }
  }

  lemma CopiesPreventLoss(d: Disk, a: Attempt, k: nat)
    requires Fits(d, a) && Ordered(d) && BackedUp(d) && CopiesSucceed(d, a) && k <= |a.oks|
    ensures !Loses(d, Cut(a, k))
  {
    var plan := Plan(d, a.data);
    if Primary in d.files && Bak in d.files && k >= 3 {
      assert plan[1] == CopyFile(Bak, Bak2);
      assert Granted(Cut(a, k), 1);
    } else if Primary in d.files && Bak !in d.files && k >= 3 {
      assert plan[1] == CopyFile(Primary, Bak);
      assert Granted(Cut(a, k), 1);
    }
  }

  /** While no copy is refused, no write loses the last backup. */
  lemma {:induction false} CopiesSuffice(run: seq<Attempt>)
    requires Legal(run) && AllCopiesSucceed(run)
    ensures NeverLoses(run) && BackedUpThroughout(run)
    decreases |run|
  {
    if run != [] {
      var front, a := run[..|run| - 1], run[|run| - 1];
      CopiesSuffice(front);
      BackedUpAtEnd(front);
      PrimaryIsLastCommit(front);
      forall k: nat | k <= |a.oks| ensures !Loses(Reached(front), Cut(a, k)) {
        CopiesPreventLoss(Reached(front), a, k);
      }
    }
    AlwaysABackup(run);
  }

  /** When both copies are refused, on a full disk say, one write takes every backup with it. */
  lemma RefusedCopiesLoseBackups(d: Disk, data: Bytes)
    requires Ordered(d) && Primary in d.files && Bak in d.files
    ensures var a := Attempt(data, [true, false, true, false]);
            Fits(d, a) && After(d, a).files.Keys == {Primary} && After(d, a).log == d.log
  {
    var a := Attempt(data, [true, false, true, false]);
    StageIsPerform(d, a, 4);
    assert Plan(d, data)[..4] == Plan(d, data)[..|a.oks|] && a.oks[..4] == a.oks;
    FullRotation(d, a);
    PlanIsPlanned(d, a);
    PerformKeepsOrder(d, Plan(d, data)[..4], a.oks);
    var e := After(d, a);
    assert Bak !in e.files && Bak2 !in e.files;
    forall n | n in e.files ensures n == Primary { }
    PrimaryStays(d, a);
  }

  lemma PrimaryStays(d: Disk, a: Attempt)
    requires a.oks == [true, false, true, false] && Primary in d.files && Bak in d.files
    ensures Fits(d, a) && Primary in After(d, a).files && After(d, a).log == d.log
  {
    var plan := Plan(d, a.data);
    assert plan == [RemoveFile(Bak2), CopyFile(Bak, Bak2), RemoveFile(Bak), CopyFile(Primary, Bak), Commit(a.data)];
    StageIsPerform(d, a, 4);
    assert plan[..4] == plan[..|a.oks|] && a.oks[..4] == a.oks;
    assert Stage(d, a, 2) == Stage(d, a, 1) == Do(d, plan[0], true);
    assert Stage(d, a, 4) == Stage(d, a, 3) == Do(Stage(d, a, 2), plan[2], true);
  }

  /** A single refusal can be enough: of the only copy of a second write, or of the first copy of a
      rotation that then crashes. And it need not be: a rotation whose second copy is refused still
      has its .bak2. */
  lemma OneRefusalMayLose(d: Disk, data: Bytes)
    requires Ordered(d) && Primary in d.files
    ensures d.files.Keys == {Primary} && |d.log| == 1 ==> Loses(d, Attempt(data, [true, false, true]))
    ensures Bak in d.files && |d.log| >= 2 ==> Loses(d, Attempt(data, [true, false, true]))
    ensures Bak in d.files ==> !Loses(d, Attempt(data, [true, true, true, false, true]))
  {
  }

  /** A write that gets through moves the previous primary to .bak, and .bak to .bak2. */
  lemma CompleteWriteShifts(d: Disk, data: Bytes)
    requires Ordered(d)
    ensures var plan := Plan(d, data);
            var e := Perform(d, plan, seq(|plan|, i => true));
            && Primary in e.files && e.files[Primary] == |d.log| && e.log == d.log + [data]
            && (Primary in d.files ==> Bak in e.files && e.files[Bak] == d.files[Primary])
            && (Bak in d.files ==> Bak2 in e.files && e.files[Bak2] == d.files[Bak])
  {
    var plan := Plan(d, data);
    var a := Attempt(data, seq(|plan|, i => true));
    StageIsPerform(d, a, |plan|);
    assert plan[..|plan|] == plan && a.oks[..|plan|] == a.oks;
    if Primary in d.files && Bak in d.files {
      assert plan == [RemoveFile(Bak2), CopyFile(Bak, Bak2), RemoveFile(Bak), CopyFile(Primary, Bak), Commit(data)];
      assert Stage(d, a, 1).files == d.files - {Bak2};
      assert Stage(d, a, 2).files == (d.files - {Bak2})[Bak2 := d.files[Bak]];
      assert Stage(d, a, 3).files == Stage(d, a, 2).files - {Bak};
      assert Stage(d, a, 4).files == Stage(d, a, 3).files[Bak := d.files[Primary]];
      assert Stage(d, a, 4).log == d.log;
    } else if Primary in d.files {
      assert plan == [RemoveFile(Bak), CopyFile(Primary, Bak), Commit(data)];
      assert Stage(d, a, 1).files == d.files;
      assert Stage(d, a, 2).files == d.files[Bak := d.files[Primary]];
      assert Stage(d, a, 2).log == d.log;
    } else {
      assert plan == [Commit(data)];
      assert Stage(d, a, 0) == d;
    }
  }

  // ---------------------------------------------------------------- recovery

  /** A file that can be read and is not empty. */
  predicate Usable(d: Disk, readable: set<Name>, n: Name) {
    n in d.files && n in readable && d.files[n] < |d.log| && d.log[d.files[n]] != []
  }

  function Place(n: Name): nat { if n == Primary then 0 else if n == Bak then 1 else 2 }

  /** readWholeFileWithRecovery: the candidate that is taken. */
  method ReadWithRecovery(d: Disk, readable: set<Name>) returns (r: Option<Name>)
    requires Ordered(d)
    ensures r.Some? ==> Usable(d, readable, r.value)
    ensures r.Some? ==> r.value in d.files && r.value in readable && d.log[d.files[r.value]] != []
    ensures r.None? ==> forall n <- d.files :: n in readable ==> d.log[d.files[n]] == []
    ensures r.Some? ==> forall n :: Usable(d, readable, n) ==> d.files[n] <= d.files[r.value]
    ensures r.None? ==> forall n :: !Usable(d, readable, n)
  {
    var candidates := [Primary, Bak, Bak2];
    for i := 0 to |candidates|
      invariant forall n :: Place(n) < i ==> !Usable(d, readable, n)
    {
      var n := candidates[i];
      if n in d.files && n in readable {
        if d.log[d.files[n]] != [] {
          return Some(n);
        }
      }
    }
    forall n <- d.files | n in readable ensures d.log[d.files[n]] == [] {
      assert Place(n) < |candidates|;
      assert !Usable(d, readable, n);
    }
    return None;
  }

  /** Something can still be read after the loss of one file. */
  ghost predicate Survives(d: Disk, lost: Name) {
    exists n :: n != lost && Usable(d, {Primary, Bak, Bak2} - {lost}, n)
  }

  /** From the second commit on, and with no empty contents committed, the loss of any one file
      leaves something to recover exactly when there is a backup; and while the primary is there,
      that is the last commit. */
  lemma OneLossIsRecoverable(run: seq<Attempt>)
    requires Legal(run) && |Reached(run).log| >= 2 && forall v <- Reached(run).log :: v != []
    ensures (forall lost :: Survives(Reached(run), lost)) <==> BackedUp(Reached(run))
    ensures NeverLoses(run) ==> forall lost :: Survives(Reached(run), lost)
    ensures forall lost | lost != Primary ::
              && Usable(Reached(run), {Primary, Bak, Bak2} - {lost}, Primary)
              && Reached(run).files[Primary] == |Reached(run).log| - 1
  {
    var d := Reached(run);
    PrimaryIsLastCommit(run);
    AlwaysABackup(run);
    if NeverLoses(run) { BackedUpAtEnd(run); }
    forall n | n in d.files ensures d.log[d.files[n]] in d.log { }
    forall lost | lost != Primary ensures Usable(d, {Primary, Bak, Bak2} - {lost}, Primary) { }
    if BackedUp(d) {
      forall lost ensures Survives(d, lost) {
        var n := if lost != Primary then Primary else if Bak in d.files then Bak else Bak2;
        assert Usable(d, {Primary, Bak, Bak2} - {lost}, n);
      }
    } else {
      assert !Survives(d, Primary);
    }
  }

  // ---------------------------------------------------------------- the code

  class Storage {
    var disk: Disk

    constructor ()
      ensures disk == Disk(map[], [])
    {
      disk := Disk(map[], []);
    }

    /** One more call after those in `calls`. */
    method Issue(c: Call, refuse: Call -> bool, ghost was: Disk, ghost calls: seq<Call>)
      requires disk == Perform(was, calls, Outcomes(calls, refuse))
      modifies this
      ensures disk == Perform(was, calls + [c], Outcomes(calls + [c], refuse))
    {
      PerformOne(was, calls, c, refuse);
      disk := Do(disk, c, !refuse(c));
    }

    /** writeWholeFileWithBackup; `refuse` tells which calls the system refuses. */
    method WriteWholeFileWithBackup(data: Bytes, refuse: Call -> bool) returns (ok: bool)
      modifies this
      ensures disk == Perform(old(disk), Plan(old(disk), data), Outcomes(Plan(old(disk), data), refuse))
      ensures ok == !refuse(Commit(data))
    {
      ghost var was, plan := disk, Plan(disk, data);
      ghost var n := 0;
      if Primary in disk.files {
        if Bak in disk.files {
          Issue(RemoveFile(Bak2), refuse, was, plan[..0]);
          Issue(CopyFile(Bak, Bak2), refuse, was, plan[..1]);
          assert plan[..1] + [CopyFile(Bak, Bak2)] == plan[..2];
          n := 2;
        }
        assert plan[n] == RemoveFile(Bak) && plan[n + 1] == CopyFile(Primary, Bak);
        Issue(RemoveFile(Bak), refuse, was, plan[..n]);
        assert plan[..n] + [RemoveFile(Bak)] == plan[..n + 1];
        Issue(CopyFile(Primary, Bak), refuse, was, plan[..n + 1]);
        assert plan[..n + 1] + [CopyFile(Primary, Bak)] == plan[..n + 2];
        n := n + 2;
      }
      Issue(Commit(data), refuse, was, plan[..n]);
      assert plan[..n] + [Commit(data)] == plan;
      ok := !refuse(Commit(data));
    }
  }

  function Outcomes(calls: seq<Call>, refuse: Call -> bool): seq<bool> {
    seq(|calls|, i requires 0 <= i < |calls| => !refuse(calls[i]))
  }

  lemma PerformOne(d: Disk, calls: seq<Call>, c: Call, refuse: Call -> bool)
    ensures Perform(d, calls + [c], Outcomes(calls + [c], refuse))
              == Do(Perform(d, calls, Outcomes(calls, refuse)), c, !refuse(c))
  {
    var more := calls + [c];
    assert more[..|more| - 1] == calls;
    assert Outcomes(more, refuse)[..|more| - 1] == Outcomes(calls, refuse);
  }
}
