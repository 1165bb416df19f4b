/**
 The promises of SessionWorker: magnet metadata, resume data and session statistics, as the worker
 thread handles commands and alerts one by one (src/lt/session_worker.cc, session_ops_add.cc,
 session_ops_control.cc).
*/
module SessionWorkers {
  import opened Sequences

  type Key = string
  type Info = string

  /** One std::promise; the three kinds have different types. */
  datatype Promise = ForMetadata(n: nat) | ForResume(n: nat) | ForStats(n: nat)

  /** What a torrent handle shows: whether it is valid, has its metadata, and gives the torrent
      info; and whether the files listed in the info are usable. */
  datatype Lookup = Lookup(valid: bool, hasMetadata: bool, info: Option<Info>, filesOk: bool)

  datatype Meta = Meta(pending: map<Key, Promise>, prepared: map<Key, Info>, handles: set<Key>)

  datatype Resume = Resume(pending: int, completed: nat, done: Option<Promise>)

  datatype Answer = Nothing | Found(info: Info) | Saved(files: nat) | Stats

  /** Every set_value call with its value, and every async_add_torrent of a finalize. */
  datatype Effects = Effects(sets: multiset<Promise>, answers: map<Promise, Answer>, added: seq<(Key, Info)>)

  datatype Worker = Worker(meta: Meta, resume: Resume, stats: Option<Promise>, out: Effects, used: set<Promise>)

  datatype Step =
    | Prepare(key: Key, done: Promise, uriOk: bool, handleValid: bool)
    | Cancel(key: Key)
    | Finalize(key: Key)
    | Look(key: Key, look: Lookup)
    | MetadataFailed(key: Key)
    | TorrentAdded(key: Key)
    | TorrentRemoved(key: Key)
    | SaveAll(done: Promise, valid: set<Key>)
    | ResumeAlert(written: bool)
    | AskStats(done: Promise)
    | StatsAlert

  function Initial(): Worker {
    Worker(Meta(map[], map[], {}), Resume(0, 0, None), None, Effects(multiset{}, map[], []), {})
  }

  function Told(out: Effects, p: Promise, v: Answer): Effects {
    out.(sets := out.sets + multiset{p}, answers := out.answers[p := v])
  }

  function Set(w: Worker, p: Promise, v: Answer): Worker { w.(out := Told(w.out, p, v)) }

  /** tryFulfillPendingMagnetMeta goes past its first two checks. */
  predicate Fulfils(m: Meta, key: Key, look: Lookup) { key in m.pending && look.valid && look.hasMetadata }

  /** The torrent info is stored under the key. */
  predicate Stores(m: Meta, key: Key, look: Lookup) { Fulfils(m, key, look) && look.info.Some? }

  /** A caller makes a fresh promise for each command. */
  predicate PromiseIsNew(w: Worker, a: Step) {
    match a
    case Prepare(_, p, _, _) => p.ForMetadata? && p !in w.used
    case SaveAll(p, _) => p.ForResume? && p !in w.used
    case AskStats(p) => p.ForStats? && p !in w.used
    case _ => true
  }

  function DoPrepare(w: Worker, key: Key, p: Promise, uriOk: bool, handleValid: bool): Worker {
    var w' := w.(used := w.used + {p});
    if !uriOk || (key in w.meta.handles && handleValid) then Set(w', p, Nothing)
    else w'.(meta := w.meta.(pending := w.meta.pending[key := p]))
  }

  function DoCancel(w: Worker, key: Key): Worker {
    w.(meta := Meta(w.meta.pending - {key}, w.meta.prepared - {key}, w.meta.handles - {key}))
  }

  function DoFinalize(w: Worker, key: Key): Worker {
    if key !in w.meta.prepared then w
    else w.(meta := w.meta.(prepared := w.meta.prepared - {key}, handles := w.meta.handles - {key}),
            out := w.out.(added := w.out.added + [(key, w.meta.prepared[key])]))
  }

  function Resolve(w: Worker, key: Key, v: Answer): Worker
    requires key in w.meta.pending
  {
    Set(w.(meta := w.meta.(pending := w.meta.pending - {key})), w.meta.pending[key], v)
  }

  function StoreInfo(w: Worker, key: Key, info: Info): Worker {
    w.(meta := w.meta.(prepared := w.meta.prepared[key := info]))
  }

  /** An info is stored even when its files turn out unusable and the caller is told nothing came. */
  function DoLook(w: Worker, key: Key, look: Lookup): Worker {
    if !Fulfils(w.meta, key, look) then w
    else if look.info.None? then Resolve(w, key, Nothing)
    else Resolve(StoreInfo(w, key, look.info.value), key, if look.filesOk then Found(look.info.value) else Nothing)
  }

  function DoSaveAll(w: Worker, p: Promise, valid: set<Key>): Worker {
    var w' := w.(used := w.used + {p});
    var n := |w.meta.handles * valid|;
    if n == 0 then Set(w'.(resume := Resume(0, 0, None)), p, Saved(0)) else w'.(resume := Resume(n, 0, Some(p)))
  }

  /** The two counters after a save_resume_data alert, and whether the promise is set. */
  function Counted(r: Resume, written: bool): (Resume, bool) {
    var r' := r.(pending := r.pending - 1, completed := r.completed + if written then 1 else 0);
    if r'.pending <= 0 && r.done.Some? then (r'.(done := None), true) else (r', false)
  }

  function DoResumeAlert(w: Worker, written: bool): Worker {
    var c := Counted(w.resume, written);
    var w' := w.(resume := c.0);
    if c.1 && w.resume.done.Some? then Set(w', w.resume.done.value, Saved(c.0.completed)) else w'
  }

  function Apply(w: Worker, a: Step): Worker
  {
    match a
    case Prepare(key, p, uriOk, handleValid) => DoPrepare(w, key, p, uriOk, handleValid)
    case Cancel(key) => DoCancel(w, key)
    case Finalize(key) => DoFinalize(w, key)
    case Look(key, look) => DoLook(w, key, look)
    case MetadataFailed(key) => if key in w.meta.pending then Resolve(w, key, Nothing) else w
    case TorrentAdded(key) => w.(meta := w.meta.(handles := w.meta.handles + {key}))
    case TorrentRemoved(key) => w.(meta := w.meta.(handles := w.meta.handles - {key}))
    case SaveAll(p, valid) => DoSaveAll(w, p, valid)
    case ResumeAlert(written) => DoResumeAlert(w, written)
    case AskStats(p) => w.(stats := Some(p), used := w.used + {p})
    case StatsAlert => if w.stats.Some? then Set(w.(stats := None), w.stats.value, Stats) else w
  }

  predicate Legal(run: seq<Step>)
    decreases |run|
  {
    run == [] || (Legal(run[..|run| - 1]) && PromiseIsNew(After(run[..|run| - 1]), run[|run| - 1]))
  }

  /** The worker after the steps. */
  function After(run: seq<Step>): Worker
    decreases |run|
  {
    if run == [] then Initial() else Apply(After(run[..|run| - 1]), run[|run| - 1])
  }

  // ---------------------------------------------------------------- promises

  ghost predicate Open(w: Worker, p: Promise) { p in w.used && p !in w.out.sets }

  ghost predicate PendingInv(w: Worker) {
    && (forall k <- w.meta.pending :: w.meta.pending[k].ForMetadata? && Open(w, w.meta.pending[k]))
    && (forall j <- w.meta.pending, k <- w.meta.pending :: j != k ==> w.meta.pending[j] != w.meta.pending[k])
  }

  ghost predicate PromiseInv(w: Worker) {
    && PendingInv(w)
    && (w.resume.done.Some? ==> w.resume.done.value.ForResume? && Open(w, w.resume.done.value))
    && (w.stats.Some? ==> w.stats.value.ForStats? && Open(w, w.stats.value))
    && (forall p :: w.out.sets[p] <= 1)
    && (forall p <- w.out.sets :: p in w.used)
  }

  lemma SetsOnce(w: Worker, p: Promise, v: Answer)
    requires p !in w.out.sets && forall q :: w.out.sets[q] <= 1
    ensures forall q :: Set(w, p, v).out.sets[q] <= 1
    ensures forall q :: q in Set(w, p, v).out.sets <==> q in w.out.sets || q == p
  {
  }

  lemma ResolveInv(w: Worker, key: Key, v: Answer)
    requires PromiseInv(w) && key in w.meta.pending
    ensures PromiseInv(Resolve(w, key, v))
  {
    SetsOnce(w.(meta := w.meta.(pending := w.meta.pending - {key})), w.meta.pending[key], v);
  }

  lemma LookInv(w: Worker, key: Key, look: Lookup)
    requires PromiseInv(w)
    ensures PromiseInv(DoLook(w, key, look))
  {
    if Fulfils(w.meta, key, look) {
      if look.info.None? {
        ResolveInv(w, key, Nothing);
      } else {
        ResolveInv(StoreInfo(w, key, look.info.value), key, if look.filesOk then Found(look.info.value) else Nothing);
      }
    }
  }

  lemma PrepareInv(w: Worker, a: Step)
    requires PromiseInv(w) && a.Prepare? && PromiseIsNew(w, a)
    ensures PromiseInv(Apply(w, a))
  {
    SetsOnce(w.(used := w.used + {a.done}), a.done, Nothing);
  }

  lemma ResumeInv(w: Worker, a: Step)
    requires PromiseInv(w) && (a.SaveAll? || a.ResumeAlert?) && PromiseIsNew(w, a)
    ensures PromiseInv(Apply(w, a))
  {
    if a.SaveAll? {
      SetsOnce(w.(used := w.used + {a.done}, resume := Resume(0, 0, None)), a.done, Saved(0));
    } else if w.resume.done.Some? {
      var r := Counted(w.resume, a.written).0;
      SetsOnce(w.(resume := r), w.resume.done.value, Saved(r.completed));
    }
  }

  lemma StepInv(w: Worker, a: Step)
    requires PromiseInv(w) && PromiseIsNew(w, a)
    ensures PromiseInv(Apply(w, a))
  {
    match a {
      case Prepare(_, _, _, _) => PrepareInv(w, a);
      case Look(key, look) => LookInv(w, key, look);
      case MetadataFailed(key) => if key in w.meta.pending { ResolveInv(w, key, Nothing); }
      case SaveAll(_, _) => ResumeInv(w, a);
      case ResumeAlert(_) => ResumeInv(w, a);
      case StatsAlert => if w.stats.Some? { SetsOnce(w.(stats := None), w.stats.value, Stats); }
      case _ =>
    }
  }

  lemma {:induction false} RunInv(run: seq<Step>)
    requires Legal(run)
    ensures PromiseInv(After(run))
    decreases |run|
  {
    if run != [] {
      RunInv(run[..|run| - 1]);
      StepInv(After(run[..|run| - 1]), run[|run| - 1]);
    }
  }

  /** However commands and alerts interleave, and whatever is cancelled, overwritten or repeated, no
      promise is set twice; and a promise the worker still holds has not been set. */
  lemma NoPromiseSetTwice(run: seq<Step>, p: Promise)
    requires Legal(run)
    ensures var w := After(run);
            && w.out.sets[p] <= 1
            && (p in w.meta.pending.Values || w.resume.done == Some(p) || w.stats == Some(p) ==> w.out.sets[p] == 0)
  {
    RunInv(run);
  }

  // ---------------------------------------------------------------- what each step answers

  /** Nothing is answered, and no promise that was answered changes. */
  ghost predicate Silent(w: Worker, w': Worker) { w'.out.sets == w.out.sets && w'.out.answers == w.out.answers }

  /** Exactly the promise is answered, with this value. */
  ghost predicate Answers(w: Worker, w': Worker, p: Promise, v: Answer) {
    w'.out.sets == w.out.sets + multiset{p} && w'.out.answers == w.out.answers[p := v]
  }

  /** A prepare is rejected at once, and leaves no trace, exactly when its URI is bad or its torrent is
      active already. Otherwise it waits for the metadata under its key. */
  lemma PrepareOutcome(w: Worker, key: Key, p: Promise, uriOk: bool, handleValid: bool)
    requires PromiseInv(w) && p.ForMetadata? && p !in w.used
    ensures var w' := Apply(w, Prepare(key, p, uriOk, handleValid));
            && (if !uriOk || (key in w.meta.handles && handleValid)
                then Answers(w, w', p, Nothing) && w'.meta == w.meta
                else Silent(w, w') && w'.meta == w.meta.(pending := w.meta.pending[key := p]))
            && w'.resume == w.resume && w'.stats == w.stats && w'.out.added == w.out.added
    ensures p !in w.out.sets
  {
  }

  /** A look at a pending key whose handle has its metadata answers: the info if there is one and its
      files can be used, nothing otherwise. Any other look is without effect. */
  lemma LookOutcome(w: Worker, key: Key, look: Lookup)
    ensures var w' := Apply(w, Look(key, look));
            if key in w.meta.pending && look.valid && look.hasMetadata
            then && Answers(w, w', w.meta.pending[key],
                            if look.info.Some? && look.filesOk then Found(look.info.value) else Nothing)
                 && w'.meta.pending == w.meta.pending - {key} && w'.meta.handles == w.meta.handles
                 && w'.meta.prepared ==
                      (if look.info.Some? then w.meta.prepared[key := look.info.value] else w.meta.prepared)
            else w' == w
  {
  }

  /** The other steps: a failure answers the waiting prepare, a statistics alert the waiting request,
      a save that asks no torrent itself; the rest answers nobody. */
  lemma OtherOutcomes(w: Worker, a: Step)
    requires PromiseIsNew(w, a)
    ensures var w' := Apply(w, a);
            match a
            case MetadataFailed(key) =>
              if key in w.meta.pending
              then && Answers(w, w', w.meta.pending[key], Nothing)
                   && w'.meta == w.meta.(pending := w.meta.pending - {key})
              else w' == w
            case StatsAlert =>
              if w.stats.Some? then Answers(w, w', w.stats.value, Stats) && w'.stats == None else w' == w
            case AskStats(p) => Silent(w, w') && w'.stats == Some(p) && w'.meta == w.meta
            case SaveAll(p, valid) =>
              && w'.meta == w.meta
              && (if w.meta.handles * valid == {} then Answers(w, w', p, Saved(0)) && w'.resume.done == None
                  else Silent(w, w') && w'.resume.done == Some(p))
            case Cancel(_) => Silent(w, w')
            case Finalize(_) => Silent(w, w')
            case TorrentAdded(_) => Silent(w, w')
            case TorrentRemoved(_) => Silent(w, w')
            case _ => true
  {
  }

  // ---------------------------------------------------------------- active and pending torrents

  /** The step ends the torrent of the key, in the state it meets. */
  ghost predicate Deactivates(run: seq<Step>, j: nat, key: Key)
    requires j < |run|
  {
    run[j] == TorrentRemoved(key) || run[j] == Cancel(key)
    || (run[j] == Finalize(key) && key in After(run[..j]).meta.prepared)
  }

  ghost predicate ActiveSince(run: seq<Step>, i: nat, key: Key) {
    i < |run| && run[i] == TorrentAdded(key) && forall j: nat :: i < j < |run| ==> !Deactivates(run, j, key)
  }

  lemma ActiveExtends(run: seq<Step>, i: nat, key: Key)
    requires i < |run| - 1
    ensures ActiveSince(run, i, key) <==>
              ActiveSince(run[..|run| - 1], i, key) && !Deactivates(run, |run| - 1, key)
  {
    var front := run[..|run| - 1];
    forall j: nat | j < |front| ensures Deactivates(run, j, key) <==> Deactivates(front, j, key) {
      assert front[..j] == run[..j];
    }
  }

  /** A torrent is active exactly when it was added and since then neither removed nor cancelled nor
      finalized with its info at hand. */
  lemma {:induction false} ActiveExactly(run: seq<Step>, key: Key)
    ensures key in After(run).meta.handles <==> exists i :: ActiveSince(run, i, key)
    decreases |run|
  {
    if run != [] {
      var n := |run| - 1;
      var front := run[..n];
      ActiveExactly(front, key);
      forall i: nat | i < n
        ensures ActiveSince(run, i, key) <==> ActiveSince(front, i, key) && !Deactivates(run, n, key)
      {
        ActiveExtends(run, i, key);
      }
      HandlesStep(After(front), run[n], key);
      assert ActiveSince(run, n, key) <==> run[n] == TorrentAdded(key);
      if i :| ActiveSince(front, i, key) && !Deactivates(run, n, key) { assert ActiveSince(run, i, key); }
      if i :| ActiveSince(run, i, key) && i != n { assert ActiveSince(front, i, key); }
    }
  }

  lemma HandlesStep(w: Worker, a: Step, key: Key)
    ensures key in Apply(w, a).meta.handles <==>
              a == TorrentAdded(key)
              || (key in w.meta.handles && a != TorrentRemoved(key) && a != Cancel(key)
                  && !(a == Finalize(key) && key in w.meta.prepared))
  {
  }

  /** The step is a prepare that waits under the key. */
  ghost predicate Accepts(w: Worker, a: Step, key: Key) {
    a.Prepare? && a.key == key && a.uriOk && !(key in w.meta.handles && a.handleValid)
  }

  /** The step ends the waiting under the key. */
  predicate Resolves(a: Step, key: Key) {
    || a == Cancel(key) || a == MetadataFailed(key)
    || (a.Look? && a.key == key && a.look.valid && a.look.hasMetadata)
  }

  ghost predicate AcceptsAt(run: seq<Step>, i: nat, key: Key)
    requires i < |run|
  {
    Accepts(After(run[..i]), run[i], key)
  }

  /** Step `i` is a prepare with this promise, and nothing has ended or replaced its wait. */
  ghost predicate WaitsSince(run: seq<Step>, i: nat, key: Key, p: Promise) {
    && i < |run| && AcceptsAt(run, i, key) && run[i].done == p
    && forall j: nat :: i < j < |run| ==> !AcceptsAt(run, j, key) && !Resolves(run[j], key)
  }

  lemma WaitExtends(run: seq<Step>, i: nat, key: Key, p: Promise)
    requires i < |run| - 1
    ensures WaitsSince(run, i, key, p) <==>
              && WaitsSince(run[..|run| - 1], i, key, p)
              && !AcceptsAt(run, |run| - 1, key) && !Resolves(run[|run| - 1], key)
  {
    var front := run[..|run| - 1];
    forall j: nat | j < |front| ensures AcceptsAt(run, j, key) <==> AcceptsAt(front, j, key) {
      assert front[..j] == run[..j];
    }
  }

  ghost predicate Waits(m: Meta, key: Key, p: Promise) { key in m.pending && m.pending[key] == p }

  lemma PendingStep(w: Worker, a: Step, key: Key, p: Promise)
    ensures Waits(Apply(w, a).meta, key, p) <==>
              if Accepts(w, a, key) then a.done == p else Waits(w.meta, key, p) && !Resolves(a, key)
  {
  }

  /** A promise waits under a key exactly when a prepare with it was accepted, and since then there
      was neither another accepted prepare of the key, nor its metadata, nor a failure, nor a cancel. */
  lemma {:induction false} PendingExactly(run: seq<Step>, key: Key, p: Promise)
    ensures Waits(After(run).meta, key, p) <==> exists i :: WaitsSince(run, i, key, p)
    decreases |run|
  {
    if run != [] {
      var n := |run| - 1;
      var front := run[..n];
      PendingExactly(front, key, p);
      forall i: nat | i < n
        ensures WaitsSince(run, i, key, p) <==>
                  WaitsSince(front, i, key, p) && !AcceptsAt(run, n, key) && !Resolves(run[n], key)
      {
        WaitExtends(run, i, key, p);
      }
      PendingStep(After(front), run[n], key, p);
      assert WaitsSince(run, n, key, p) <==> AcceptsAt(run, n, key) && run[n].done == p;
      if i :| WaitsSince(front, i, key, p) && !AcceptsAt(run, n, key) && !Resolves(run[n], key) {
        assert WaitsSince(run, i, key, p);
      }
      if i :| WaitsSince(run, i, key, p) && i != n { assert WaitsSince(front, i, key, p); }
    }
  }

  // ---------------------------------------------------------------- prepared magnets

  predicate Drops(a: Step, key: Key) { a == Cancel(key) || a == Finalize(key) }

  predicate StoresAt(run: seq<Step>, i: nat, key: Key)
    requires i < |run|
  {
    run[i].Look? && run[i].key == key && Stores(After(run[..i]).meta, key, run[i].look)
  }

  /** Step `i` stored an info under the key, and nothing dropped it since. */
  ghost predicate Kept(run: seq<Step>, i: nat, key: Key) {
    i < |run| && StoresAt(run, i, key) && forall j :: i < j < |run| ==> !Drops(run[j], key)
  }

  lemma KeptExtends(run: seq<Step>, i: nat, key: Key)
    requires i < |run| - 1
    ensures Kept(run, i, key) <==> Kept(run[..|run| - 1], i, key) && !Drops(run[|run| - 1], key)
  {
    var front := run[..|run| - 1];
    assert front[..i] == run[..i];
    if Kept(front, i, key) && !Drops(run[|run| - 1], key) {
      forall j | i < j < |run| ensures !Drops(run[j], key) {
        if j < |run| - 1 { assert front[j] == run[j]; }
      }
    }
  }

  /** An info is at hand under a key exactly when some look stored it and neither a cancel nor a
      finalize of that key came since. */
  lemma {:induction false} PreparedExactly(run: seq<Step>, key: Key)
    ensures key in After(run).meta.prepared <==> exists i :: Kept(run, i, key)
    decreases |run|
  {
    if run != [] {
      var n := |run| - 1;
      var front, a := run[..n], run[n];
      PreparedExactly(front, key);
      forall i: nat | i < n ensures Kept(run, i, key) <==> Kept(front, i, key) && !Drops(a, key) {
        KeptExtends(run, i, key);
      }
      StepOnPrepared(After(front), a, key);
      assert Kept(run, n, key) <==> a.Look? && a.key == key && Stores(After(front).meta, key, a.look);
      if i :| Kept(front, i, key) && !Drops(a, key) { assert Kept(run, i, key); }
      if i :| Kept(run, i, key) && i != n { assert Kept(front, i, key); }
    }
  }

  lemma StepOnPrepared(w: Worker, a: Step, key: Key)
    ensures key in Apply(w, a).meta.prepared <==>
              (key in w.meta.prepared && !Drops(a, key)) || (a.Look? && a.key == key && Stores(w.meta, key, a.look))
  {
  }

  /** A finalize submits the torrent exactly when a look stored its info and no cancel or finalize
      of the key came since; otherwise it does nothing. */
  lemma FinalizeSubmits(run: seq<Step>, key: Key)
    ensures var w := After(run);
            var w' := Apply(w, Finalize(key));
            if exists i :: Kept(run, i, key)
            then key in w.meta.prepared && w'.out.added == w.out.added + [(key, w.meta.prepared[key])]
                && key !in w'.meta.prepared
            else w' == w
  {
    PreparedExactly(run, key);
  }

  /** A prepare that succeeds has stored the very info it reports, so a finalize that follows, with
      no cancel or finalize of the key in between, submits the torrent. */
  lemma SuccessCanBeFinalized(run: seq<Step>, i: nat, key: Key, look: Lookup, info: Info)
    requires Legal(run) && i < |run| && run[i] == Look(key, look) && key in After(run[..i]).meta.pending
    requires Reports(After(run[..i]), key, look, info)
    requires forall j :: i < j < |run| ==> !Drops(run[j], key)
    ensures key in DoLook(After(run[..i]), key, look).meta.prepared
              && DoLook(After(run[..i]), key, look).meta.prepared[key] == info
    ensures key in After(run).meta.prepared
    ensures Apply(After(run), Finalize(key)).out.added == After(run).out.added + [(key, After(run).meta.prepared[key])]
  {
    ReportedIsStored(After(run[..i]), key, look, info);
    assert Kept(run, i, key);
    FinalizeSubmits(run, key);
  }

  /** The look answers the pending promise of the key with the info. */
  predicate Reports(w: Worker, key: Key, look: Lookup, info: Info)
    requires key in w.meta.pending
  {
    var p, now := w.meta.pending[key], DoLook(w, key, look).out;
    p !in w.out.answers && p in now.answers && now.answers[p] == Found(info)
  }

  lemma ReportedIsStored(w: Worker, key: Key, look: Lookup, info: Info)
    requires key in w.meta.pending && Reports(w, key, look, info)
    ensures Stores(w.meta, key, look)
    ensures key in DoLook(w, key, look).meta.prepared && DoLook(w, key, look).meta.prepared[key] == info
  {
  }

  /** The look tells the caller that nothing came, although the info is now at hand. */
  ghost predicate Misreports(w: Worker, key: Key, look: Lookup)
    requires key in w.meta.pending
  {
    var p, w' := w.meta.pending[key], DoLook(w, key, look);
    && p in w'.out.sets && p in w'.out.answers && w'.out.answers[p] == Nothing
    && key in w'.meta.prepared
  }

  /** For a key without a stored info, that happens exactly when the handle gives an info whose
      files cannot be used. */
  lemma MisreportsExactly(w: Worker, key: Key, look: Lookup)
    requires key in w.meta.pending && key !in w.meta.prepared
    ensures Misreports(w, key, look) <==> look.valid && look.hasMetadata && look.info.Some? && !look.filesOk
  {
  }

  /** And then a finalize that follows, with no cancel or finalize of the key in between, submits the
      torrent whose prepare was reported as failed. */
  lemma MisreportedIsSubmitted(run: seq<Step>, i: nat, key: Key, look: Lookup)
    requires i < |run| && run[i] == Look(key, look)
    requires var w := After(run[..i]);
             key in w.meta.pending && key !in w.meta.prepared && Misreports(w, key, look)
    requires forall j :: i < j < |run| ==> !Drops(run[j], key)
    ensures key in After(run).meta.prepared
    ensures Apply(After(run), Finalize(key)).out.added
         == After(run).out.added + [(key, After(run).meta.prepared[key])]
  {
    MisreportsExactly(After(run[..i]), key, look);
    assert Kept(run, i, key);
    FinalizeSubmits(run, key);
  }

  function FailedPrepare(key: Key, info: Info): seq<Step> {
    [Prepare(key, ForMetadata(0), true, true), Look(key, Lookup(true, true, Some(info), false)), Finalize(key)]
  }

  /** The shortest such run: prepare, a look that finds unusable files, finalize. */
  lemma FailedPrepareIsSubmitted(key: Key, info: Info)
    ensures var run := FailedPrepare(key, info);
            && Legal(run)
            && After(run).out.answers == map[ForMetadata(0) := Nothing]
            && After(run).out.added == [(key, info)]
  {
    var run := FailedPrepare(key, info);
    assert [] + [run[0]] == [run[0]] && [run[0]] + [run[1]] == [run[0], run[1]] && [run[0], run[1]] + [run[2]] == run;
    OneMore([], run[0]);
    OneMore([run[0]], run[1]);
    OneMore([run[0], run[1]], run[2]);
    assert After([run[0]]).meta.pending == map[key := ForMetadata(0)];
    assert After([run[0], run[1]]).meta.prepared == map[key := info];
  }

  // ---------------------------------------------------------------- resume data

  /** How many of the alerts wrote a file. */
  function Written(alerts: seq<bool>): nat {
    if alerts == [] then 0 else Written(alerts[..|alerts| - 1]) + if alerts[|alerts| - 1] then 1 else 0
  }

  /** The resume-data alerts that come after step `m`. */
  function AlertsSince(run: seq<Step>, m: nat): seq<bool>
    decreases |run|
  {
    if |run| <= m + 1 then []
    else AlertsSince(run[..|run| - 1], m) + if run[|run| - 1].ResumeAlert? then [run[|run| - 1].written] else []
  }

  /** Step `m` is a save of at least one torrent, and the last save of the run. */
  ghost predicate LastSave(run: seq<Step>, m: nat) {
    && m < |run| && run[m].SaveAll? && forall j :: m < j < |run| ==> !run[j].SaveAll?
  }

  /** How many handles the save of step `m` asks. */
  function Due(run: seq<Step>, m: nat): nat
    requires m < |run| && run[m].SaveAll?
  {
    |After(run[..m]).meta.handles * run[m].valid|
  }

  lemma LastSaveShrinks(run: seq<Step>, m: nat)
    requires LastSave(run, m) && m < |run| - 1
    ensures LastSave(run[..|run| - 1], m) && Due(run[..|run| - 1], m) == Due(run, m) && run[..|run| - 1][m] == run[m]
  {
    assert run[..|run| - 1][..m] == run[..m];
  }

  lemma ResumeOnlyByAlerts(w: Worker, a: Step)
    requires !a.SaveAll?
    ensures Apply(w, a).resume == if a.ResumeAlert? then Counted(w.resume, a.written).0 else w.resume
  {
  }

  lemma SaveStarts(w: Worker, a: Step)
    requires a.SaveAll? && |w.meta.handles * a.valid| > 0
    ensures Apply(w, a).resume == Resume(|w.meta.handles * a.valid|, 0, Some(a.done))
  {
  }

  /** The counters after these alerts to a save of `due` torrents. */
  predicate CountersAt(r: Resume, alerts: seq<bool>, due: nat, p: Promise) {
    r.pending == due - |alerts| && r.completed == Written(alerts) && r.done == if |alerts| < due then Some(p) else None
  }

  lemma CountersStep(r: Resume, alerts: seq<bool>, due: nat, p: Promise, written: bool)
    requires CountersAt(r, alerts, due, p)
    ensures CountersAt(Counted(r, written).0, alerts + [written], due, p)
  {
    assert (alerts + [written])[..|alerts|] == alerts;
  }

  /** The counters follow the alerts, in any interleaving with other steps. */
  lemma {:induction false} CountersFollow(run: seq<Step>, m: nat)
    requires Legal(run) && LastSave(run, m) && Due(run, m) > 0
    ensures CountersAt(After(run).resume, AlertsSince(run, m), Due(run, m), run[m].done)
    decreases |run|
  {
    var front, a := run[..|run| - 1], run[|run| - 1];
    if m < |run| - 1 {
      LastSaveShrinks(run, m);
      CountersFollow(front, m);
      ResumeOnlyByAlerts(After(front), a);
      if a.ResumeAlert? {
        CountersStep(After(front).resume, AlertsSince(front, m), Due(run, m), run[m].done, a.written);
      } else {
        assert AlertsSince(run, m) == AlertsSince(front, m);
      }
    } else {
      SaveStarts(After(front), a);
    }
  }

  /** What has been set stays as it was set. */
  lemma AnswerStays(w: Worker, a: Step, p: Promise)
    requires PromiseInv(w) && PromiseIsNew(w, a) && p in w.out.sets && p in w.out.answers
    ensures p in Apply(w, a).out.sets && p in Apply(w, a).out.answers && Apply(w, a).out.answers[p] == w.out.answers[p]
  {
  }

  ghost predicate Answered(out: Effects, p: Promise, n: nat) {
    p in out.sets && p in out.answers && out.answers[p] == Saved(n)
  }

  /** The alert that makes up the number answers the promise. */
  lemma LastAlertAnswers(w: Worker, a: Step, p: Promise)
    requires w.resume.done == Some(p) && Apply(w, a).resume.done.None? && a.ResumeAlert?
    ensures Answered(Apply(w, a).out, p, Apply(w, a).resume.completed)
  {
  }

  /** One step of AnsweredAtTheLastAlert. */
  lemma AnsweredStep(run: seq<Step>, m: nat)
    requires Legal(run) && LastSave(run, m) && Due(run, m) > 0 && m < |run| - 1
    requires |AlertsSince(run, m)| >= Due(run, m)
    requires |AlertsSince(run[..|run| - 1], m)| >= Due(run, m) ==>
               Answered(After(run[..|run| - 1]).out, run[m].done,
                        Written(AlertsSince(run[..|run| - 1], m)[..Due(run, m)]))
    ensures Answered(After(run).out, run[m].done, Written(AlertsSince(run, m)[..Due(run, m)]))
  {
    var front, a, due := run[..|run| - 1], run[|run| - 1], Due(run, m);
    LastSaveShrinks(run, m);
    CountersFollow(run, m);
    CountersFollow(front, m);
    var before, alerts := AlertsSince(front, m), AlertsSince(run, m);
    if |before| < due {
      assert alerts[..due] == alerts;
      LastAlertAnswers(After(front), a, run[m].done);
    } else {
      assert alerts[..due] == before[..due];
      RunInv(front);
      AnswerStays(After(front), a, run[m].done);
    }
  }

  lemma {:induction false} AnsweredByAlerts(run: seq<Step>, m: nat)
    requires Legal(run) && LastSave(run, m) && Due(run, m) > 0 && |AlertsSince(run, m)| >= Due(run, m)
    ensures Answered(After(run).out, run[m].done, Written(AlertsSince(run, m)[..Due(run, m)]))
    decreases |run|
  {
    SaveComesEarlier(run, m);
    if |AlertsSince(run[..|run| - 1], m)| >= Due(run, m) {
      AnsweredByAlerts(run[..|run| - 1], m);
    }
    AnsweredStep(run, m);
  }

  lemma SaveComesEarlier(run: seq<Step>, m: nat)
    requires LastSave(run, m) && |AlertsSince(run, m)| > 0
    ensures m < |run| - 1
    ensures LastSave(run[..|run| - 1], m) && Due(run[..|run| - 1], m) == Due(run, m) && run[..|run| - 1][m] == run[m]
  {
    LastSaveShrinks(run, m);
  }

  /** Until another save begins, the promise of a save is set by the alert that makes up the number
      of torrents asked, not before, and gets the number of alerts up to then that wrote a file. */
  lemma AnsweredAtTheLastAlert(run: seq<Step>, m: nat)
    requires Legal(run) && LastSave(run, m) && Due(run, m) > 0
    ensures var alerts, p, out := AlertsSince(run, m), run[m].done, After(run).out;
            if |alerts| < Due(run, m) then p !in out.sets
            else out.sets[p] == 1 && p in out.answers && out.answers[p] == Saved(Written(alerts[..Due(run, m)]))
  {
    RunInv(run);
    if |AlertsSince(run, m)| < Due(run, m) {
      CountersFollow(run, m);
    } else {
      AnsweredByAlerts(run, m);
    }
  }

  /** The resume-data alerts libtorrent still owes: it sends one for each torrent asked. */
  function Owed(run: seq<Step>): int
    decreases |run|
  {
    if run == [] then 0
    else
      var front, a := run[..|run| - 1], run[|run| - 1];
      Owed(front) + (if a.SaveAll? then |After(front).meta.handles * a.valid| else if a.ResumeAlert? then -1 else 0)
  }

  lemma {:induction false} OwedSince(run: seq<Step>, m: nat)
    requires LastSave(run, m)
    ensures Owed(run) == Owed(run[..m]) + Due(run, m) - |AlertsSince(run, m)|
    decreases |run|
  {
    if m < |run| - 1 {
      LastSaveShrinks(run, m);
      OwedSince(run[..|run| - 1], m);
      assert run[..|run| - 1][..m] == run[..m];
    } else {
      assert run[..|run| - 1] == run[..m];
    }
  }

  /** At the alert that answers a save (AnsweredAtTheLastAlert), as many alerts are outstanding as
      there were of earlier saves when it began. So the answer comes with the last alert exactly
      when saves do not overlap; otherwise late alerts of the earlier save are counted as its own. */
  lemma AnswerIsLastExactlyWithoutOverlap(run: seq<Step>, m: nat)
    requires Legal(run) && LastSave(run, m) && Due(run, m) > 0 && |AlertsSince(run, m)| == Due(run, m)
    ensures Owed(run) == Owed(run[..m])
    ensures run[m].done in After(run).out.sets
  {
    OwedSince(run, m);
    AnsweredByAlerts(run, m);
  }

  /** A second save of the same torrent before the alert of the first. */
  function OverlappingSaves(key: Key): seq<Step> {
    [TorrentAdded(key), SaveAll(ForResume(0), {key}), SaveAll(ForResume(1), {key}), ResumeAlert(true)]
  }

  /** The alert of the first save answers the second one, while its own alert is still to come. */
  lemma OverlapAnswersEarly(key: Key)
    ensures var run := OverlappingSaves(key);
            && Legal(run)
            && Owed(run[..2]) == 1
            && After(run).out.answers == map[ForResume(1) := Saved(1)]
            && Owed(run) == 1
  {
    var run := OverlappingSaves(key);
    FirstSave(key);
    SecondSave(key);
    OneMore(run[..3], run[3]);
    assert run[..3] + [run[3]] == run && run[..3] == [run[0], run[1], run[2]] && run[..2] == [run[0], run[1]];
  }

  lemma FirstSave(key: Key)
    ensures var run := [TorrentAdded(key), SaveAll(ForResume(0), {key})];
            && Legal(run) && Owed(run) == 1
            && After(run) == Initial().(meta := Meta(map[], map[], {key}), used := {ForResume(0)},
                                        resume := Resume(1, 0, Some(ForResume(0))))
  {
    var s0, s1 := TorrentAdded(key), SaveAll(ForResume(0), {key});
    assert [] + [s0] == [s0] && [s0] + [s1] == [s0, s1];
    OneMore([], s0);
    OneMore([s0], s1);
    assert After([s0]) == Initial().(meta := Meta(map[], map[], {key}));
    assert {key} * {key} == {key};
  }

  lemma SecondSave(key: Key)
    ensures var run := [TorrentAdded(key), SaveAll(ForResume(0), {key}), SaveAll(ForResume(1), {key})];
            && Legal(run) && Owed(run) == 2
            && After(run) == Initial().(meta := Meta(map[], map[], {key}), used := {ForResume(0), ForResume(1)},
                                        resume := Resume(1, 0, Some(ForResume(1))))
  {
    var two, s2 := [TorrentAdded(key), SaveAll(ForResume(0), {key})], SaveAll(ForResume(1), {key});
    FirstSave(key);
    assert two + [s2] == [two[0], two[1], s2];
    OneMore(two, s2);
    assert {key} * {key} == {key};
  }

  lemma OneMore(front: seq<Step>, a: Step)
    ensures After(front + [a]) == Apply(After(front), a)
    ensures Legal(front + [a]) <==> Legal(front) && PromiseIsNew(After(front), a)
    ensures Owed(front + [a]) == Owed(front) +
              if a.SaveAll? then |After(front).meta.handles * a.valid| else if a.ResumeAlert? then -1 else 0
  {
    assert (front + [a])[..|front|] == front;
  }

  // ---------------------------------------------------------------- a poll

  function Ready(m: Meta, look: Key -> Lookup, keys: set<Key>): set<Key> {
    set k <- keys | k in m.handles && Fulfils(m, k, look(k))
  }

  /** The keys among `keys` that have their metadata are no longer pending, and their infos, where
      there is one, are at hand. */
  function Polled(m: Meta, look: Key -> Lookup, keys: set<Key>): Meta {
    var ready := Ready(m, look, keys);
    m.(pending := m.pending - ready,
       prepared := m.prepared + Infos(look, ready))
  }

  lemma ReadyStep(m: Meta, look: Key -> Lookup, keys: set<Key>, key: Key)
    requires key !in keys
    ensures Ready(m, look, keys + {key})
         == Ready(m, look, keys) + if key in m.handles && Fulfils(m, key, look(key)) then {key} else {}
  {
  }

  function Infos(look: Key -> Lookup, ready: set<Key>): map<Key, Info> {
    map k | k in ready && look(k).info.Some? :: look(k).info.value
  }

  lemma InfosStep(look: Key -> Lookup, ready: set<Key>, key: Key)
    ensures Infos(look, ready + {key})
         == if look(key).info.Some? then Infos(look, ready)[key := look(key).info.value] else Infos(look, ready)
  {
  }

  lemma MinusStep<K, V>(m: map<K, V>, gone: set<K>, key: K)
    ensures m - (gone + {key}) == m - gone - {key}
  {
  }

  lemma PlusStep<K, V>(m: map<K, V>, more: map<K, V>, key: K, v: V)
    ensures m + more[key := v] == (m + more)[key := v]
  {
  }

  /** One more key: the same as looking at it in the state reached so far. */
  lemma PollStep(m: Meta, look: Key -> Lookup, keys: set<Key>, key: Key)
    requires key !in keys && key in m.pending
    ensures var now, next := Polled(m, look, keys), Polled(m, look, keys + {key});
            if key in m.handles && Fulfils(m, key, look(key))
            then next == Meta(now.pending - {key},
                              if look(key).info.Some? then now.prepared[key := look(key).info.value]
                              else now.prepared, m.handles)
            else next == now
  {
    ReadyStep(m, look, keys, key);
    if key in m.handles && Fulfils(m, key, look(key)) {
      var ready := Ready(m, look, keys);
      InfosStep(look, ready, key);
      MinusStep(m.pending, ready, key);
      if look(key).info.Some? { PlusStep(m.prepared, Infos(look, ready), key, look(key).info.value); }
    } else {
      assert Ready(m, look, keys) + {} == Ready(m, look, keys);
    }
  }

  ghost predicate DistinctPromises(m: Meta) {
    forall j <- m.pending, k <- m.pending :: j != k ==> m.pending[j] != m.pending[k]
  }

  /** Each of the keys whose torrent has its metadata has been answered: the info if there is one and
      its files can be used, nothing otherwise. */
  ghost predicate PollAnswered(m: Meta, look: Key -> Lookup, out: Effects, keys: set<Key>) {
    forall k <- keys :: k in m.pending && k in m.handles && look(k).valid && look(k).hasMetadata ==>
      && m.pending[k] in out.sets && m.pending[k] in out.answers
      && out.answers[m.pending[k]]
         == (if look(k).info.Some? && look(k).filesOk then Found(look(k).info.value) else Nothing)
  }

  lemma PollAnswersMore(m: Meta, look: Key -> Lookup, w: Worker, seen: set<Key>, key: Key)
    requires DistinctPromises(m) && key in m.pending && seen <= m.pending.Keys && key !in seen
    requires Waits(w.meta, key, m.pending[key]) && w.meta.handles == m.handles
    requires PollAnswered(m, look, w.out, seen)
    ensures key in m.handles ==> PollAnswered(m, look, DoLook(w, key, look(key)).out, seen + {key})
    ensures key !in m.handles ==> PollAnswered(m, look, w.out, seen + {key})
  {
    LookOutcome(w, key, look(key));
  }

  // ---------------------------------------------------------------- the worker object

  class SessionWorker {
    var handlesByTaskId: set<Key>
    var pendingMagnetMeta: map<Key, Promise>
    var preparedTorrentInfo: map<Key, Info>
    var pendingResumeDataSaves: int
    var completedResumeDataSaves: nat
    var resumeDataDone: Option<Promise>
    var pendingSessionStats: Option<Promise>
    ghost var out: Effects
    ghost var used: set<Promise>

    constructor ()
      ensures State() == Initial()
    {
      handlesByTaskId, pendingMagnetMeta, preparedTorrentInfo := {}, map[], map[];
      pendingResumeDataSaves, completedResumeDataSaves, resumeDataDone := 0, 0, None;
      pendingSessionStats, out, used := None, Effects(multiset{}, map[], []), {};
    }

    ghost function State(): Worker
      reads this
    {
      Worker(Meta(pendingMagnetMeta, preparedTorrentInfo, handlesByTaskId),
             Resume(pendingResumeDataSaves, completedResumeDataSaves, resumeDataDone), pendingSessionStats, out, used)
    }

    method SetValue(p: Promise, v: Answer)
      modifies this`out
      ensures State() == Set(old(State()), p, v)
    {
      out := Told(out, p, v);
    }

    method OnPrepare(key: Key, done: Promise, uriOk: bool, handleValid: bool)
      modifies this
      ensures State() == Apply(old(State()), Prepare(key, done, uriOk, handleValid))
    {
      used := used + {done};
      if !uriOk {
        SetValue(done, Nothing);
        return;
      }
      if key in handlesByTaskId && handleValid {
        SetValue(done, Nothing);
        return;
      }
      pendingMagnetMeta := pendingMagnetMeta[key := done];
    }

    method OnCancel(key: Key)
      modifies this
      ensures State() == Apply(old(State()), Cancel(key))
    {
      handlesByTaskId := handlesByTaskId - {key};
      preparedTorrentInfo := preparedTorrentInfo - {key};
      pendingMagnetMeta := pendingMagnetMeta - {key};
    }

    method OnFinalize(key: Key)
      modifies this
      ensures State() == Apply(old(State()), Finalize(key))
    {
      if key !in preparedTorrentInfo {
        return;
      }
      handlesByTaskId := handlesByTaskId - {key};
      var info := preparedTorrentInfo[key];
      preparedTorrentInfo := preparedTorrentInfo - {key};
      out := out.(added := out.added + [(key, info)]);
    }

    method TryFulfillPendingMagnetMeta(key: Key, look: Lookup) returns (done: bool)
      modifies this`pendingMagnetMeta, this`preparedTorrentInfo, this`out
      ensures State() == Apply(old(State()), Look(key, look)) && done == Fulfils(old(State()).meta, key, look)
    {
      if key !in pendingMagnetMeta {
        return false;
      }
      if !look.valid || !look.hasMetadata {
        return false;
      }
      var promise := pendingMagnetMeta[key];
      if look.info.None? {
        SetValue(promise, Nothing);
        pendingMagnetMeta := pendingMagnetMeta - {key};
        return true;
      }
      preparedTorrentInfo := preparedTorrentInfo[key := look.info.value];
      if !look.filesOk {
        SetValue(promise, Nothing);
        pendingMagnetMeta := pendingMagnetMeta - {key};
        return true;
      }
      SetValue(promise, Found(look.info.value));
      pendingMagnetMeta := pendingMagnetMeta - {key};
      return true;
    }

    method PollOne(key: Key, look: Key -> Lookup, ghost start: Meta, ghost seen: set<Key>)
      requires key in start.pending && key !in seen && State().meta == Polled(start, look, seen)
      requires seen <= start.pending.Keys
      modifies this`pendingMagnetMeta, this`preparedTorrentInfo, this`out
      ensures State().meta == Polled(start, look, seen + {key})
      ensures old(PromiseInv(State())) ==> PromiseInv(State())
      ensures out.added == old(out).added
      ensures DistinctPromises(start) && old(PollAnswered(start, look, out, seen)) ==>
                PollAnswered(start, look, out, seen + {key})
    {
      PollStep(start, look, seen, key);
      if DistinctPromises(start) && PollAnswered(start, look, out, seen) {
        PollAnswersMore(start, look, State(), seen, key);
      }
      if key in handlesByTaskId && look(key).valid {
        ghost var was := State();
        var done := TryFulfillPendingMagnetMeta(key, look(key));
        if PromiseInv(was) { LookInv(was, key, look(key)); }
      }
    }

    /** Looks once at every pending key that has a valid handle. */
    method PollPendingMagnetMetadata(look: Key -> Lookup)
      modifies this`pendingMagnetMeta, this`preparedTorrentInfo, this`out
      ensures State().meta == Polled(old(State()).meta, look, old(pendingMagnetMeta).Keys)
      ensures old(PromiseInv(State())) ==> PromiseInv(State())
      ensures out.added == old(out).added
      ensures DistinctPromises(old(State()).meta) ==>
                PollAnswered(old(State()).meta, look, out, old(pendingMagnetMeta).Keys)
    {
      var keys := pendingMagnetMeta.Keys;
      ghost var all, start := keys, State().meta;
      while keys != {}
        invariant keys <= all == start.pending.Keys && State().meta == Polled(start, look, all - keys)
        invariant old(PromiseInv(State())) ==> PromiseInv(State())
        invariant out.added == old(out).added
        invariant DistinctPromises(start) ==> PollAnswered(start, look, out, all - keys)
        decreases keys
      {
        var key :| key in keys;
        PollOne(key, look, start, all - keys);
        assert all - keys + {key} == all - (keys - {key});
        keys := keys - {key};
      }
      assert all - keys == all;
    }

    method OnMetadataFailed(key: Key)
      modifies this`pendingMagnetMeta, this`out
      ensures State() == Apply(old(State()), MetadataFailed(key))
    {
      if key in pendingMagnetMeta {
        SetValue(pendingMagnetMeta[key], Nothing);
        pendingMagnetMeta := pendingMagnetMeta - {key};
      }
    }

    /** Asks every valid handle for its resume data. */
    method RequestResumeData(valid: set<Key>)
      requires pendingResumeDataSaves == 0
      modifies this`pendingResumeDataSaves
      ensures pendingResumeDataSaves == |handlesByTaskId * valid|
    {
      var left := handlesByTaskId;
      while left != {}
        invariant left <= handlesByTaskId
        invariant pendingResumeDataSaves == |(handlesByTaskId - left) * valid|
        decreases left
      {
        var key :| key in left;
        ghost var visited := (handlesByTaskId - left) * valid;
        left := left - {key};
        assert (handlesByTaskId - left) * valid == if key in valid then visited + {key} else visited;
        if key in valid {
          pendingResumeDataSaves := pendingResumeDataSaves + 1;
        }
      }
      assert handlesByTaskId - left == handlesByTaskId;
    }

    method OnSaveAll(done: Promise, valid: set<Key>)
      modifies this`pendingResumeDataSaves, this`completedResumeDataSaves, this`resumeDataDone, this`out, this`used
      ensures State() == Apply(old(State()), SaveAll(done, valid))
    {
      used := used + {done};
      resumeDataDone, pendingResumeDataSaves, completedResumeDataSaves := Some(done), 0, 0;
      RequestResumeData(valid);
      if pendingResumeDataSaves == 0 {
        SetValue(done, Saved(0));
        resumeDataDone := None;
      }
    }

    /** save_resume_data_alert with `written` telling whether the file was written, or
        save_resume_data_failed_alert. */
    method OnResumeAlert(written: bool)
      modifies this`pendingResumeDataSaves, this`completedResumeDataSaves, this`resumeDataDone, this`out
      ensures State() == Apply(old(State()), ResumeAlert(written))
    {
      if written {
        completedResumeDataSaves := completedResumeDataSaves + 1;
      }
      pendingResumeDataSaves := pendingResumeDataSaves - 1;
      if pendingResumeDataSaves <= 0 && resumeDataDone.Some? {
        SetValue(resumeDataDone.value, Saved(completedResumeDataSaves));
        resumeDataDone := None;
      }
    }

    method OnStatsAlert()
      modifies this`pendingSessionStats, this`out
      ensures State() == Apply(old(State()), StatsAlert)
    {
      if pendingSessionStats.Some? {
        SetValue(pendingSessionStats.value, Stats);
        pendingSessionStats := None;
      }
    }
  }
}
