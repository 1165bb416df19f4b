/**
 The event-sourced task store: TaskStateStore (src/core/task_state_store.cc), the alert mapper
 (src/lt/task_event_mapper.cc) and the status lock (src/app/event_ingest_orchestrator.cc).

 The payload of an event is a map per kind of field; a missing field stands for its sentinel, the
 empty string or -1. A snapshot leaves out the fields that still have their initial value.
*/
module TaskStore {
  import opened Sequences

  /** A QUuid; the empty string is the null id. */
  type TaskId = string

  datatype Status = Unknown | Queued | Checking | Downloading | Seeding | Paused | Finished | Failed

  datatype Kind =
    | UpsertMeta | StatusChanged | ProgressUpdated | RateUpdated | ErrorOccurred | DuplicateRejected | Removed

  datatype TextField = Name | SavePath | Category | Tags | InfoHashV1 | InfoHashV2 | Comment | CreatedBy

  datatype NumberField =
    | TotalBytes | SelectedBytes | DownloadedBytes | UploadedBytes | DownloadRate | UploadRate | Seeders | Users
    | ActiveTime | DlLimit | UlLimit | WastedBytes | NextAnnounce | LastSeenComplete | Pieces | PieceLength
    | CreatedOn | CompletedOn | IsPrivate

  type Texts = map<TextField, string>
  type Numbers = map<NumberField, int>

  datatype TaskEvent = TaskEvent(kind: Kind, taskId: TaskId, status: Status, errorMessage: string, texts: Texts,
                                 numbers: Numbers, availability: real, eventMs: int)

  datatype TaskSnapshot = TaskSnapshot(status: Status, errorMessage: string, texts: Texts, numbers: Numbers,
                                       availability: real, addedAtMs: int, lastUpdatedMs: int)

  type Tasks = map<TaskId, TaskSnapshot>

  // ---------------------------------------------------------------- one event

  const META_TEXTS: set<TextField> := {Name, SavePath, Category, Tags, InfoHashV1, InfoHashV2, Comment, CreatedBy}
  const META_NUMBERS: set<NumberField> := {TotalBytes, SelectedBytes, Pieces, PieceLength, CreatedOn, IsPrivate}
  const PROGRESS_TEXTS: set<TextField> := {Name, Category, Tags, InfoHashV1, InfoHashV2, CreatedBy}
  const PROGRESS_NUMBERS: set<NumberField> :=
    {TotalBytes, SelectedBytes, DownloadedBytes, UploadedBytes, DownloadRate, UploadRate, Seeders, Users, ActiveTime,
     DlLimit, UlLimit, WastedBytes, NextAnnounce, LastSeenComplete, Pieces, PieceLength, CreatedOn, CompletedOn,
     IsPrivate}

  /** The fields of an event that are set, among those its kind writes. */
  function SetTexts(e: Texts, fields: set<TextField>): Texts { map f | f in e && f in fields && e[f] != "" :: e[f] }
  function SetNumbers(e: Numbers, fields: set<NumberField>): Numbers {
    map f | f in e && f in fields && e[f] >= 0 :: e[f]
  }

  /** pickEventTimeOrNow */
  function TimeOf(e: TaskEvent, now: int): int { if e.eventMs >= 0 then e.eventMs else now }

  function Blank(at: int): TaskSnapshot { TaskSnapshot(Unknown, "", map[], map[], 0.0, at, -1) }

  function Updated(s: TaskSnapshot, e: TaskEvent): TaskSnapshot {
    match e.kind
    case UpsertMeta =>
      s.(texts := s.texts + SetTexts(e.texts, META_TEXTS), numbers := s.numbers + SetNumbers(e.numbers, META_NUMBERS))
    case StatusChanged =>
      s.(status := e.status, errorMessage := if e.errorMessage != "" then e.errorMessage else s.errorMessage)
    case ProgressUpdated =>
      s.(status := if e.status != Unknown then e.status else s.status,
         texts := s.texts + SetTexts(e.texts, PROGRESS_TEXTS),
         numbers := s.numbers + SetNumbers(e.numbers, PROGRESS_NUMBERS),
         availability := if e.availability >= 0.0 then e.availability else s.availability)
    case RateUpdated => s.(numbers := s.numbers + SetNumbers(e.numbers, {DownloadRate, UploadRate}))
    case ErrorOccurred => s.(status := Failed, errorMessage := e.errorMessage)
    case DuplicateRejected => s
    case Removed => s
  }

  /** What an event does to the snapshot of its own task. */
  function Step(o: Option<TaskSnapshot>, e: TaskEvent, now: int): Option<TaskSnapshot> {
    match e.kind
    case DuplicateRejected => o
    case Removed => None
    case _ =>
      var s := if o.Some? then o.value else Blank(TimeOf(e, now));
      Some(Updated(s, e).(lastUpdatedMs := TimeOf(e, now)))
  }

  function Lookup(tasks: Tasks, id: TaskId): Option<TaskSnapshot> { if id in tasks then Some(tasks[id]) else None }

  function Put(tasks: Tasks, id: TaskId, o: Option<TaskSnapshot>): Tasks {
    if o.None? then tasks - {id} else tasks[id := o.value]
  }

  class TaskStateStore {
    var tasks: Tasks

    constructor ()
      ensures tasks == map[]
    {
      tasks := map[];
    }

    /** The switch of applyEvent over the kinds that write fields. */
    method Update(was: TaskSnapshot, e: TaskEvent) returns (s: TaskSnapshot)
      ensures s == Updated(was, e)
    {
      s := was;
      match e.kind {
        case UpsertMeta =>
          s := s.(texts := s.texts + SetTexts(e.texts, META_TEXTS));
          s := s.(numbers := s.numbers + SetNumbers(e.numbers, META_NUMBERS));
        case StatusChanged =>
          s := s.(status := e.status);
          if e.errorMessage != "" {
            s := s.(errorMessage := e.errorMessage);
          }
        case ProgressUpdated =>
          if e.status != Unknown {
            s := s.(status := e.status);
          }
          s := s.(texts := s.texts + SetTexts(e.texts, PROGRESS_TEXTS));
          s := s.(numbers := s.numbers + SetNumbers(e.numbers, PROGRESS_NUMBERS));
          if e.availability >= 0.0 {
            s := s.(availability := e.availability);
          }
        case RateUpdated =>
          s := s.(numbers := s.numbers + SetNumbers(e.numbers, {DownloadRate, UploadRate}));
        case ErrorOccurred =>
          s := s.(status := Failed, errorMessage := e.errorMessage);
        case _ =>
      }
    }

    method ApplyEvent(e: TaskEvent, now: int)
      modifies this
      ensures forall id :: Lookup(tasks, id) ==
                if id == e.taskId then Step(Lookup(old(tasks), id), e, now) else Lookup(old(tasks), id)
      ensures tasks == Apply(old(tasks), Timed(e, now))
    {
      if e.kind == DuplicateRejected {
        return;
      }
      if e.kind == Removed {
        tasks := tasks - {e.taskId};
        return;
      }
      if e.taskId !in tasks {
        tasks := tasks[e.taskId := Blank(TimeOf(e, now))];
      }
      var s := Update(tasks[e.taskId], e);
      tasks := tasks[e.taskId := s.(lastUpdatedMs := TimeOf(e, now))];
    }

    method Snapshot(id: TaskId) returns (s: Option<TaskSnapshot>)
      ensures s == Lookup(tasks, id)
    {
      if id !in tasks {
        return None;
      }
      return Some(tasks[id]);
    }
  }

  // ---------------------------------------------------------------- sequences of events

  /** An event and what the clock shows when it is applied. */
  datatype Timed = Timed(e: TaskEvent, now: int)

  function Apply(tasks: Tasks, t: Timed): Tasks { Put(tasks, t.e.taskId, Step(Lookup(tasks, t.e.taskId), t.e, t.now)) }

  function ApplyAll(tasks: Tasks, es: seq<Timed>): Tasks
    decreases |es|
  {
    if es == [] then tasks else Apply(ApplyAll(tasks, es[..|es| - 1]), es[|es| - 1])
  }

  function StepAll(o: Option<TaskSnapshot>, es: seq<Timed>): Option<TaskSnapshot>
    decreases |es|
  {
    if es == [] then o else Step(StepAll(o, es[..|es| - 1]), es[|es| - 1].e, es[|es| - 1].now)
  }

  function Own(es: seq<Timed>, id: TaskId): seq<Timed>
    decreases |es|
  {
    if es == [] then []
    else Own(es[..|es| - 1], id) + if es[|es| - 1].e.taskId == id then [es[|es| - 1]] else []
  }

  /** The events after the last removal. */
  function SinceRemoval(es: seq<Timed>): seq<Timed>
    decreases |es|
  {
    if es == [] || es[|es| - 1].e.kind == Removed then [] else SinceRemoval(es[..|es| - 1]) + [es[|es| - 1]]
  }

  lemma {:induction false} OnlyOwnEventsMatter(tasks: Tasks, es: seq<Timed>, id: TaskId)
    ensures Lookup(ApplyAll(tasks, es), id) == StepAll(Lookup(tasks, id), Own(es, id))
    decreases |es|
  {
    if es != [] {
      OnlyOwnEventsMatter(tasks, es[..|es| - 1], id);
      if es[|es| - 1].e.taskId == id {
        var own := Own(es, id);
        assert own[..|own| - 1] == Own(es[..|es| - 1], id);
      } else {
        assert Own(es, id) == Own(es[..|es| - 1], id);
      }
    }
  }

  lemma {:induction false} RemovalForgets(o: Option<TaskSnapshot>, es: seq<Timed>)
    ensures StepAll(o, es) == StepAll(if SinceRemoval(es) == es then o else None, SinceRemoval(es))
    decreases |es|
  {
    if es != [] && es[|es| - 1].e.kind != Removed {
      var front, tail := es[..|es| - 1], SinceRemoval(es);
      RemovalForgets(o, front);
      assert tail[..|tail| - 1] == SinceRemoval(front);
      assert es == front + [es[|es| - 1]];
      assert tail == es <==> SinceRemoval(front) == front by {
        if tail == es { assert tail[..|tail| - 1] == es[..|es| - 1]; }
      }
    }
  }

  /** The final snapshot of a task is a function of its own events after its last removal. */
  lemma FinalSnapshot(es: seq<Timed>, id: TaskId)
    ensures Lookup(ApplyAll(map[], es), id) == StepAll(None, SinceRemoval(Own(es, id)))
  {
    OnlyOwnEventsMatter(map[], es, id);
    RemovalForgets(None, Own(es, id));
  }

  // ---------------------------------------------------------------- which event sets which field

  predicate WritesText(kind: Kind, f: TextField) {
    kind == UpsertMeta || (kind == ProgressUpdated && f != SavePath && f != Comment)
  }

  predicate WritesNumber(kind: Kind, f: NumberField) {
    match kind
    case ProgressUpdated => true
    case RateUpdated => f == DownloadRate || f == UploadRate
    case UpsertMeta =>
      f == TotalBytes || f == SelectedBytes || f == Pieces || f == PieceLength || f == CreatedOn || f == IsPrivate
    case _ => false
  }

  /** The field has the value of the event if that is set and its kind writes it, and its old value
      otherwise. */
  ghost predicate Overlaid<F, V>(was: map<F, V>, e: map<F, V>, now: map<F, V>, f: F, isSet: V -> bool, writes: bool) {
    if writes && f in e && isSet(e[f]) then f in now && now[f] == e[f]
    else (f in now <==> f in was) && (f in was ==> now[f] == was[f])
  }

  /** Metadata sets every text, labels included; a progress report every text but path and comment;
      nothing else sets one. An empty text leaves the field alone. */
  lemma TextSet(s: TaskSnapshot, e: TaskEvent, now: int, f: TextField)
    requires e.kind != Removed
    ensures var r := Step(Some(s), e, now);
            r.Some? && Overlaid(s.texts, e.texts, r.value.texts, f, (v: string) => v != "", WritesText(e.kind, f))
  {
  }

  lemma NumbersOverlaid(was: Numbers, e: Numbers, fields: set<NumberField>, g: NumberField, writes: bool)
    requires writes <==> g in fields
    ensures Overlaid(was, e, was + SetNumbers(e, fields), g, (v: int) => v >= 0, writes)
  {
  }

  lemma MetaNumbers(g: NumberField)
    ensures g in META_NUMBERS <==> WritesNumber(UpsertMeta, g)
  {
  }

  lemma ProgressNumbers(g: NumberField)
    ensures g in PROGRESS_NUMBERS
  {
  }

  lemma NumbersAfter(s: TaskSnapshot, e: TaskEvent, now: int)
    requires e.kind != Removed
    ensures var r := Step(Some(s), e, now);
            r.Some? && r.value.numbers ==
              match e.kind
              case UpsertMeta => s.numbers + SetNumbers(e.numbers, META_NUMBERS)
              case ProgressUpdated => s.numbers + SetNumbers(e.numbers, PROGRESS_NUMBERS)
              case RateUpdated => s.numbers + SetNumbers(e.numbers, {DownloadRate, UploadRate})
              case _ => s.numbers
  {
  }

  /** Metadata sets six numbers, a progress report every one, a rate report the two rates, and nothing
      else one. A negative number leaves the field alone. */
  lemma NumberSet(s: TaskSnapshot, e: TaskEvent, now: int, g: NumberField)
    requires e.kind != Removed
    ensures var r := Step(Some(s), e, now);
            r.Some? && Overlaid(s.numbers, e.numbers, r.value.numbers, g, (v: int) => v >= 0, WritesNumber(e.kind, g))
  {
    NumbersAfter(s, e, now);
    var r := Step(Some(s), e, now).value;
    if e.kind == UpsertMeta {
      MetaNumbers(g);
      NumbersOverlaid(s.numbers, e.numbers, META_NUMBERS, g, WritesNumber(e.kind, g));
    } else if e.kind == ProgressUpdated {
      ProgressNumbers(g);
      NumbersOverlaid(s.numbers, e.numbers, PROGRESS_NUMBERS, g, true);
    } else if e.kind == RateUpdated {
      NumbersOverlaid(s.numbers, e.numbers, {DownloadRate, UploadRate}, g, WritesNumber(e.kind, g));
    }
  }

  /** The status follows status changes, errors and the progress reports that carry one; the message
      follows errors, and status changes that carry one; the availability follows progress reports. */
  lemma StatusSet(s: TaskSnapshot, e: TaskEvent, now: int)
    requires e.kind != Removed
    ensures var r := Step(Some(s), e, now).value;
            && (r.status == if e.kind == ErrorOccurred then Failed
                            else if e.kind == StatusChanged || (e.kind == ProgressUpdated && e.status != Unknown)
                            then e.status else s.status)
            && (r.errorMessage == if e.kind == ErrorOccurred || (e.kind == StatusChanged && e.errorMessage != "")
                                  then e.errorMessage else s.errorMessage)
            && (r.availability == if e.kind == ProgressUpdated && e.availability >= 0.0 then e.availability
                                  else s.availability)
  {
  }

  /** The time of an event: its own, or what the clock shows when it carries none. */
  function When(t: Timed): int { if t.e.eventMs < 0 then t.now else t.e.eventMs }

  /** A task was added when its first event came, and updated when its last one did. */
  lemma {:induction false} TimesSet(es: seq<Timed>)
    requires es != [] && forall i :: 0 <= i < |es| ==> es[i].e.kind != Removed && es[i].e.kind != DuplicateRejected
    ensures var r := StepAll(None, es);
            r.Some? && r.value.addedAtMs == When(es[0]) && r.value.lastUpdatedMs == When(es[|es| - 1])
    decreases |es|
  {
    if |es| == 1 {
      assert es[..0] == [];
    } else {
      TimesSet(es[..|es| - 1]);
    }
  }

  ghost predicate AllDated(es: seq<Timed>) { forall i :: 0 <= i < |es| ==> es[i].e.eventMs >= 0 }

  ghost predicate SameEvents(a: seq<Timed>, b: seq<Timed>) {
    |a| == |b| && forall i :: 0 <= i < |a| ==> a[i].e == b[i].e
  }

  lemma {:induction false} DatedIgnoresClock(o: Option<TaskSnapshot>, a: seq<Timed>, b: seq<Timed>)
    requires SameEvents(a, b) && AllDated(a)
    ensures StepAll(o, a) == StepAll(o, b)
    decreases |a|
  {
    if a != [] { DatedIgnoresClock(o, a[..|a| - 1], b[..|b| - 1]); }
  }

  lemma {:induction false} OwnDated(es: seq<Timed>, id: TaskId)
    requires AllDated(es)
    ensures AllDated(Own(es, id))
    decreases |es|
  {
    if es != [] { OwnDated(es[..|es| - 1], id); }
  }

  /** Dated events may be interleaved freely across tasks: two batches with the same events for
      each task, in the same order for that task, lead to the same store. */
  lemma InterleavingIsFree(tasks: Tasks, a: seq<Timed>, b: seq<Timed>)
    requires AllDated(a) && forall id :: SameEvents(Own(a, id), Own(b, id))
    ensures ApplyAll(tasks, a) == ApplyAll(tasks, b)
  {
    var x, y := ApplyAll(tasks, a), ApplyAll(tasks, b);
    forall id ensures Lookup(x, id) == Lookup(y, id) {
      OnlyOwnEventsMatter(tasks, a, id);
      OnlyOwnEventsMatter(tasks, b, id);
      OwnDated(a, id);
      DatedIgnoresClock(Lookup(tasks, id), Own(a, id), Own(b, id));
    }
    LookupIsMap(x, y);
  }

  lemma LookupIsMap(x: Tasks, y: Tasks)
    requires forall id :: Lookup(x, id) == Lookup(y, id)
    ensures x == y
  {
    forall id ensures id in x <==> id in y {
      assert Lookup(x, id) == Lookup(y, id);
    }
    forall id | id in x ensures x[id] == y[id] {
      assert Lookup(x, id) == Lookup(y, id);
    }
  }

  // ---------------------------------------------------------------- alerts

  datatype AlertType =
    | TaskAdded | TaskStateChanged | TaskProgress | TaskRate | TaskError | TaskDuplicate | TaskRemoved | Ignored

  datatype AlertView = AlertView(kind: AlertType, taskId: TaskId, status: Status, message: string, texts: Texts,
                                 numbers: Numbers, availability: real, eventMs: int)

  function Only<F, V>(m: map<F, V>, fields: set<F>): map<F, V> { map f | f in m && f in fields :: m[f] }

  /** mapAlertToTaskEvent */
  function MapAlert(a: AlertView): Option<TaskEvent> {
    if a.kind == Ignored || a.taskId == "" then None
    else
      var none := TaskEvent(UpsertMeta, a.taskId, Unknown, "", map[], map[], -1.0, a.eventMs);
      match a.kind
      case TaskAdded =>
        Some(none.(texts := Only(a.texts, {Name, SavePath, InfoHashV1, InfoHashV2, Comment, CreatedBy}),
                   numbers := Only(a.numbers, META_NUMBERS)))
      case TaskStateChanged => Some(none.(kind := StatusChanged, status := a.status, errorMessage := a.message))
      case TaskProgress =>
        Some(none.(kind := ProgressUpdated, status := a.status,
                   texts := Only(a.texts, {Name, InfoHashV1, InfoHashV2, CreatedBy}),
                   numbers := Only(a.numbers, PROGRESS_NUMBERS), availability := a.availability))
      case TaskRate => Some(none.(kind := RateUpdated, numbers := Only(a.numbers, {DownloadRate, UploadRate})))
      case TaskError => Some(none.(kind := ErrorOccurred, errorMessage := a.message))
      case TaskDuplicate => Some(none.(kind := DuplicateRejected, errorMessage := a.message))
      case TaskRemoved => Some(none.(kind := Removed))
      case Ignored => None
  }

  /** The fields an alert of a kind carries to the snapshot. */
  function CarriedTexts(kind: AlertType): set<TextField> {
    match kind
    case TaskAdded => {Name, SavePath, InfoHashV1, InfoHashV2, Comment, CreatedBy}
    case TaskProgress => {Name, InfoHashV1, InfoHashV2, CreatedBy}
    case _ => {}
  }

  function CarriedNumbers(kind: AlertType): set<NumberField> {
    match kind
    case TaskAdded => META_NUMBERS
    case TaskProgress => PROGRESS_NUMBERS
    case TaskRate => {DownloadRate, UploadRate}
    case _ => {}
  }

  /** What a snapshot shows for a field: the alert's value if it carries and sets one, else what it
      showed before. */
  ghost predicate ShowsAlert(s: TaskSnapshot, a: AlertView, r: TaskSnapshot) {
    && (forall f: TextField :: f in r.texts <==>
         f in s.texts || (f in a.texts && f in CarriedTexts(a.kind) && a.texts[f] != ""))
    && (forall f: TextField | f in r.texts ::
          r.texts[f] ==
            if f in a.texts && f in CarriedTexts(a.kind) && a.texts[f] != "" then a.texts[f] else s.texts[f])
    && (forall f: NumberField :: f in r.numbers <==>
         f in s.numbers || (f in a.numbers && f in CarriedNumbers(a.kind) && a.numbers[f] >= 0))
    && (forall f: NumberField | f in r.numbers ::
          r.numbers[f] ==
            if f in a.numbers && f in CarriedNumbers(a.kind) && a.numbers[f] >= 0 then a.numbers[f] else s.numbers[f])
    && r.availability == (if a.kind == TaskProgress && a.availability >= 0.0 then a.availability else s.availability)
  }

  /** The status and the error message after an alert. */
  function AlertStatus(s: TaskSnapshot, a: AlertView): (Status, string) {
    match a.kind
    case TaskStateChanged => (a.status, if a.message != "" then a.message else s.errorMessage)
    case TaskError => (Failed, a.message)
    case TaskProgress => (if a.status != Unknown then a.status else s.status, s.errorMessage)
    case _ => (s.status, s.errorMessage)
  }

  /** The snapshot with the carried fields, the status and the message of the alert. */
  function WithAlert(s: TaskSnapshot, a: AlertView): TaskSnapshot {
    var st := AlertStatus(s, a);
    s.(status := st.0, errorMessage := st.1, texts := s.texts + SetTexts(a.texts, CarriedTexts(a.kind)),
       numbers := s.numbers + SetNumbers(a.numbers, CarriedNumbers(a.kind)),
       availability := if a.kind == TaskProgress && a.availability >= 0.0 then a.availability else s.availability)
  }

  lemma UpdatedByAlert(s: TaskSnapshot, a: AlertView)
    requires MapAlert(a).Some? && a.kind != TaskRemoved && a.kind != TaskDuplicate
    ensures Updated(s, MapAlert(a).value) == WithAlert(s, a)
  {
    var none: Texts, zero: Numbers := map[], map[];
    assert s.texts + none == s.texts && s.numbers + zero == s.numbers;
    assert SetTexts(a.texts, {}) == none && SetNumbers(a.numbers, {}) == zero;
    match a.kind {
      case TaskAdded =>
        SetCarried(a.texts, CarriedTexts(a.kind), META_TEXTS);
        NumbersCarried(a.numbers, META_NUMBERS);
      case TaskProgress =>
        SetCarried(a.texts, CarriedTexts(a.kind), PROGRESS_TEXTS);
        NumbersCarried(a.numbers, PROGRESS_NUMBERS);
      case TaskRate => NumbersCarried(a.numbers, {DownloadRate, UploadRate});
      case _ =>
    }
  }

  lemma WithAlertShows(s: TaskSnapshot, a: AlertView, at: int)
    ensures ShowsAlert(s, a, WithAlert(s, a).(lastUpdatedMs := at))
  {
  }

  /** From alert to snapshot: the mapper and the store together carry every field of the alert that
      its kind stands for, and no other, into the snapshot. */
  lemma AlertReachesSnapshot(o: Option<TaskSnapshot>, a: AlertView, now: int)
    requires MapAlert(a).Some?
    ensures a.kind == TaskRemoved ==> Step(o, MapAlert(a).value, now).None?
    ensures a.kind == TaskDuplicate ==> Step(o, MapAlert(a).value, now) == o
    ensures a.kind != TaskRemoved && a.kind != TaskDuplicate ==>
              var r := Step(o, MapAlert(a).value, now);
              var at := if a.eventMs >= 0 then a.eventMs else now;
              var s := if o.Some? then o.value else Blank(at);
              && r.Some? && ShowsAlert(s, a, r.value)
              && (r.value.status, r.value.errorMessage) == AlertStatus(s, a)
              && r.value.lastUpdatedMs == at && r.value.addedAtMs == s.addedAtMs
  {
    if a.kind != TaskRemoved && a.kind != TaskDuplicate {
      var at := if a.eventMs >= 0 then a.eventMs else now;
      var s := if o.Some? then o.value else Blank(at);
      UpdatedByAlert(s, a);
      WithAlertShows(s, a, at);
    }
  }

  lemma NumbersCarried(m: Numbers, fields: set<NumberField>)
    ensures SetNumbers(Only(m, fields), fields) == SetNumbers(m, fields)
  {
  }

  lemma SetCarried(m: Texts, carried: set<TextField>, written: set<TextField>)
    requires carried <= written
    ensures SetTexts(Only(m, carried), written) == SetTexts(m, carried)
  {
  }

  /** Only alerts about a task become events, and those that say nothing about it do not. */
  lemma MappedExactly(a: AlertView)
    ensures MapAlert(a).Some? <==> a.taskId != "" && a.kind != Ignored
    ensures MapAlert(a).Some? ==> MapAlert(a).value.taskId == a.taskId && MapAlert(a).value.eventMs == a.eventMs
    ensures MapAlert(a).Some? ==> (MapAlert(a).value.kind == Removed <==> a.kind == TaskRemoved)
    ensures MapAlert(a).Some? && a.kind == TaskDuplicate ==>
              MapAlert(a).value.kind == DuplicateRejected && MapAlert(a).value.errorMessage == a.message
    ensures MapAlert(a).Some? && MapAlert(a).value.kind == DuplicateRejected ==> a.kind == TaskDuplicate
  {
  }

  predicate FromAlert(e: TaskEvent) { Category !in e.texts && Tags !in e.texts }

  lemma AlertsCarryNoLabels(a: AlertView)
    ensures MapAlert(a).Some? ==> FromAlert(MapAlert(a).value) && MapAlert(a).value.taskId == a.taskId
  {
  }

  function LabelsOf(s: TaskSnapshot): (Option<string>, Option<string>) {
    (if Category in s.texts then Some(s.texts[Category]) else None,
     if Tags in s.texts then Some(s.texts[Tags]) else None)
  }

  // ---------------------------------------------------------------- the status lock

  type Locks = map<TaskId, int>

  function MapAll(views: seq<AlertView>): seq<TaskEvent> {
    if views == [] then []
    else
      var front, e := MapAll(views[..|views| - 1]), MapAlert(views[|views| - 1]);
      if e.Some? then front + [e.value] else front
  }

  /** One event passes the lock of its task: what becomes of the locks and of the event. */
  function PassLock(locks: Locks, e: TaskEvent, now: int): (Locks, TaskEvent) {
    if e.kind != ProgressUpdated || e.taskId !in locks then (locks, e)
    else if now < locks[e.taskId] then (locks, e.(status := Unknown))
    else (locks - {e.taskId}, e)
  }

  function PassAll(locks: Locks, es: seq<TaskEvent>, now: int): (r: (Locks, seq<TaskEvent>))
    ensures |r.1| == |es|
    decreases |es|
  {
    if es == [] then (locks, [])
    else
      var front := PassAll(locks, es[..|es| - 1], now);
      var last := PassLock(front.0, es[|es| - 1], now);
      (last.0, front.1 + [last.1])
  }

  function Dated(es: seq<TaskEvent>, clock: nat -> int): (r: seq<Timed>)
    ensures |r| == |es|
  {
    seq(|es|, i requires 0 <= i < |es| => Timed(es[i], clock(i)))
  }

  datatype Ingester = Ingester(tasks: Tasks, locks: Locks)

  /** `now` is read once per batch, `clock` at each event the store applies. */
  datatype Action =
    | Lock(id: TaskId, until: int)
    | Ingest(views: seq<AlertView>, now: int, clock: nat -> int)
    | Consume(e: TaskEvent, time: int)

  function Act(s: Ingester, a: Action): Ingester {
    match a
    case Lock(id, until) => s.(locks := s.locks[id := until])
    case Ingest(views, now, clock) =>
      var p := PassAll(s.locks, MapAll(views), now);
      Ingester(ApplyAll(s.tasks, Dated(p.1, clock)), p.0)
    case Consume(e, time) => s.(tasks := Apply(s.tasks, Timed(e, time)))
  }

  function Run(run: seq<Action>): Ingester
    decreases |run|
  {
    if run == [] then Ingester(map[], map[]) else Act(Run(run[..|run| - 1]), run[|run| - 1])
  }

  /** The batch holds a progress event of the task. */
  ghost predicate Reports(es: seq<TaskEvent>, id: TaskId) {
    exists i :: 0 <= i < |es| && es[i].kind == ProgressUpdated && es[i].taskId == id
  }

  /** A batch ends a lock exactly when it reports on the task at or after the end of the lock, and
      it sets no lock. */
  lemma {:induction false} PassAllLocks(locks: Locks, es: seq<TaskEvent>, now: int, id: TaskId)
    ensures var after := PassAll(locks, es, now).0;
            && (id in after <==> id in locks && !(Reports(es, id) && now >= locks[id]))
            && (id in after ==> after[id] == locks[id])
    decreases |es|
  {
    if es != [] {
      var front, e := es[..|es| - 1], es[|es| - 1];
      PassAllLocks(locks, front, now, id);
      assert Reports(es, id) <==> Reports(front, id) || (e.kind == ProgressUpdated && e.taskId == id) by {
        if i :| 0 <= i < |front| && front[i].kind == ProgressUpdated && front[i].taskId == id {
          assert es[i] == front[i];
        }
        if i :| 0 <= i < |es| && es[i].kind == ProgressUpdated && es[i].taskId == id && i < |front| {
          assert front[i] == es[i];
        }
      }
    }
  }

  /** While the lock of a task is in force, the progress events of a batch have no status. */
  lemma {:induction false} LockedProgressIsSilent(locks: Locks, es: seq<TaskEvent>, now: int, id: TaskId, i: nat)
    requires id in locks && now < locks[id] && i < |es| && es[i].taskId == id
    ensures PassAll(locks, es, now).1[i] == if es[i].kind == ProgressUpdated then es[i].(status := Unknown) else es[i]
    decreases |es|
  {
    var front := es[..|es| - 1];
    PassAllLocks(locks, front, now, id);
    if i < |front| {
      LockedProgressIsSilent(locks, front, now, id, i);
    }
  }

  /** The action ends the lock `until` of the task. */
  ghost predicate Ends(a: Action, id: TaskId, until: int) {
    || (a.Lock? && a.id == id)
    || (a.Ingest? && Reports(MapAll(a.views), id) && a.now >= until)
  }

  ghost predicate LockedSince(run: seq<Action>, i: nat, id: TaskId, until: int) {
    i < |run| && run[i] == Lock(id, until) && forall j :: i < j < |run| ==> !Ends(run[j], id, until)
  }

  lemma LockedSinceExtends(run: seq<Action>, i: nat, id: TaskId, until: int)
    requires i < |run| - 1
    ensures LockedSince(run, i, id, until) <==>
              LockedSince(run[..|run| - 1], i, id, until) && !Ends(run[|run| - 1], id, until)
  {
    var front := run[..|run| - 1];
    if LockedSince(front, i, id, until) && !Ends(run[|run| - 1], id, until) {
      forall j | i < j < |run| ensures !Ends(run[j], id, until) {
        if j < |front| { assert front[j] == run[j]; }
      }
    }
    if LockedSince(run, i, id, until) {
      forall j | i < j < |front| ensures !Ends(front[j], id, until) { assert front[j] == run[j]; }
    }
  }

  lemma ActOnLock(s: Ingester, a: Action, id: TaskId, until: int)
    ensures id in Act(s, a).locks && Act(s, a).locks[id] == until <==>
              a == Lock(id, until) || (id in s.locks && s.locks[id] == until && !Ends(a, id, until))
  {
    if a.Ingest? { PassAllLocks(s.locks, MapAll(a.views), a.now, id); }
  }

  /** After any run a task is locked until a time exactly when it was locked until then, and since
      then neither locked anew nor reported on by a batch at or after that time. */
  lemma {:induction false} LockedExactly(run: seq<Action>, id: TaskId, until: int)
    ensures id in Run(run).locks && Run(run).locks[id] == until <==> exists i :: LockedSince(run, i, id, until)
    decreases |run|
  {
    if run != [] {
      var n := |run| - 1;
      var front, a := run[..n], run[n];
      LockedExactly(front, id, until);
      ActOnLock(Run(front), a, id, until);
      forall i: nat | i < n
        ensures LockedSince(run, i, id, until) <==> LockedSince(front, i, id, until) && !Ends(a, id, until)
      {
        LockedSinceExtends(run, i, id, until);
      }
      assert LockedSince(run, n, id, until) <==> a == Lock(id, until);
      if i :| LockedSince(front, i, id, until) && !Ends(a, id, until) { assert LockedSince(run, i, id, until); }
      if i :| LockedSince(run, i, id, until) && i != n { assert LockedSince(front, i, id, until); }
    }
  }

  /** The batches after step `m` see a clock that is nowhere ahead of `now`. */
  ghost predicate ClockUpTo(run: seq<Action>, m: nat, now: int) {
    forall j :: m < j < |run| && run[j].Ingest? ==> run[j].now <= now
  }

  /** The events differ at most in the status of progress reports on the task. */
  ghost predicate SameButStatus(a: seq<TaskEvent>, b: seq<TaskEvent>, id: TaskId) {
    |a| == |b| && forall i :: 0 <= i < |a| ==>
      a[i] == b[i] || (a[i].kind == ProgressUpdated && a[i].taskId == id && b[i] == a[i].(status := b[i].status))
  }

  lemma {:induction false} LockedStatusIsIgnored(locks: Locks, a: seq<TaskEvent>, b: seq<TaskEvent>, now: int,
                                                 id: TaskId)
    requires SameButStatus(a, b, id) && id in locks && now < locks[id]
    ensures PassAll(locks, a, now) == PassAll(locks, b, now)
    decreases |a|
  {
    if a != [] {
      LockedStatusIsIgnored(locks, a[..|a| - 1], b[..|b| - 1], now, id);
      PassAllLocks(locks, a[..|a| - 1], now, id);
    }
  }

  /** With a clock that never goes back, a lock set at step `m` holds in each batch before its end:
      whatever status the progress reports on its task carry, the outcome is the same. */
  lemma LockHoldsUntilItsEnd(run: seq<Action>, m: nat, id: TaskId, until: int, now: int, a: seq<AlertView>,
                             b: seq<AlertView>, clock: nat -> int)
    requires m < |run| && run[m] == Lock(id, until) && (forall j :: m < j < |run| && run[j].Lock? ==> run[j].id != id)
    requires ClockUpTo(run, m, now) && now < until
    requires SameButStatus(MapAll(a), MapAll(b), id)
    ensures Act(Run(run), Ingest(a, now, clock)) == Act(Run(run), Ingest(b, now, clock))
  {
    forall j | m < j < |run| ensures !Ends(run[j], id, until) { }
    assert LockedSince(run, m, id, until);
    LockedExactly(run, id, until);
    LockedStatusIsIgnored(Run(run).locks, MapAll(a), MapAll(b), now, id);
  }

  /** The kinds of event that leave the status alone: no change of status, error or removal. */
  predicate LeavesStatus(kind: Kind) { kind !in {StatusChanged, ErrorOccurred, Removed} }

  lemma {:induction false} SilentKeepsStatus(tasks: Tasks, es: seq<Timed>, id: TaskId)
    requires id in tasks
    requires forall k :: 0 <= k < |es| && es[k].e.taskId == id ==>
               LeavesStatus(es[k].e.kind) && (es[k].e.kind == ProgressUpdated ==> es[k].e.status == Unknown)
    ensures id in ApplyAll(tasks, es) && ApplyAll(tasks, es)[id].status == tasks[id].status
    decreases |es|
  {
    if es != [] { SilentKeepsStatus(tasks, es[..|es| - 1], id); }
  }

  /** The action changes neither the lock of the task nor, once progress reports are silenced, its
      status. An event given to the store directly passes no lock. */
  ghost predicate Spares(a: Action, id: TaskId, until: int) {
    match a
    case Lock(other, _) => other != id
    case Ingest(views, now, _) => now < until && Harmless(MapAll(views), id)
    case Consume(e, _) => e.taskId == id ==> LeavesStatus(e.kind) && (e.kind == ProgressUpdated ==> e.status == Unknown)
  }

  ghost predicate Harmless(es: seq<TaskEvent>, id: TaskId) {
    forall i :: 0 <= i < |es| && es[i].taskId == id ==> LeavesStatus(es[i].kind)
  }

  lemma LockedBatchKeepsStatus(s: Ingester, views: seq<AlertView>, now: int, clock: nat -> int, id: TaskId)
    requires id in s.tasks && id in s.locks && now < s.locks[id] && Harmless(MapAll(views), id)
    ensures var s' := Act(s, Ingest(views, now, clock));
            id in s'.tasks && s'.tasks[id].status == s.tasks[id].status
  {
    var es := MapAll(views);
    var passed := PassAll(s.locks, es, now).1;
    PassKeepsKinds(s.locks, es, now);
    forall i | 0 <= i < |es| && es[i].taskId == id
      ensures LeavesStatus(passed[i].kind) && (passed[i].kind == ProgressUpdated ==> passed[i].status == Unknown)
    {
      LockedProgressIsSilent(s.locks, es, now, id, i);
    }
    SilentKeepsStatus(s.tasks, Dated(passed, clock), id);
  }

  /** From the lock at step `m` on, through any number of batches before its end, a task keeps the
      status it had, whatever its progress reports say, until an event that is about the status
      itself comes. */
  lemma {:induction false} LockedStatusStays(run: seq<Action>, m: nat, id: TaskId, until: int)
    requires m < |run| && run[m] == Lock(id, until) && id in Run(run[..m]).tasks
    requires forall j :: m < j < |run| ==> Spares(run[j], id, until)
    ensures var s := Run(run);
            && id in s.locks && s.locks[id] == until
            && id in s.tasks && s.tasks[id].status == Run(run[..m]).tasks[id].status
    decreases |run|
  {
    var front, a := run[..|run| - 1], run[|run| - 1];
    if m < |front| {
      assert front[..m] == run[..m];
      LockedStatusStays(front, m, id, until);
      ActOnLock(Run(front), a, id, until);
      match a {
        case Lock(_, _) =>
        case Ingest(views, now, clock) => LockedBatchKeepsStatus(Run(front), views, now, clock, id);
        case Consume(_, _) =>
      }
    } else {
      assert front == run[..m];
    }
  }

  // ---------------------------------------------------------------- labels

  ghost predicate Unlabelled(es: seq<TaskEvent>, id: TaskId) {
    forall i :: 0 <= i < |es| ==> FromAlert(es[i]) && (es[i].taskId == id ==> es[i].kind != Removed)
  }

  ghost predicate Removes(views: seq<AlertView>, id: TaskId) {
    exists i :: 0 <= i < |views| && views[i].kind == TaskRemoved && views[i].taskId == id
  }

  lemma {:induction false} MappedUnlabelled(views: seq<AlertView>, id: TaskId)
    requires !Removes(views, id)
    ensures Unlabelled(MapAll(views), id)
    decreases |views|
  {
    if views != [] {
      var front, last := views[..|views| - 1], views[|views| - 1];
      forall i | 0 <= i < |front| ensures !(front[i].kind == TaskRemoved && front[i].taskId == id) {
        assert front[i] == views[i];
      }
      MappedUnlabelled(front, id);
      AlertsCarryNoLabels(last);
    }
  }

  lemma {:induction false} PassKeepsUnlabelled(locks: Locks, es: seq<TaskEvent>, now: int, id: TaskId)
    requires Unlabelled(es, id)
    ensures Unlabelled(PassAll(locks, es, now).1, id)
    decreases |es|
  {
    if es != [] { PassKeepsUnlabelled(locks, es[..|es| - 1], now, id); }
  }

  lemma LabelsStep(tasks: Tasks, t: Timed, id: TaskId)
    requires id in tasks && FromAlert(t.e) && (t.e.taskId == id ==> t.e.kind != Removed)
    ensures id in Apply(tasks, t) && LabelsOf(Apply(tasks, t)[id]) == LabelsOf(tasks[id])
  {
  }

  lemma {:induction false} UnlabelledKeepsLabels(tasks: Tasks, es: seq<TaskEvent>, clock: nat -> int, id: TaskId)
    requires id in tasks && Unlabelled(es, id)
    ensures var t := ApplyAll(tasks, Dated(es, clock)); id in t && LabelsOf(t[id]) == LabelsOf(tasks[id])
    decreases |es|
  {
    if es != [] {
      var front, timed := es[..|es| - 1], Dated(es, clock);
      assert timed[..|timed| - 1] == Dated(front, clock);
      UnlabelledKeepsLabels(tasks, front, clock, id);
      LabelsStep(ApplyAll(tasks, Dated(front, clock)), timed[|timed| - 1], id);
    }
  }

  lemma BatchKeepsLabels(s: Ingester, views: seq<AlertView>, now: int, clock: nat -> int, id: TaskId)
    requires id in s.tasks && !Removes(views, id)
    ensures var s' := Act(s, Ingest(views, now, clock));
            id in s'.tasks && LabelsOf(s'.tasks[id]) == LabelsOf(s.tasks[id])
  {
    MappedUnlabelled(views, id);
    PassKeepsUnlabelled(s.locks, MapAll(views), now, id);
    UnlabelledKeepsLabels(s.tasks, PassAll(s.locks, MapAll(views), now).1, clock, id);
  }

  /** No batches of alerts, with locks set in between, change the category or the tags of a task
      they do not remove. */
  lemma {:induction false} AlertsKeepLabels(run: seq<Action>, m: nat, id: TaskId)
    requires m <= |run| && id in Run(run[..m]).tasks
    requires forall j :: m <= j < |run| ==> !run[j].Consume? && (run[j].Ingest? ==> !Removes(run[j].views, id))
    ensures id in Run(run).tasks
    ensures var was, now := Run(run[..m]).tasks[id], Run(run).tasks[id];
            forall f :: f == Category || f == Tags ==>
              (f in now.texts <==> f in was.texts) && (f in was.texts ==> now.texts[f] == was.texts[f])
    decreases |run|
  {
    if m == |run| {
      assert run[..m] == run;
    } else {
      var front, a := run[..|run| - 1], run[|run| - 1];
      assert front[..m] == run[..m];
      AlertsKeepLabels(front, m, id);
      if a.Ingest? { BatchKeepsLabels(Run(front), a.views, a.now, a.clock, id); }
    }
  }

  // ---------------------------------------------------------------- a clock set back

  lemma OneReport(report: AlertView)
    requires report.kind == TaskProgress && report.taskId != ""
    ensures MapAll([report]) == [MapAlert(report).value] && Reports(MapAll([report]), report.taskId)
  {
    var one := [report];
    assert one[..|one| - 1] == [] && MapAll(one[..|one| - 1]) == [];
    assert MapAll(one)[0].kind == ProgressUpdated;
  }

  lemma RunTwo(a: Action, b: Action)
    ensures Run([a, b]) == Act(Act(Ingester(map[], map[]), a), b)
  {
    var run, one := [a, b], [a];
    assert run[..|run| - 1] == one && one[..|one| - 1] == [];
    assert Run(one) == Act(Run([]), a);
  }

  lemma IngestLocks(s: Ingester, views: seq<AlertView>, now: int, clock: nat -> int)
    ensures Act(s, Ingest(views, now, clock)).locks == PassAll(s.locks, MapAll(views), now).0
  {
  }

  lemma PassUnlocked(locks: Locks, e: TaskEvent, now: int)
    requires e.taskId !in locks
    ensures PassAll(locks, [e], now).1 == [e]
  {
    assert [e][..0] == [];
  }

  /** The wall clock may be set back: then a lock that a report has already ended no longer holds
      although its end lies ahead again. */
  lemma ClockSetBackUnlocks(id: TaskId, report: AlertView, until: int, clock: nat -> int)
    requires report.kind == TaskProgress && report.taskId == id != "" && report.status != Unknown
    ensures var s := Run([Lock(id, until), Ingest([report], until, clock)]);
            id !in s.locks && PassAll(s.locks, MapAll([report]), until - 1).1 == [MapAlert(report).value]
  {
    var a, b := Lock(id, until), Ingest([report], until, clock);
    OneReport(report);
    RunTwo(a, b);
    var locked := Act(Ingester(map[], map[]), a);
    IngestLocks(locked, [report], until, clock);
    PassAllLocks(locked.locks, MapAll([report]), until, id);
    PassUnlocked(Act(locked, b).locks, MapAlert(report).value, until - 1);
  }

  class EventIngestOrchestrator {
    const store: TaskStateStore
    var statusLockUntilMs: Locks

    constructor ()
      ensures State() == Ingester(map[], map[]) && fresh(store)
    {
      store := new TaskStateStore();
      statusLockUntilMs := map[];
    }

    ghost function State(): Ingester
      reads this, store
    {
      Ingester(store.tasks, statusLockUntilMs)
    }

    method LockProgressStatus(id: TaskId, until: int)
      modifies this
      ensures State() == Act(old(State()), Lock(id, until))
    {
      statusLockUntilMs := statusLockUntilMs[id := until];
    }

    method MapViews(views: seq<AlertView>) returns (events: seq<TaskEvent>)
      ensures events == MapAll(views)
    {
      events := [];
      for i := 0 to |views|
        invariant events == MapAll(views[..i])
      {
        assert views[..i + 1][..i] == views[..i];
        var ev := MapAlert(views[i]);
        if ev.Some? {
          events := events + [ev.value];
        }
      }
      assert views[..|views|] == views;
    }

    method PassLocks(events: seq<TaskEvent>, now: int) returns (passed: seq<TaskEvent>)
      modifies this
      ensures (statusLockUntilMs, passed) == PassAll(old(statusLockUntilMs), events, now)
    {
      passed := [];
      for i := 0 to |events|
        invariant (statusLockUntilMs, passed) == PassAll(old(statusLockUntilMs), events[..i], now)
      {
        assert events[..i + 1][..i] == events[..i];
        var ev := events[i];
        if ev.kind == ProgressUpdated && ev.taskId in statusLockUntilMs {
          if now < statusLockUntilMs[ev.taskId] {
            ev := ev.(status := Unknown);
          } else {
            statusLockUntilMs := statusLockUntilMs - {ev.taskId};
          }
        }
        passed := passed + [ev];
      }
      assert events[..|events|] == events;
    }

    method ConsumeBatch(events: seq<TaskEvent>, clock: nat -> int)
      modifies store
      ensures store.tasks == ApplyAll(old(store.tasks), Dated(events, clock))
    {
      ghost var all := Dated(events, clock);
      for i := 0 to |events|
        invariant store.tasks == ApplyAll(old(store.tasks), all[..i])
      {
        assert all[..i + 1][..i] == all[..i];
        store.ApplyEvent(events[i], clock(i));
      }
      assert all[..|all|] == all;
    }

    /** The removed and rejected tasks are reported in the order of the batch. */
    method Ingest(views: seq<AlertView>, now: int, clock: nat -> int)
      returns (removed: seq<TaskId>, rejected: seq<TaskId>)
      modifies this, store
      ensures State() == Act(old(State()), Action.Ingest(views, now, clock))
      ensures removed == IdsOf(MapAll(views), Removed) && rejected == IdsOf(MapAll(views), DuplicateRejected)
    {
      var events := MapViews(views);
      var passed := PassLocks(events, now);
      ConsumeBatch(passed, clock);
      removed, rejected := [], [];
      PassKeepsKinds(old(statusLockUntilMs), events, now);
      for i := 0 to |passed|
        invariant removed == IdsOf(events[..i], Removed) && rejected == IdsOf(events[..i], DuplicateRejected)
      {
        assert events[..i + 1][..i] == events[..i];
        if passed[i].kind == Removed {
          removed := removed + [passed[i].taskId];
        } else if passed[i].kind == DuplicateRejected {
          rejected := rejected + [passed[i].taskId];
        }
      }
      assert events[..|events|] == events;
    }
  }

  function IdsOf(es: seq<TaskEvent>, kind: Kind): seq<TaskId> {
    if es == [] then []
    else IdsOf(es[..|es| - 1], kind) + if es[|es| - 1].kind == kind then [es[|es| - 1].taskId] else []
  }

  /** The ids of the events of one kind, in the order of the events. */
  lemma {:induction false} IdsInOrder(es: seq<TaskEvent>, kind: Kind)
    ensures var w := Where(es, (e: TaskEvent) => e.kind == kind);
            |IdsOf(es, kind)| == |w| && forall i :: 0 <= i < |w| ==> IdsOf(es, kind)[i] == es[w[i]].taskId
    decreases |es|
  {
    if es != [] { IdsInOrder(es[..|es| - 1], kind); }
  }

  lemma {:induction false} PassKeepsKinds(locks: Locks, es: seq<TaskEvent>, now: int)
    ensures forall i :: 0 <= i < |es| ==>
              PassAll(locks, es, now).1[i].kind == es[i].kind && PassAll(locks, es, now).1[i].taskId == es[i].taskId
    decreases |es|
  {
    if es != [] { PassKeepsKinds(locks, es[..|es| - 1], now); }
  }
}
