/**
 * The task container of `src/hooks/use-tasks.tsx` (and its twin hook in
 * `src/hooks/use-tasks.ts`): a live subscription to `users/{uid}/tasks` grouped
 * into the seven day columns, and the four writes the board issues.
 *
 * The backend collection is a field of the provider, one map from document id
 * to stored record per user; a snapshot is the sequence of documents the query
 * delivers, in delivery order.
 */
module Tasks {
  import opened Wrappers
  import opened Week

  /** The fields of a stored task document (`createdAt` is not modelled). The
      `day` field is whatever string was written. */
  datatype TaskRecord = TaskRecord(text: string, completed: bool, day: string)

  /** One document of a snapshot: its id and its fields. */
  datatype TaskDoc = TaskDoc(id: string, rec: TaskRecord)

  /** One user's `tasks` collection: document id to record. */
  type Collection = map<string, TaskRecord>

  /** How a write issued by the container ends. */
  datatype WriteOutcome =
    | Skipped    // returned before calling the backend
    | Written    // the backend applied the write
    | NotFound   // `updateDoc` on a document that does not exist rejects
    | Rejected   // the backend refused the write (permissions, connectivity)

  const InitialTasks: DayTasks := map[
    Monday := [], Tuesday := [], Wednesday := [], Thursday := [],
    Friday := [], Saturday := [], Sunday := []]

  lemma InitialTasksEmpty()
    ensures IsTotal(InitialTasks) && forall d: Day :: InitialTasks[d] == []
  {
    forall d: Day ensures d in InitialTasks && InitialTasks[d] == [] { DayCases(d); }
  }

  /** `{ id: doc.id, ...doc.data() }` once its day is known to be `d`. */
  function AsTask(doc: TaskDoc, d: Day): Task {
    Task(doc.id, doc.rec.text, doc.rec.completed, d)
  }

  /** The day a snapshot document's `day` field names, if it names one. */
  function DocDay(doc: TaskDoc): Option<Day> {
    ParseDay(doc.rec.day)
  }

  /** What a `forEach` that pushes every element to the column of the day `slot`
      gives it leaves in the column of day `d`: the task `make` builds from each
      element assigned to `d`, in order. */
  function Column<T>(s: seq<T>, slot: T -> Option<Day>, make: (T, Day) -> Task, d: Day): seq<Task>
    decreases |s|
  {
    if s == [] then []
    else
      var last := s[|s| - 1];
      Column(s[..|s| - 1], slot, make, d) + (if slot(last) == Some(d) then [make(last, d)] else [])
  }

  /** The column of day `d`: the snapshot's documents whose `day` names `d`, in
      snapshot order. */
  function Bucket(docs: seq<TaskDoc>, d: Day): seq<Task> {
    Column(docs, DocDay, AsTask, d)
  }

  /** The grouping a snapshot produces: one column per day, for all seven days. */
  function Grouped(docs: seq<TaskDoc>): (g: DayTasks)
    ensures IsTotal(g)
  {
    var g := map[Monday := Bucket(docs, Monday), Tuesday := Bucket(docs, Tuesday),
                 Wednesday := Bucket(docs, Wednesday), Thursday := Bucket(docs, Thursday),
                 Friday := Bucket(docs, Friday), Saturday := Bucket(docs, Saturday),
                 Sunday := Bucket(docs, Sunday)];
    assert IsTotal(g) by {
      forall d: Day ensures d in g { DayCases(d); }
    }
    g
  }

  lemma GroupedAt(docs: seq<TaskDoc>, d: Day)
    ensures Grouped(docs)[d] == Bucket(docs, d)
  {
    DayCases(d);
  }

  /** An empty snapshot gives the initial board. */
  lemma GroupedEmpty()
    ensures Grouped([]) == InitialTasks
  {
    InitialTasksEmpty();
    forall d: Day ensures Grouped([])[d] == InitialTasks[d] {
      GroupedAt([], d);
    }
    TotalEqual(Grouped([]), InitialTasks);
  }

  /** Two boards with all seven columns are equal when every column is. */
  lemma TotalEqual(g1: DayTasks, g2: DayTasks)
    requires IsTotal(g1) && IsTotal(g2)
    requires forall d: Day :: g1[d] == g2[d]
    ensures g1 == g2
  {
    assert g1.Keys == g2.Keys;
  }

  /** The number of snapshot documents whose `day` names no day. */
  function CountUnknownDay(docs: seq<TaskDoc>): nat
    decreases |docs|
  {
    if docs == [] then 0
    else CountUnknownDay(docs[..|docs| - 1]) + (if ParseDay(docs[|docs| - 1].rec.day).None? then 1 else 0)
  }

  /** `Object.values(tasks).flat()`: the columns one after the other, Monday first. */
  function Flatten(g: DayTasks): (r: seq<Task>)
    requires IsTotal(g)
    ensures forall t :: t in r <==> exists d: Day :: t in g[d]
  {
    ColumnsCover(g);
    g[Monday] + g[Tuesday] + g[Wednesday] + g[Thursday] + g[Friday] + g[Saturday] + g[Sunday]
  }

  /** A task found in some column is in one of the seven. */
  lemma ColumnsCover(g: DayTasks)
    requires IsTotal(g)
    ensures forall t :: (exists d: Day :: t in g[d]) ==>
              t in g[Monday] || t in g[Tuesday] || t in g[Wednesday] || t in g[Thursday] ||
              t in g[Friday] || t in g[Saturday] || t in g[Sunday]
  {
    forall t | exists d: Day :: t in g[d]
      ensures t in g[Monday] || t in g[Tuesday] || t in g[Wednesday] || t in g[Thursday] ||
              t in g[Friday] || t in g[Saturday] || t in g[Sunday]
    {
      var d: Day :| t in g[d];
      DayCases(d);
    }
  }

  function TasksOn(g: DayTasks, d: Day): seq<Task> {
    if d in g then g[d] else []
  }

  function CollectionOf(store: map<Uid, Collection>, uid: Uid): Collection {
    if uid in store then store[uid] else map[]
  }

  /** `Array.prototype.find` on a column: the first task with the id, if any. */
  function FindTask(column: seq<Task>, id: string): (r: Option<Task>)
    ensures r.None? <==> forall k :: 0 <= k < |column| ==> column[k].id != id
    ensures r.Some? ==> exists k :: 0 <= k < |column| && column[k] == r.value && r.value.id == id
                          && forall j :: 0 <= j < k ==> column[j].id != id
    decreases |column|
  {
    if column == [] then None
    else if column[0].id == id then Some(column[0])
    else
      var r := FindTask(column[1..], id);
      if r.Some? then
        var k :| 0 <= k < |column[1..]| && column[1..][k] == r.value && r.value.id == id
                 && forall j :: 0 <= j < k ==> column[1..][j].id != id;
        assert column[k + 1] == r.value;
        r
      else r
  }

  /** `addDoc`: a new document under `id`; every other document unchanged. */
  function Added(coll: Collection, id: string, day: Day, text: string): (r: Collection)
    ensures r.Keys == coll.Keys + {id}
    ensures r[id] == TaskRecord(text, false, DayName(day))
    ensures forall k :: k in coll && k != id ==> r[k] == coll[k]
  {
    coll[id := TaskRecord(text, false, DayName(day))]
  }

  /** `updateDoc(ref, { completed })` on an existing document. */
  function SetCompleted(coll: Collection, id: string, completed: bool): (r: Collection)
    requires id in coll
    ensures r.Keys == coll.Keys
    ensures r[id].completed == completed && r[id].text == coll[id].text && r[id].day == coll[id].day
    ensures forall k :: k in coll && k != id ==> r[k] == coll[k]
  {
    coll[id := coll[id].(completed := completed)]
  }

  /** `updateDoc(ref, { text })` on an existing document. */
  function SetText(coll: Collection, id: string, text: string): (r: Collection)
    requires id in coll
    ensures r.Keys == coll.Keys
    ensures r[id].text == text && r[id].completed == coll[id].completed && r[id].day == coll[id].day
    ensures forall k :: k in coll && k != id ==> r[k] == coll[k]
  {
    coll[id := coll[id].(text := text)]
  }

  /** `deleteDoc`: the document is gone whether or not it existed. */
  function Deleted(coll: Collection, id: string): (r: Collection)
    ensures r.Keys == coll.Keys - {id}
    ensures forall k :: k in r ==> r[k] == coll[k]
  {
    coll - {id}
  }

  /** A snapshot lists a collection: every document once, with its stored fields. */
  ghost predicate ListsCollection(docs: seq<TaskDoc>, coll: Collection) {
    && (forall i :: 0 <= i < |docs| ==> docs[i].id in coll && coll[docs[i].id] == docs[i].rec)
    && (forall i, j :: 0 <= i < j < |docs| ==> docs[i].id != docs[j].id)
    && (forall id :: id in coll ==> exists i :: 0 <= i < |docs| && docs[i].id == id)
  }

  // ---------------------------------------------------------------------------
  // The grouping

  /** Appending one document to a snapshot adds it to the end of its day's column,
      or nowhere when its day names no day. */
  lemma GroupedSnoc(docs: seq<TaskDoc>, doc: TaskDoc)
    ensures Grouped(docs + [doc]) ==
              match ParseDay(doc.rec.day)
              case Some(d) => Grouped(docs)[d := Grouped(docs)[d] + [AsTask(doc, d)]]
              case None => Grouped(docs)
  {
    var e := docs + [doc];
    assert e[..|e| - 1] == docs;
    var g := Grouped(docs);
    var h := match ParseDay(doc.rec.day)
             case Some(d) => g[d := g[d] + [AsTask(doc, d)]]
             case None => g;
    forall d: Day ensures Grouped(e)[d] == h[d] {
      GroupedAt(e, d);
      GroupedAt(docs, d);
    }
    TotalEqual(Grouped(e), h);
  }

  /** `GroupedSnoc` on the prefixes of one snapshot. */
  lemma GroupedStep(docs: seq<TaskDoc>, i: nat)
    requires i < |docs|
    ensures Grouped(docs[..i + 1]) ==
              match ParseDay(docs[i].rec.day)
              case Some(d) => Grouped(docs[..i])[d := Grouped(docs[..i])[d] + [AsTask(docs[i], d)]]
              case None => Grouped(docs[..i])
  {
    assert docs[..i + 1] == docs[..i] + [docs[i]];
    GroupedSnoc(docs[..i], docs[i]);
  }

  /** Pushing one task to one column adds one task to the flattened board. */
  lemma FlattenPush(g: DayTasks, d: Day, t: Task)
    requires IsTotal(g)
    ensures IsTotal(g[d := g[d] + [t]])
    ensures |Flatten(g[d := g[d] + [t]])| == |Flatten(g)| + 1
  {
    match d
    case Monday =>
    case Tuesday =>
    case Wednesday =>
    case Thursday =>
    case Friday =>
    case Saturday =>
    case Sunday =>
  }

  lemma {:induction false} ColumnAppend<T>(a: seq<T>, b: seq<T>, slot: T -> Option<Day>, make: (T, Day) -> Task, d: Day)
    ensures Column(a + b, slot, make, d) == Column(a, slot, make, d) + Column(b, slot, make, d)
    decreases |b|
  {
    if b == [] {
      assert a + b == a;
    } else {
      var b' := b[..|b| - 1];
      ColumnAppend(a, b', slot, make, d);
      assert (a + b)[..|a + b| - 1] == a + b';
    }
  }

  lemma {:induction false} ColumnMembers<T>(s: seq<T>, slot: T -> Option<Day>, make: (T, Day) -> Task, d: Day, t: Task)
    ensures t in Column(s, slot, make, d) <==>
              exists i :: 0 <= i < |s| && slot(s[i]) == Some(d) && t == make(s[i], d)
    decreases |s|
  {
    if s != [] {
      var n := |s| - 1;
      var p := s[..n];
      ColumnMembers(p, slot, make, d, t);
      if i :| 0 <= i < |p| && slot(p[i]) == Some(d) && t == make(p[i], d) {
        assert s[i] == p[i];
      }
      if i :| 0 <= i < |s| && slot(s[i]) == Some(d) && t == make(s[i], d) {
        if i < n {
          assert p[i] == s[i];
        }
      }
    }
  }

  /** Grouping respects concatenation, so every column keeps snapshot order. */
  lemma BucketAppend(a: seq<TaskDoc>, b: seq<TaskDoc>, d: Day)
    ensures Bucket(a + b, d) == Bucket(a, d) + Bucket(b, d)
  {
    ColumnAppend(a, b, DocDay, AsTask, d);
  }

  /** A column holds exactly the tasks made from the documents whose `day` names
      that day. */
  lemma BucketMembers(docs: seq<TaskDoc>, d: Day, t: Task)
    ensures t in Bucket(docs, d) <==>
              exists i :: 0 <= i < |docs| && ParseDay(docs[i].rec.day) == Some(d) && t == AsTask(docs[i], d)
  {
    ColumnMembers(docs, DocDay, AsTask, d, t);
  }

  /** Every document of a snapshot lands in exactly one column or, when its day
      names no day, in none: the columns together hold the snapshot minus the
      unknown-day documents. */
  lemma {:induction false} EveryDocPlacedOnce(docs: seq<TaskDoc>)
    ensures |Flatten(Grouped(docs))| + CountUnknownDay(docs) == |docs|
    decreases |docs|
  {
    if docs != [] {
      var p := docs[..|docs| - 1];
      var x := docs[|docs| - 1];
      EveryDocPlacedOnce(p);
      assert docs == p + [x];
      GroupedSnoc(p, x);
      match ParseDay(x.rec.day)
      case Some(d) => FlattenPush(Grouped(p), d, AsTask(x, d));
      case None =>
    }
  }

  /** A document whose `day` names no day is in no column. */
  lemma UnknownDayDropped(docs: seq<TaskDoc>, i: nat, d: Day, t: Task)
    requires i < |docs| && ParseDay(docs[i].rec.day).None?
    requires forall a, b :: 0 <= a < b < |docs| ==> docs[a].id != docs[b].id
    requires t in Grouped(docs)[d]
    ensures t.id != docs[i].id
  {
    BucketMembers(docs, d, t);
  }

  /** In a snapshot that lists a collection, the column of day `d` holds a task
      with a given id exactly when the stored document's `day` names `d`. */
  lemma MirrorColumnIds(docs: seq<TaskDoc>, coll: Collection, d: Day, id: string)
    requires ListsCollection(docs, coll)
    ensures (exists k :: 0 <= k < |Bucket(docs, d)| && Bucket(docs, d)[k].id == id)
              <==> id in coll && ParseDay(coll[id].day) == Some(d)
  {
    var col := Bucket(docs, d);
    if exists k :: 0 <= k < |col| && col[k].id == id {
      var k :| 0 <= k < |col| && col[k].id == id;
      BucketMembers(docs, d, col[k]);
    }
    if id in coll && ParseDay(coll[id].day) == Some(d) {
      var i :| 0 <= i < |docs| && docs[i].id == id;
      BucketMembers(docs, d, AsTask(docs[i], d));
      var k :| 0 <= k < |col| && col[k] == AsTask(docs[i], d);
      assert col[k].id == id;
    }
  }

  /** ... and with the stored fields. */
  lemma MirrorFind(docs: seq<TaskDoc>, coll: Collection, d: Day, id: string)
    requires ListsCollection(docs, coll)
    requires id in coll && ParseDay(coll[id].day) == Some(d)
    ensures FindTask(Bucket(docs, d), id) == Some(AsTask(TaskDoc(id, coll[id]), d))
  {
    MirrorColumnIds(docs, coll, d, id);
    var col := Bucket(docs, d);
    var f := FindTask(col, id);
    var k :| 0 <= k < |col| && col[k] == f.value && f.value.id == id;
    BucketMembers(docs, d, col[k]);
  }

  /** A snapshot that lists a collection shows a stored task in a day's column
      exactly when the stored `day` names that day, with the stored fields. */
  lemma SnapshotMirrorsCollection(docs: seq<TaskDoc>, coll: Collection, d: Day, id: string)
    requires ListsCollection(docs, coll)
    ensures (exists k :: 0 <= k < |Grouped(docs)[d]| && Grouped(docs)[d][k].id == id)
              <==> id in coll && ParseDay(coll[id].day) == Some(d)
    ensures id in coll && ParseDay(coll[id].day) == Some(d) ==>
              FindTask(Grouped(docs)[d], id) == Some(AsTask(TaskDoc(id, coll[id]), d))
  {
    GroupedAt(docs, d);
    MirrorColumnIds(docs, coll, d, id);
    if id in coll && ParseDay(coll[id].day) == Some(d) {
      MirrorFind(docs, coll, d, id);
    }
  }

  /** `groupedTasks[task.day]` on a plain object also finds the members every
      object inherits from `Object.prototype`. */
  predicate IsObjectPrototypeKey(s: string) {
    s in {"constructor", "hasOwnProperty", "isPrototypeOf", "propertyIsEnumerable",
          "toLocaleString", "toString", "valueOf", "__proto__", "__defineGetter__",
          "__defineSetter__", "__lookupGetter__", "__lookupSetter__"}
  }

  /** The TypeError "groupedTasks[task.day].push is not a function". */
  datatype GroupError = PushIsNotAFunction

  /** The grouping loop as written: a day that is one of the seven keys is pushed
      to, one that names an inherited member is truthy and `push` on it throws, and
      any other is skipped. */
  function GroupAsWritten(docs: seq<TaskDoc>): (r: Result<DayTasks, GroupError>)
    ensures r.Success? ==> IsTotal(r.value)
    decreases |docs|
  {
    if docs == [] then
      assert IsTotal(InitialTasks) by {
        forall d: Day ensures d in InitialTasks { DayCases(d); }
      }
      Success(InitialTasks)
    else
      match GroupAsWritten(docs[..|docs| - 1])
      case Failure(e) => Failure(e)
      case Success(g) =>
        var last := docs[|docs| - 1];
        match ParseDay(last.rec.day)
        case Some(d) => Success(g[d := g[d] + [AsTask(last, d)]])
        case None => if IsObjectPrototypeKey(last.rec.day) then Failure(PushIsNotAFunction) else Success(g)
  }

  /** The loop as written throws exactly when some document's day names an
      inherited member. */
  lemma {:induction false} GroupAsWrittenThrows(docs: seq<TaskDoc>)
    ensures GroupAsWritten(docs).Failure? <==>
              exists i :: 0 <= i < |docs| && IsObjectPrototypeKey(docs[i].rec.day)
    decreases |docs|
  {
    if docs != [] {
      var p, x := docs[..|docs| - 1], docs[|docs| - 1];
      assert docs == p + [x];
      GroupAsWrittenThrows(p);
      GroupAsWrittenSnoc(p, x);
      PrototypeKeySnoc(p, x);
    }
  }

  /** No day's name is the name of an inherited member. */
  lemma DayNameNotPrototypeKey(d: Day)
    ensures !IsObjectPrototypeKey(DayName(d))
  {
    DayCases(d);
  }

  /** The loop as written fails on one more document exactly when it had already
      failed or the document's day names an inherited member. */
  lemma GroupAsWrittenSnoc(p: seq<TaskDoc>, x: TaskDoc)
    ensures GroupAsWritten(p + [x]).Failure? <==> GroupAsWritten(p).Failure? || IsObjectPrototypeKey(x.rec.day)
  {
    var e := p + [x];
    assert e[..|e| - 1] == p && e[|e| - 1] == x;
    var r := ParseDay(x.rec.day);
    if r.Some? {
      DayNameNotPrototypeKey(r.value);
    }
  }

  lemma PrototypeKeySnoc(p: seq<TaskDoc>, x: TaskDoc)
    ensures (exists i :: 0 <= i < |p + [x]| && IsObjectPrototypeKey((p + [x])[i].rec.day)) <==>
              (exists i :: 0 <= i < |p| && IsObjectPrototypeKey(p[i].rec.day)) || IsObjectPrototypeKey(x.rec.day)
  {
    var docs := p + [x];
    if exists i :: 0 <= i < |docs| && IsObjectPrototypeKey(docs[i].rec.day) {
      var i :| 0 <= i < |docs| && IsObjectPrototypeKey(docs[i].rec.day);
      if i < |p| {
        assert p[i] == docs[i];
      }
    }
    if exists i :: 0 <= i < |p| && IsObjectPrototypeKey(p[i].rec.day) {
      var i :| 0 <= i < |p| && IsObjectPrototypeKey(p[i].rec.day);
      assert docs[i] == p[i];
    }
    if IsObjectPrototypeKey(x.rec.day) {
      assert docs[|p|] == x;
    }
  }

  /** When it does not throw, the loop as written builds the intended grouping. */
  lemma {:induction false} GroupAsWrittenAgrees(docs: seq<TaskDoc>)
    ensures GroupAsWritten(docs).Success? ==> GroupAsWritten(docs).value == Grouped(docs)
    decreases |docs|
  {
    if docs == [] {
      GroupedEmpty();
    } else {
      var p := docs[..|docs| - 1];
      var x := docs[|docs| - 1];
      GroupAsWrittenAgrees(p);
      assert docs == p + [x];
      GroupedSnoc(p, x);
    }
  }

  /** A single stored task whose day is "constructor" makes the loop as written
      throw, where the intended grouping leaves it out of every column. */
  lemma ConstructorDayThrows()
    ensures var docs := [TaskDoc("t1", TaskRecord("Buy milk", false, "constructor"))];
      GroupAsWritten(docs).Failure? && Flatten(Grouped(docs)) == []
  {
    var docs := [TaskDoc("t1", TaskRecord("Buy milk", false, "constructor"))];
    assert docs[..0] == [];
    assert ParseDay("constructor").None?;
  }

  // ---------------------------------------------------------------------------
  // The provider

  /** Some id no stored document has: longer than every existing one. */
  method FreshId(ids: set<string>) returns (id: string)
    ensures id !in ids
  {
    var longest: nat := 0;
    var rest := ids;
    while rest != {}
      invariant rest <= ids
      invariant forall s :: s in ids && s !in rest ==> |s| <= longest
      decreases |rest|
    {
      var s :| s in rest;
      if |s| > longest {
        longest := |s|;
      }
      rest := rest - {s};
    }
    id := seq(longest + 1, _ => 'x');
  }

  class TaskProvider {
    /** The signed-in user's uid, from the auth container. */
    var user: Option<Uid>
    var tasks: DayTasks
    var loading: bool
    var allTasksForAI: seq<string>
    /** The backend: each user's `tasks` collection. */
    var store: map<Uid, Collection>

    ghost predicate Valid()
      reads this
    {
      IsTotal(tasks)
    }

    /** The first render: no user yet, empty columns, loading. */
    constructor(store: map<Uid, Collection>)
      ensures Valid()
      ensures user.None? && tasks == InitialTasks && loading && allTasksForAI == []
      ensures this.store == store
    {
      user := None;
      tasks := InitialTasks;
      loading := true;
      allTasksForAI := [];
      this.store := store;
      new;
      forall d: Day ensures d in tasks { DayCases(d); }
    }

    /** The effect that runs when the signed-in user changes: without a user the
        board is cleared and loading ends; with one, loading starts and the
        subscription is opened. */
    method UserChanged(u: Option<Uid>)
      requires Valid()
      modifies this`user, this`tasks, this`allTasksForAI, this`loading
      ensures Valid()
      ensures user == u
      ensures u.None? ==> tasks == InitialTasks && allTasksForAI == [] && !loading
      ensures u.Some? ==> loading && tasks == old(tasks) && allTasksForAI == old(allTasksForAI)
    {
      user := u;
      if u.None? {
        tasks := InitialTasks;
        forall d: Day ensures d in tasks { DayCases(d); }
        allTasksForAI := [];
        loading := false;
        return;
      }
      loading := true;
    }

    /** The snapshot handler: the documents grouped into fresh columns, every
        text for the assistant, loading ended. */
    method OnSnapshot(docs: seq<TaskDoc>)
      requires user.Some?
      modifies this`tasks, this`allTasksForAI, this`loading
      ensures Valid()
      ensures tasks == Grouped(docs) && !loading
      ensures |allTasksForAI| == |docs| && forall i :: 0 <= i < |docs| ==> allTasksForAI[i] == docs[i].rec.text
    {
      var grouped := InitialTasks;
      assert docs[..0] == [];
      GroupedEmpty();
      var i := 0;
      while i < |docs|
        invariant 0 <= i <= |docs|
        invariant grouped == Grouped(docs[..i])
      {
        var doc := docs[i];
        GroupedStep(docs, i);
        match ParseDay(doc.rec.day) {
          case Some(d) => grouped := grouped[d := grouped[d] + [AsTask(doc, d)]];
          case None =>
        }
        i := i + 1;
      }
      assert docs[..i] == docs;
      tasks := grouped;
      allTasksForAI := seq(|docs|, k requires 0 <= k < |docs| => docs[k].rec.text);
      loading := false;
    }

    /** The snapshot error handler: loading ends, the columns stay. */
    method OnSnapshotError()
      modifies this`loading
      ensures !loading
    {
      loading := false;
    }

    /** `addTask`: with a user, a new document under an unused id, not completed,
        on the given day; without one, nothing. `rejects` says whether the
        backend refuses the write; the awaited promise then rejects and the
        store keeps its old contents. */
    method AddTask(day: Day, text: string, rejects: bool) returns (outcome: WriteOutcome, id: Option<string>)
      modifies this`store
      ensures id.Some? <==> outcome == Written
      ensures user.None? ==> outcome == Skipped && store == old(store)
      ensures user.Some? && rejects ==> outcome == Rejected && store == old(store)
      ensures user.Some? && !rejects ==>
                outcome == Written && id.value !in CollectionOf(old(store), user.value) &&
                store == old(store)[user.value := Added(CollectionOf(old(store), user.value), id.value, day, text)]
    {
      if user.None? {
        return Skipped, None;
      }
      if rejects {
        return Rejected, None;
      }
      var coll := CollectionOf(store, user.value);
      var newId := FreshId(coll.Keys);
      store := store[user.value := Added(coll, newId, day, text)];
      outcome, id := Written, Some(newId);
    }

    /** `toggleTask`: the task is looked up in the day's column as the board
        shows it, and the stored document gets the negation of the shown state. */
    method ToggleTask(day: Day, taskId: string, rejects: bool) returns (outcome: WriteOutcome)
      modifies this`store
      ensures user.None? ==> outcome == Skipped && store == old(store)
      ensures user.Some? ==>
                var coll := CollectionOf(old(store), user.value);
                var found := FindTask(TasksOn(tasks, day), taskId);
                && (found.None? ==> outcome == Skipped && store == old(store))
                && (found.Some? && rejects ==> outcome == Rejected && store == old(store))
                && (found.Some? && !rejects && taskId !in coll ==> outcome == NotFound && store == old(store))
                && (found.Some? && !rejects && taskId in coll ==>
                      outcome == Written &&
                      store == old(store)[user.value := SetCompleted(coll, taskId, !found.value.completed)])
    {
      if user.None? {
        return Skipped;
      }
      var found := FindTask(TasksOn(tasks, day), taskId);
      if found.None? {
        return Skipped;
      }
      if rejects {
        return Rejected;
      }
      var coll := CollectionOf(store, user.value);
      if taskId !in coll {
        return NotFound;
      }
      store := store[user.value := SetCompleted(coll, taskId, !found.value.completed)];
      outcome := Written;
    }

    /** `deleteTask`: the document is removed; the day plays no part. Deleting
        a document that does not exist succeeds. */
    method DeleteTask(day: Day, taskId: string, rejects: bool) returns (outcome: WriteOutcome)
      modifies this`store
      ensures user.None? ==> outcome == Skipped && store == old(store)
      ensures user.Some? && rejects ==> outcome == Rejected && store == old(store)
      ensures user.Some? && !rejects ==>
                outcome == Written &&
                store == old(store)[user.value := Deleted(CollectionOf(old(store), user.value), taskId)]
    {
      if user.None? {
        return Skipped;
      }
      if rejects {
        return Rejected;
      }
      store := store[user.value := Deleted(CollectionOf(store, user.value), taskId)];
      outcome := Written;
    }

    /** `updateTask`: the stored text is replaced, untrimmed; the day plays no part. */
    method UpdateTask(day: Day, taskId: string, newText: string, rejects: bool) returns (outcome: WriteOutcome)
      modifies this`store
      ensures user.None? ==> outcome == Skipped && store == old(store)
      ensures user.Some? ==>
                var coll := CollectionOf(old(store), user.value);
                && (rejects ==> outcome == Rejected && store == old(store))
                && (!rejects && taskId !in coll ==> outcome == NotFound && store == old(store))
                && (!rejects && taskId in coll ==>
                      outcome == Written && store == old(store)[user.value := SetText(coll, taskId, newText)])
    {
      if user.None? {
        return Skipped;
      }
      if rejects {
        return Rejected;
      }
      var coll := CollectionOf(store, user.value);
      if taskId !in coll {
        return NotFound;
      }
      store := store[user.value := SetText(coll, taskId, newText)];
      outcome := Written;
    }
  }

  // ---------------------------------------------------------------------------
  // Writes followed by the snapshot that reflects them

  /** Toggling a task as a synchronised board shows it (the column of its day is
      `Bucket(docs, d)`, which `GroupedAt` ties to the board) writes the negation
      of the stored state; once the next snapshot arrives, toggling again
      restores the stored collection. */
  lemma ToggleTwiceRestores(coll: Collection, id: string, d: Day, docs1: seq<TaskDoc>, docs2: seq<TaskDoc>)
    requires id in coll && ParseDay(coll[id].day) == Some(d)
    requires ListsCollection(docs1, coll)
    requires ListsCollection(docs2, SetCompleted(coll, id, !coll[id].completed))
    ensures FindTask(Bucket(docs1, d), id).Some?
    ensures FindTask(Bucket(docs1, d), id).value.completed == coll[id].completed
    ensures FindTask(Bucket(docs2, d), id).Some?
    ensures SetCompleted(SetCompleted(coll, id, !coll[id].completed), id,
                         !FindTask(Bucket(docs2, d), id).value.completed) == coll
  {
    MirrorFind(docs1, coll, d, id);
    var once := SetCompleted(coll, id, !coll[id].completed);
    MirrorFind(docs2, once, d, id);
    SetCompletedTwice(coll, id);
  }

  lemma SetCompletedTwice(coll: Collection, id: string)
    requires id in coll
    ensures SetCompleted(SetCompleted(coll, id, !coll[id].completed), id, coll[id].completed) == coll
  {
    var once := SetCompleted(coll, id, !coll[id].completed);
    assert once[id := coll[id]] == coll;
  }

  lemma BucketSingleton(doc: TaskDoc, d: Day)
    ensures Bucket([doc], d) == if ParseDay(doc.rec.day) == Some(d) then [AsTask(doc, d)] else []
  {
    assert [doc][..0] == [];
    assert Column([], DocDay, AsTask, d) == [];
  }

  /** A snapshot that lists a collection has one document per stored document. */
  lemma ListingSize(docs: seq<TaskDoc>, coll: Collection)
    requires ListsCollection(docs, coll)
    ensures |docs| == |coll|
  {
    forall x ensures x in IdsOf(docs) <==> x in coll {
      IdsOfMembers(docs, x);
    }
    assert IdsOf(docs) == coll.Keys;
    DistinctIdsCount(docs);
  }

  /** The ids of a snapshot's documents. */
  ghost function IdsOf(docs: seq<TaskDoc>): set<string>
    decreases |docs|
  {
    if docs == [] then {} else IdsOf(docs[..|docs| - 1]) + {docs[|docs| - 1].id}
  }

  lemma {:induction false} IdsOfMembers(docs: seq<TaskDoc>, x: string)
    ensures x in IdsOf(docs) <==> exists i :: 0 <= i < |docs| && docs[i].id == x
    decreases |docs|
  {
    if docs != [] {
      var n := |docs| - 1;
      var p := docs[..n];
      IdsOfMembers(p, x);
      if i :| 0 <= i < |p| && p[i].id == x {
        assert docs[i] == p[i];
      }
      if i :| 0 <= i < |docs| && docs[i].id == x {
        if i < n {
          assert p[i] == docs[i];
        }
      }
    }
  }

  /** Distinct document ids: as many ids as documents. */
  lemma {:induction false} DistinctIdsCount(docs: seq<TaskDoc>)
    requires forall i, j :: 0 <= i < j < |docs| ==> docs[i].id != docs[j].id
    ensures |IdsOf(docs)| == |docs|
    decreases |docs|
  {
    if docs != [] {
      var n := |docs| - 1;
      var p := docs[..n];
      assert forall i, j :: 0 <= i < j < |p| ==> p[i].id != p[j].id;
      DistinctIdsCount(p);
      IdsOfMembers(p, docs[n].id);
      forall i | 0 <= i < |p| ensures p[i].id != docs[n].id {
        assert p[i] == docs[i];
      }
    }
  }

  lemma SingletonListing(docs: seq<TaskDoc>, id: string, r: TaskRecord)
    requires ListsCollection(docs, map[id := r])
    ensures docs == [TaskDoc(id, r)]
  {
    ListingSize(docs, map[id := r]);
    assert docs[0].id in map[id := r];
  }

  /** A snapshot of a collection holding one record shows that record alone in
      the column of its day. */
  lemma SingleRecordColumn(docs: seq<TaskDoc>, id: string, r: TaskRecord, d: Day)
    requires ListsCollection(docs, map[id := r]) && ParseDay(r.day) == Some(d)
    ensures Grouped(docs)[d] == [AsTask(TaskDoc(id, r), d)]
  {
    SingletonListing(docs, id, r);
    GroupedAt(docs, d);
    BucketSingleton(TaskDoc(id, r), d);
  }

  /** A snapshot of an empty collection shows an empty board. */
  lemma EmptyListingBoard(docs: seq<TaskDoc>)
    requires ListsCollection(docs, map[])
    ensures Flatten(Grouped(docs)) == []
  {
    ListingSize(docs, map[]);
  }

  lemma AddStep(id: string, s1: seq<TaskDoc>)
    requires ListsCollection(s1, Added(map[], id, Monday, "Buy milk"))
    ensures Grouped(s1)[Monday] == [Task(id, "Buy milk", false, Monday)]
    ensures FindTask(Grouped(s1)[Monday], id) == Some(Task(id, "Buy milk", false, Monday))
  {
    var r := TaskRecord("Buy milk", false, "Monday");
    assert Added(map[], id, Monday, "Buy milk") == map[id := r];
    SingleRecordColumn(s1, id, r, Monday);
  }

  lemma ToggleStep(id: string, s2: seq<TaskDoc>)
    requires ListsCollection(s2, SetCompleted(Added(map[], id, Monday, "Buy milk"), id, true))
    ensures Grouped(s2)[Monday] == [Task(id, "Buy milk", true, Monday)]
  {
    var r := TaskRecord("Buy milk", true, "Monday");
    assert SetCompleted(Added(map[], id, Monday, "Buy milk"), id, true) == map[id := r];
    SingleRecordColumn(s2, id, r, Monday);
  }

  lemma RenameStep(id: string, s3: seq<TaskDoc>)
    requires ListsCollection(s3, SetText(SetCompleted(Added(map[], id, Monday, "Buy milk"), id, true), id, "Buy oat milk"))
    ensures Grouped(s3)[Monday] == [Task(id, "Buy oat milk", true, Monday)]
  {
    var r := TaskRecord("Buy oat milk", true, "Monday");
    assert SetText(SetCompleted(Added(map[], id, Monday, "Buy milk"), id, true), id, "Buy oat milk") == map[id := r];
    SingleRecordColumn(s3, id, r, Monday);
  }

  lemma DeleteStep(id: string, s4: seq<TaskDoc>)
    requires ListsCollection(s4, Deleted(SetText(SetCompleted(Added(map[], id, Monday, "Buy milk"), id, true), id, "Buy oat milk"), id))
    ensures Flatten(Grouped(s4)) == []
  {
    assert Deleted(SetText(SetCompleted(Added(map[], id, Monday, "Buy milk"), id, true), id, "Buy oat milk"), id) == map[];
    EmptyListingBoard(s4);
  }

  /** Add a task to Monday on an empty board, tick it, rename it, delete it: the
      column a synchronised snapshot shows after each step. */
  lemma AddToggleRenameDelete(id: string, s1: seq<TaskDoc>, s2: seq<TaskDoc>, s3: seq<TaskDoc>, s4: seq<TaskDoc>)
    requires var c1 := Added(map[], id, Monday, "Buy milk");
      && ListsCollection(s1, c1)
      && ListsCollection(s2, SetCompleted(c1, id, !FindTask(Grouped(s1)[Monday], id).GetOr(Task(id, "", true, Monday)).completed))
    ensures Grouped(s1)[Monday] == [Task(id, "Buy milk", false, Monday)]
    ensures Grouped(s2)[Monday] == [Task(id, "Buy milk", true, Monday)]
    ensures var c2 := SetCompleted(Added(map[], id, Monday, "Buy milk"), id, true);
      ListsCollection(s3, SetText(c2, id, "Buy oat milk")) ==>
        Grouped(s3)[Monday] == [Task(id, "Buy oat milk", true, Monday)] &&
        (ListsCollection(s4, Deleted(SetText(c2, id, "Buy oat milk"), id)) ==> Flatten(Grouped(s4)) == [])
  {
    AddStep(id, s1);
    ToggleStep(id, s2);
    var c2 := SetCompleted(Added(map[], id, Monday, "Buy milk"), id, true);
    if ListsCollection(s3, SetText(c2, id, "Buy oat milk")) {
      RenameStep(id, s3);
      if ListsCollection(s4, Deleted(SetText(c2, id, "Buy oat milk"), id)) {
        DeleteStep(id, s4);
      }
    }
  }
}
