/**
 * The note container of `src/hooks/use-notes.tsx`: a live subscription to
 * `users/{uid}/notes` mapped onto seven day slots, and the upsert that writes a
 * day's note under the day's name.
 */
module Notes {
  import opened Wrappers
  import opened Week

  /** The fields of a stored note document (`updatedAt` is not modelled): the
      `id` field when the document has one, the content, and any other fields. */
  datatype NoteFields = NoteFields(id: Option<string>, content: string, extra: map<string, string>)

  /** One document of a snapshot. */
  datatype NoteDoc = NoteDoc(docId: string, fields: NoteFields)

  /** One user's `notes` collection: document id to fields. */
  type NoteCollection = map<string, NoteFields>

  const InitialNotes: DayNotes := map[
    Monday := None, Tuesday := None, Wednesday := None, Thursday := None,
    Friday := None, Saturday := None, Sunday := None]

  lemma InitialNotesEmpty()
    ensures IsTotal(InitialNotes) && forall d: Day :: InitialNotes[d].None?
  {
    forall d: Day ensures d in InitialNotes && InitialNotes[d].None? { DayCases(d); }
  }

  /** `{ id: doc.id, ...doc.data() }`: a stored `id` field overrides the document id. */
  function AsNote(doc: NoteDoc): Note {
    Note(doc.fields.id.GetOr(doc.docId), doc.fields.content, doc.fields.extra)
  }

  /** The day slot a snapshot document is assigned to, if its note id names a day. */
  function SlotOf(doc: NoteDoc): Option<Day> {
    ParseDay(AsNote(doc).id)
  }

  /** The last element of `s` that `slot` assigns to day `d`: the one left in
      `d`'s entry by a `forEach` that overwrites the entry of the day it assigns. */
  function LastAssigned<T>(s: seq<T>, slot: T -> Option<Day>, d: Day): Option<T>
    decreases |s|
  {
    if s == [] then None
    else if slot(s[|s| - 1]) == Some(d) then Some(s[|s| - 1])
    else LastAssigned(s[..|s| - 1], slot, d)
  }

  /** The slot of day `d` after the `forEach`: the note of the last document
      assigned to `d`, or null. */
  function Slot(docs: seq<NoteDoc>, d: Day): Option<Note> {
    match LastAssigned(docs, SlotOf, d)
    case None => None
    case Some(doc) => Some(AsNote(doc))
  }

  /** The record a snapshot produces: one slot per day, for all seven days. */
  function NotesOf(docs: seq<NoteDoc>): (m: DayNotes)
    ensures IsTotal(m)
  {
    var m := map d | d in AllDays :: Slot(docs, d);
    assert IsTotal(m) by {
      forall d: Day ensures d in m { AllDaysComplete(d); }
    }
    m
  }

  lemma NotesOfAt(docs: seq<NoteDoc>, d: Day)
    ensures NotesOf(docs)[d] == Slot(docs, d)
  {
    DayCases(d);
  }

  lemma TotalNotesEqual(m1: DayNotes, m2: DayNotes)
    requires IsTotal(m1) && IsTotal(m2)
    requires forall d: Day :: m1[d] == m2[d]
    ensures m1 == m2
  {
    assert m1.Keys == m2.Keys;
  }

  /** `setDoc(ref, { id: day, content, updatedAt }, { merge: true })` on the
      document named after the day: it exists afterwards with that id and
      content, keeps the other fields it had, and no other document changes. */
  function Upsert(coll: NoteCollection, day: Day, content: string): (r: NoteCollection)
    ensures r.Keys == coll.Keys + {DayName(day)}
    ensures r[DayName(day)].id == Some(DayName(day)) && r[DayName(day)].content == content
    ensures r[DayName(day)].extra == if DayName(day) in coll then coll[DayName(day)].extra else map[]
    ensures forall k :: k in coll && k != DayName(day) ==> r[k] == coll[k]
  {
    var key := DayName(day);
    var old_extra := if key in coll then coll[key].extra else map[];
    coll[key := NoteFields(Some(key), content, old_extra)]
  }

  /** Every stored document's `id` field, when present, is its document id: what
      `Upsert` writes. */
  ghost predicate WellKeyed(coll: NoteCollection) {
    forall k :: k in coll && coll[k].id.Some? ==> coll[k].id.value == k
  }

  /** A snapshot lists a collection: every document once, with its stored fields. */
  ghost predicate ListsNotes(docs: seq<NoteDoc>, coll: NoteCollection) {
    && (forall i :: 0 <= i < |docs| ==> docs[i].docId in coll && coll[docs[i].docId] == docs[i].fields)
    && (forall i, j :: 0 <= i < j < |docs| ==> docs[i].docId != docs[j].docId)
    && (forall k :: k in coll ==> exists i :: 0 <= i < |docs| && docs[i].docId == k)
  }

  // ---------------------------------------------------------------------------
  // The mapping

  lemma NotesOfSnoc(docs: seq<NoteDoc>, doc: NoteDoc)
    ensures NotesOf(docs + [doc]) ==
              match SlotOf(doc)
              case Some(d) => NotesOf(docs)[d := Some(AsNote(doc))]
              case None => NotesOf(docs)
  {
    var e := docs + [doc];
    assert e[..|e| - 1] == docs;
    var m := NotesOf(docs);
    var h := match SlotOf(doc)
             case Some(d) => m[d := Some(AsNote(doc))]
             case None => m;
    forall d: Day ensures NotesOf(e)[d] == h[d] {
      NotesOfAt(e, d);
      NotesOfAt(docs, d);
    }
    TotalNotesEqual(NotesOf(e), h);
  }

  /** A day's entry is filled exactly when some element is assigned to the day... */
  lemma {:induction false} SlotFilled<T>(s: seq<T>, slot: T -> Option<Day>, d: Day)
    ensures LastAssigned(s, slot, d).Some? <==> exists i :: 0 <= i < |s| && slot(s[i]) == Some(d)
    decreases |s|
  {
    if s != [] {
      var p, x := s[..|s| - 1], s[|s| - 1];
      SlotFilled(p, slot, d);
      if i :| 0 <= i < |p| && slot(p[i]) == Some(d) {
        assert s[i] == p[i];
      }
      if i :| 0 <= i < |s| && slot(s[i]) == Some(d) {
        if i < |p| {
          assert s[i] == p[i];
        }
      }
    }
  }

  /** ... and it then holds the last such element. */
  lemma {:induction false} SlotIsLastAssigned<T>(s: seq<T>, slot: T -> Option<Day>, d: Day) returns (i: nat)
    requires LastAssigned(s, slot, d).Some?
    ensures i < |s| && slot(s[i]) == Some(d) && LastAssigned(s, slot, d) == Some(s[i])
    ensures forall j :: i < j < |s| ==> slot(s[j]) != Some(d)
    decreases |s|
  {
    var p, x := s[..|s| - 1], s[|s| - 1];
    if slot(x) == Some(d) {
      i := |p|;
    } else {
      i := SlotIsLastAssigned(p, slot, d);
      assert s[i] == p[i];
      forall j | i < j < |s| ensures slot(s[j]) != Some(d) {
        if j < |p| {
          assert s[j] == p[j];
        }
      }
    }
  }

  /** A snapshot that lists a well-keyed collection shows, for each day, the note
      stored under the day's name, or null when there is none. */
  lemma SnapshotMirrorsNotes(docs: seq<NoteDoc>, coll: NoteCollection, d: Day)
    requires ListsNotes(docs, coll) && WellKeyed(coll)
    ensures NotesOf(docs)[d] ==
              if DayName(d) in coll then Some(AsNote(NoteDoc(DayName(d), coll[DayName(d)]))) else None
  {
    NotesOfAt(docs, d);
    SlotFilled(docs, SlotOf, d);
    ParseDayName(d);
    forall i | 0 <= i < |docs| ensures SlotOf(docs[i]) == Some(d) <==> docs[i].docId == DayName(d) {
      assert AsNote(docs[i]).id == docs[i].docId;
    }
    if DayName(d) in coll {
      var i :| 0 <= i < |docs| && docs[i].docId == DayName(d);
      assert SlotOf(docs[i]) == Some(d);
      var k := SlotIsLastAssigned(docs, SlotOf, d);
      assert docs[k].docId == DayName(d);
    }
  }

  /** The upsert keeps every stored `id` field equal to its document id. */
  lemma UpsertWellKeyed(coll: NoteCollection, day: Day, content: string)
    requires WellKeyed(coll)
    ensures WellKeyed(Upsert(coll, day, content))
  {
  }

  /** After `updateNote(day, content)` the next snapshot shows the new content on
      that day, keeping the note's other fields, and every other day as before. */
  lemma UpdateThenSnapshot(coll: NoteCollection, day: Day, content: string,
                           before: seq<NoteDoc>, after: seq<NoteDoc>, d: Day)
    requires WellKeyed(coll) && ListsNotes(before, coll)
    requires ListsNotes(after, Upsert(coll, day, content))
    ensures NotesOf(after)[day].Some?
    ensures NotesOf(after)[day].value.id == DayName(day) && NotesOf(after)[day].value.content == content
    ensures NotesOf(before)[day].Some? ==> NotesOf(after)[day].value.extra == NotesOf(before)[day].value.extra
    ensures d != day ==> NotesOf(after)[d] == NotesOf(before)[d]
  {
    var up := Upsert(coll, day, content);
    UpsertWellKeyed(coll, day, content);
    SnapshotMirrorsNotes(after, up, day);
    SnapshotMirrorsNotes(before, coll, day);
    SnapshotMirrorsNotes(after, up, d);
    SnapshotMirrorsNotes(before, coll, d);
    if d != day {
      DayNameInjective(d, day);
    }
  }

  lemma DayNameInjective(a: Day, b: Day)
    requires a != b
    ensures DayName(a) != DayName(b)
  {
    assert ParseDay(DayName(a)) == Some(a);
  }

  // ---------------------------------------------------------------------------
  // The provider

  function NotesCollectionOf(store: map<Uid, NoteCollection>, uid: Uid): NoteCollection {
    if uid in store then store[uid] else map[]
  }

  class NoteProvider {
    /** The signed-in user's uid, from the auth container. */
    var user: Option<Uid>
    /** `null` until the effect first runs. */
    var notes: Option<DayNotes>
    /** The backend: each user's `notes` collection. */
    var store: map<Uid, NoteCollection>

    constructor(store: map<Uid, NoteCollection>)
      ensures user.None? && notes.None? && this.store == store
    {
      user := None;
      notes := None;
      this.store := store;
    }

    /** The effect that runs when the signed-in user changes: without a user every
        slot is null; with one the subscription is opened and the notes stay. */
    method UserChanged(u: Option<Uid>)
      modifies this`user, this`notes
      ensures user == u
      ensures u.None? ==> notes == Some(InitialNotes)
      ensures u.Some? ==> notes == old(notes)
    {
      user := u;
      if u.None? {
        notes := Some(InitialNotes);
      }
    }

    /** The snapshot handler: each document's note assigned to the slot its id
        names, on top of all-null slots. */
    method OnSnapshot(docs: seq<NoteDoc>)
      requires user.Some?
      modifies this`notes
      ensures notes == Some(NotesOf(docs))
    {
      var notesData := InitialNotes;
      InitialNotesEmpty();
      assert docs[..0] == [];
      forall d: Day ensures notesData[d] == NotesOf(docs[..0])[d] {
        NotesOfAt(docs[..0], d);
      }
      TotalNotesEqual(notesData, NotesOf(docs[..0]));
      var i := 0;
      while i < |docs|
        invariant 0 <= i <= |docs|
        invariant notesData == NotesOf(docs[..i])
      {
        var note := AsNote(docs[i]);
        NotesOfSnoc(docs[..i], docs[i]);
        assert docs[..i + 1] == docs[..i] + [docs[i]];
        match SlotOf(docs[i]) {
          case Some(d) => notesData := notesData[d := Some(note)];
          case None =>
        }
        i := i + 1;
      }
      assert docs[..i] == docs;
      notes := Some(notesData);
    }

    /** The snapshot error handler: every slot back to null. */
    method OnSnapshotError()
      modifies this`notes
      ensures notes == Some(InitialNotes)
    {
      notes := Some(InitialNotes);
    }

    /** `updateNote`: the upsert under the day's name, or nothing without a user.
        `rejects` says whether the backend refuses the write; the awaited
        promise then rejects and the store keeps its old contents. */
    method UpdateNote(day: Day, content: string, rejects: bool) returns (written: bool)
      modifies this`store
      ensures written <==> user.Some? && !rejects
      ensures !written ==> store == old(store)
      ensures written ==>
                store == old(store)[user.value := Upsert(NotesCollectionOf(old(store), user.value), day, content)]
    {
      if user.None? || rejects {
        return false;
      }
      store := store[user.value := Upsert(NotesCollectionOf(store, user.value), day, content)];
      written := true;
    }
  }
}
