/**
  The in-memory note store of app.js: the module-level `notes` array and the
  `nextId` counter (app.js:8-9), with one method per route handler that
  changes them.  Every handler runs to completion before the next one starts,
  so each method is one atomic step of the store.
 */
module Store {
  import opened Sequences
  import opened Notes
  import Tags
  import Query

  class NoteStore {
    /** The stored notes, in creation order. */
    var notes: seq<Note>
    /** The id the next created note receives. */
    var nextId: int
    /** Every id handed out so far, including those of deleted notes. */
    ghost var Issued: set<int>

    /**
      Ids run from 1 and are never handed out twice; every stored note has
      an issued id of its own and a non-empty title and content.
     */
    ghost predicate Valid()
      reads this
    {
      && 1 <= nextId
      && (forall i :: i in Issued <==> 1 <= i < nextId)
      && (forall k :: 0 <= k < |notes| ==> notes[k].id in Issued)
      && (forall k :: 0 <= k < |notes| ==> notes[k].title != "" && notes[k].content != "")
      && DistinctIds(notes)
    }

    /** `let notes = []; let nextId = 1;` */
    constructor ()
      ensures Valid()
      ensures notes == [] && nextId == 1 && Issued == {}
    {
      notes := [];
      nextId := 1;
      Issued := {};
    }

    /**
      `POST /notes` (app.js:17-29).  A falsy title or content is refused
      and nothing changes; otherwise the note gets the next id, its tags
      default to `[]`, and it is appended.
     */
    method Create(title: Option<string>, content: Option<string>, tags: Option<seq<string>>)
      returns (r: Outcome<Note>)
      requires Valid()
      modifies this
      ensures Valid()
      ensures !Truthy(title) || !Truthy(content) ==>
                r == Fail(MissingTitleOrContent)
                && notes == old(notes) && nextId == old(nextId) && Issued == old(Issued)
      ensures Truthy(title) && Truthy(content) ==>
                && r == Ok(Note(old(nextId), title.value, content.value,
                                if tags.Some? then tags.value else []))
                && notes == old(notes) + [r.value]
                && nextId == old(nextId) + 1
                && r.value.id !in old(Issued)
                && Issued == old(Issued) + {r.value.id}
    {
      if !Truthy(title) || !Truthy(content) {
        return Fail(MissingTitleOrContent);
      }
      var note := Note(nextId, title.value, content.value, if tags.Some? then tags.value else []);
      nextId := nextId + 1;
      notes := notes + [note];
      Issued := Issued + {note.id};
      r := Ok(note);
    }

    /** `GET /notes/:id` (app.js:42-53): the note with that id, if any. */
    function Get(id: Option<int>): (r: Outcome<Note>)
      reads this
      ensures r.Ok? ==> r.value in notes && Some(r.value.id) == id
      ensures r.Fail? ==> r.error == NotFound && forall k :: 0 <= k < |notes| ==> Some(notes[k].id) != id
    {
      match FindIndex(notes, id)
      case Some(i) => Ok(notes[i])
      case None => Fail(NotFound)
    }

    /**
      `PUT /notes/:id` (app.js:56-71).  An unknown id changes nothing;
      otherwise only that note changes, by the truthy-field rule.
     */
    method Update(id: Option<int>, title: Option<string>, content: Option<string>,
                  tags: Option<seq<string>>)
      returns (r: Outcome<Note>)
      requires Valid()
      modifies this
      ensures Valid()
      ensures nextId == old(nextId) && Issued == old(Issued)
      ensures FindIndex(old(notes), id).None? ==> r == Fail(NotFound) && notes == old(notes)
      ensures FindIndex(old(notes), id).Some? ==>
                var i := FindIndex(old(notes), id).value;
                var was := old(notes)[i];
                && r.Ok?
                && r.value.id == was.id
                && r.value.title == (if Truthy(title) then title.value else was.title)
                && r.value.content == (if Truthy(content) then content.value else was.content)
                && r.value.tags == (if tags.Some? then tags.value else was.tags)
                && notes == old(notes)[i := r.value]
    {
      match FindIndex(notes, id)
      case None =>
        r := Fail(NotFound);
      case Some(i) =>
        var note := Revise(notes[i], title, content, tags);
        notes := notes[i := note];
        r := Ok(note);
    }

    /**
      `DELETE /notes/:id` (app.js:75-87).  An unknown id changes nothing;
      otherwise that one note is spliced out, the others keep their order,
      and the counter is untouched, so the id is not handed out again.
     */
    method Delete(id: Option<int>) returns (r: Outcome<()>)
      requires Valid()
      modifies this
      ensures Valid()
      ensures nextId == old(nextId) && Issued == old(Issued)
      ensures FindIndex(old(notes), id).None? ==> r == Fail(NotFound) && notes == old(notes)
      ensures FindIndex(old(notes), id).Some? ==>
                var i := FindIndex(old(notes), id).value;
                && r == Ok(())
                && notes == old(notes)[..i] + old(notes)[i + 1..]
                && notes == Filter(old(notes), OtherThan(old(notes)[i].id))
    {
      match FindIndex(notes, id)
      case None =>
        r := Fail(NotFound);
      case Some(i) =>
        SpliceIsFilter(notes, i);
        notes := notes[..i] + notes[i + 1..];
        r := Ok(());
    }

    /**
      `PUT /notes/:id/tags` (app.js:90-106).  The note is looked up before
      the body is checked, so an unknown id is a 404 whatever the body is.
     */
    method AddTags(id: Option<int>, tags: Option<seq<string>>) returns (r: Outcome<Note>)
      requires Valid()
      modifies this
      ensures Valid()
      ensures nextId == old(nextId) && Issued == old(Issued)
      ensures FindIndex(old(notes), id).None? ==> r == Fail(NotFound) && notes == old(notes)
      ensures FindIndex(old(notes), id).Some? && tags.None? ==>
                r == Fail(TagsNotArray) && notes == old(notes)
      ensures FindIndex(old(notes), id).Some? && tags.Some? ==>
                var i := FindIndex(old(notes), id).value;
                && r == Ok(old(notes)[i].(tags := Tags.Add(old(notes)[i].tags, tags.value)))
                && notes == old(notes)[i := r.value]
    {
      match FindIndex(notes, id)
      case None =>
        r := Fail(NotFound);
      case Some(i) =>
        if tags.None? {
          return Fail(TagsNotArray);
        }
        var note := notes[i].(tags := Tags.Add(notes[i].tags, tags.value));
        notes := notes[i := note];
        r := Ok(note);
    }

    /**
      `DELETE /notes/:id/tags` (app.js:109-125), checked in the same order
      as adding tags.
     */
    method RemoveTags(id: Option<int>, tags: Option<seq<string>>) returns (r: Outcome<Note>)
      requires Valid()
      modifies this
      ensures Valid()
      ensures nextId == old(nextId) && Issued == old(Issued)
      ensures FindIndex(old(notes), id).None? ==> r == Fail(NotFound) && notes == old(notes)
      ensures FindIndex(old(notes), id).Some? && tags.None? ==>
                r == Fail(TagsNotArray) && notes == old(notes)
      ensures FindIndex(old(notes), id).Some? && tags.Some? ==>
                var i := FindIndex(old(notes), id).value;
                && r == Ok(old(notes)[i].(tags := Tags.Remove(old(notes)[i].tags, tags.value)))
                && notes == old(notes)[i := r.value]
    {
      match FindIndex(notes, id)
      case None =>
        r := Fail(NotFound);
      case Some(i) =>
        if tags.None? {
          return Fail(TagsNotArray);
        }
        var note := notes[i].(tags := Tags.Remove(notes[i].tags, tags.value));
        notes := notes[i := note];
        r := Ok(note);
    }
  }

  /**
    With distinct ids, splicing out the note at `i` is filtering out its id,
    so the remaining notes keep their order.
   */
  lemma SpliceIsFilter(notes: seq<Note>, i: int)
    requires DistinctIds(notes) && 0 <= i < |notes|
    ensures notes[..i] + notes[i + 1..] == Filter(notes, OtherThan(notes[i].id))
    ensures IsSubsequence(notes[..i] + notes[i + 1..], notes)
  {
    FilterDropsOne(notes, OtherThan(notes[i].id), i);
    FilterIsSubsequence(notes, OtherThan(notes[i].id));
  }

  /**
    A client session: two notes, a lookup and two queries.  Only the
    methods' contracts are used.
   */
  method ExampleQuerySession() {
    var store := new NoteStore();
    var r1 := store.Create(Some("T1"), Some("C1"), Some(["x", "y"]));
    var r2 := store.Create(Some("T2"), Some("C2"), Some(["y"]));
    var n1, n2 := Note(1, "T1", "C1", ["x", "y"]), Note(2, "T2", "C2", ["y"]);
    assert r1 == Ok(n1) && r2 == Ok(n2) && store.notes == [n1, n2];
    assert store.Get(Some(1)) == Ok(n1);

    Query.ExampleQueries(n1, n2);
    assert Query.Select(store.notes, Some("x"), Some("AND")) == Ok([n1]);
    assert Query.Select(store.notes, Some("y"), Some("OR")) == Ok([n1, n2]);
  }

  /**
    A refused create, a delete after which the id is gone for good, and a
    tag removal.
   */
  method ExampleDeleteSession() {
    var store := new NoteStore();
    var r1 := store.Create(Some("T1"), Some("C1"), Some(["x", "y"]));
    var r2 := store.Create(Some("T2"), Some("C2"), Some(["y"]));

    var bad := store.Create(Some(""), Some("C3"), None);
    assert bad == Fail(MissingTitleOrContent) && store.nextId == 3;

    var d := store.Delete(Some(1));
    assert d == Ok(()) && store.Get(Some(1)) == Fail(NotFound);
    var again := store.Delete(Some(1));
    assert again == Fail(NotFound);

    var r3 := store.Create(Some("T3"), Some("C3"), None);
    assert r3 == Ok(Note(3, "T3", "C3", []));

    var t := store.RemoveTags(Some(2), Some(["x"]));
    Tags.RemoveNothingPresent(["y"], ["x"]);
    assert t == Ok(Note(2, "T2", "C2", ["y"]));
  }

  /** Looking up a newly created note by its id gives that note back. */
  method GetAfterCreate(s: NoteStore, title: string, content: string, tags: Option<seq<string>>)
    returns (r: Outcome<Note>)
    requires s.Valid() && title != "" && content != ""
    modifies s
    ensures s.Valid()
    ensures r == Ok(Note(old(s.nextId), title, content, if tags.Some? then tags.value else []))
    ensures s.Get(Some(old(s.nextId))) == r
  {
    r := s.Create(Some(title), Some(content), tags);
    assert s.notes[|s.notes| - 1] == r.value;
  }
}
