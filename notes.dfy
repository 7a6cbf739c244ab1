/**
  The records of the note store (app.js) and the lookups its handlers share.

  JavaScript inputs are modelled by what the handlers distinguish: a request
  field is `None` when it is absent (or any falsy non-string value), and
  `Some(s)` when it is the string `s`.  A path id is what `parseInt` gives:
  `Some(n)` for a number, `None` for NaN, which equals no id.
 */
module Notes {

  datatype Option<T> = None | Some(value: T)

  /** A stored note: `{ id, title, content, tags }` (app.js:23). */
  datatype Note = Note(id: int, title: string, content: string, tags: seq<string>)

  /** The store's error answers: `NotFound` is the 404, the others are 400s. */
  datatype Error =
    | NotFound                 // 'Note not found'
    | MissingTitleOrContent    // 'Title and content are required'
    | TagsNotArray             // 'Tags should be an array of strings'
    | MissingTagsOrCondition   // 'Tags and condition are required'
    | InvalidCondition         // 'Invalid condition'

  datatype Outcome<T> = Ok(value: T) | Fail(error: Error)

  /** JavaScript truthiness of a string field: present and not "". */
  predicate Truthy(v: Option<string>) {
    v.Some? && v.value != ""
  }

  /** `notes.findIndex(n => n.id === id)`, with -1 as `None`. */
  function FindIndex(notes: seq<Note>, id: Option<int>): (r: Option<nat>)
    ensures r.Some? ==> r.value < |notes| && Some(notes[r.value].id) == id
    ensures r.Some? ==> forall j :: 0 <= j < r.value ==> Some(notes[j].id) != id
    ensures r.None? ==> forall j :: 0 <= j < |notes| ==> Some(notes[j].id) != id
  {
    if notes == [] then None
    else if Some(notes[0].id) == id then Some(0)
    else
      match FindIndex(notes[1..], id)
      case None => None
      case Some(k) => Some(k + 1)
  }

  /** No two notes share an id. */
  predicate DistinctIds(notes: seq<Note>) {
    forall i, j :: 0 <= i < j < |notes| ==> notes[i].id != notes[j].id
  }

  /** The filter that keeps every note except the one with id `id`. */
  function OtherThan(id: int): Note -> bool {
    (n: Note) => n.id != id
  }

  /**
    The field rule of `PUT /notes/:id` (app.js:61-63): each of title,
    content and tags is replaced only by a truthy new value.  A tags array,
    even an empty one, is truthy; only its absence keeps the old tags.
   */
  function Revise(n: Note, title: Option<string>, content: Option<string>,
                  tags: Option<seq<string>>): (r: Note)
    ensures r.id == n.id
    ensures n.title != "" && n.content != "" ==> r.title != "" && r.content != ""
  {
    Note(n.id,
         if Truthy(title) then title.value else n.title,
         if Truthy(content) then content.value else n.content,
         if tags.Some? then tags.value else n.tags)
  }

  /** Updating only the title leaves content and tags as they were. */
  lemma ReviseTitleOnly(n: Note, title: string)
    requires title != ""
    ensures Revise(n, Some(title), None, None) == n.(title := title)
  {
  }
}
