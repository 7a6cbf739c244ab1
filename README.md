# Note store — a verified Dafny model

The service in `app.js` keeps notes in memory: an ordered array `notes` of
`{id, title, content, tags}` records and a counter `nextId` that starts at 1.
Its route handlers create, read, update and delete notes, add and remove tags,
and filter the notes by a tag query. This project models that store and proves
what its handlers promise.

Modules, one concept each:

- `Sequences` (`sequences.dfy`): the array `filter` the handlers use, and
  order-preserving subsequences (`IsSubsequence`, by strictly increasing
  positions).
- `Notes` (`notes.dfy`): the `Note` record, the error kinds (`NotFound` is the
  404; `MissingTitleOrContent`, `TagsNotArray`, `MissingTagsOrCondition` and
  `InvalidCondition` are the 400s), the `Outcome` of a handler, JavaScript
  truthiness of a string field, the id lookup `FindIndex`, and the update rule
  `Revise`.
- `Tags` (`tags.dfy`): `Dedupe` (the `[...new Set(xs)]` idiom), `Add` and
  `Remove` on tag arrays, and their laws.
- `Query` (`query.dfy`): `Split` (`String.prototype.split(',')`) with its
  inverse `Join`, the conditions AND/OR/NOT, and the query handler as the
  pure function `Select` over the stored notes.
- `Store` (`store.dfy`): the class `NoteStore` with fields `notes`, `nextId`
  and a ghost set `Issued` of every id handed out so far. Its invariant
  `Valid()` says ids are distinct and issued, `Issued` is exactly
  `1 .. nextId - 1`, and every stored note has a non-empty title and content.
  Each state-changing handler is a method that keeps `Valid()` and states the
  whole new state. The methods `ExampleQuerySession` and
  `ExampleDeleteSession` are clients that replay a typical session against
  those contracts alone; `GetAfterCreate` shows for every store that a created
  note is found again by its id.

Inputs are modelled by what the handlers distinguish. A body or query field
is `None` when absent or falsy and `Some(s)` for a string `s`; `Truthy` adds
that `""` is falsy. A tags body field is `Some(list)` for an array. In create
and update, `None` means the tags field is absent or falsy. In the two tag
operations, `None` means it is absent or not an array. A path id is `Some(n)`
when `parseInt` gives a number and `None` for NaN, which matches no note.

Three things one might expect of a note store do not hold of app.js, and the
model follows the code:

- Tags may hold duplicates. Create and update store the given array as it is
  (app.js:23, app.js:63); only adding tags removes duplicates (app.js:98).
  The store's invariant therefore does not claim that tags are duplicate-free.
  It does hold after an add (`Tags.Add` ensures `Distinct`), and a remove keeps
  it (`Tags.RemoveKeepsDistinct`).
- Tags are arrays, not sets. Their order is kept, and it decides which copy of
  a duplicate survives.
- Tag operations check only `Array.isArray`, not that the elements are
  strings (app.js:95, app.js:114).

## Model

| member | source | states |
|---|---|---|
| `Sequences.Filter` | app.js:117 | `filter` keeps exactly the elements that satisfy the predicate: each kept element is in the input and satisfies it, and each input element that satisfies it is kept; order comes from `FilterIsSubsequence`, how many copies of a repeated element survive from `FilterAppend` |
| `Sequences.FilterAppend` | app.js:117 | filtering a concatenation is concatenating the filtered parts, so every copy of a kept element survives |
| `Sequences.FilterIsSubsequence` | app.js:139-143 | the result of `filter` is an order-preserving subsequence of its input |
| `Sequences.FilterDropsOne` | app.js:77-79 | filtering out exactly the element at one position leaves the same sequence as splicing it out |
| `Sequences.FilterKeepsDistinct` | app.js:117 | filtering never introduces a duplicate |
| `Notes.Truthy` | app.js:20 | defines the truthiness that `!title` and `!content` test on a string field: present and not `""`; the or-fallbacks of app.js:61-62 and the check of app.js:131 use the same test |
| `Notes.FindIndex` | app.js:44 | the lookup finds the first note with the id, or reports that no note has it; a NaN id matches nothing |
| `Notes.Revise` | app.js:61-63 | updating keeps the id and never empties a non-empty title or content |
| `Notes.ReviseTitleOnly` | app.js:61-63 | an update that supplies only a title changes only the title |
| `Tags.Absent` | app.js:117 | defines the callback `tag => !tags.includes(tag)`: a tag passes when it is not in the given list |
| `Tags.Dedupe` | app.js:98 | the Set spread gives a list with no duplicates and exactly the same values as its input |
| `Tags.DedupeOfDistinct` | app.js:98 | a list without duplicates is left unchanged by the Set spread |
| `Tags.DedupeAppend` | app.js:98 | deduping `a + b` is deduping `a`, then appending the values of `b` that are not in `a`, each at its first occurrence |
| `Tags.Add` | app.js:98 | after adding, the tags have no duplicates and hold exactly the old tags and the added ones |
| `Tags.AddAppendsNew` | app.js:98 | on duplicate-free tags, adding keeps the old tags in place and appends only the new tags, later copies dropped |
| `Tags.AddIdempotent` | app.js:98 | adding the same tags twice equals adding them once |
| `Tags.Remove` | app.js:117 | after removing, a tag is present exactly when it was present before and is not in the given list |
| `Tags.RemoveIsSubsequence` | app.js:117 | removing keeps the remaining tags in their original order |
| `Tags.RemoveNothingPresent` | app.js:117 | removing tags none of which is present leaves the tags unchanged |
| `Tags.RemoveKeepsDistinct` | app.js:117 | removing from duplicate-free tags leaves them duplicate-free |
| `Query.ParseCondition` | app.js:138-146 | a condition is accepted exactly when it is the string AND, OR or NOT |
| `Query.Split` | app.js:135 | splitting on commas gives at least one piece, and no piece contains a comma |
| `Query.JoinSplit` | app.js:135 | joining the pieces of a split with commas gives back the original string |
| `Query.SplitJoin` | app.js:135 | splitting a comma-join of comma-free pieces gives back the pieces |
| `Query.HasAll` | app.js:139 | defines `queryTags.every(tag => note.tags.includes(tag))`: every query tag is among the note's tags |
| `Query.HasAny` | app.js:141 | defines `queryTags.some(tag => note.tags.includes(tag))`: some query tag is among the note's tags |
| `Query.HasNone` | app.js:143 | `every(tag => !includes(tag))` holds exactly when `some(tag => includes(tag))` does not |
| `Query.Matcher` | app.js:139-143 | AND keeps notes carrying every query tag, OR notes carrying at least one, NOT notes carrying none, that is the notes OR drops |
| `Query.Select` | app.js:130-148 | a query fails with the missing-field error exactly when tags or condition is absent or empty; it fails with the invalid-condition error exactly when the condition is unknown; it succeeds exactly when neither holds, and then returns an order-preserving subsequence of the notes holding exactly the notes that match |
| `Query.SelectFilters` | app.js:136-146 | once validation passes, a query is the `filter` its condition stands for |
| `Query.SelectAnd` | app.js:139 | AND keeps a note exactly when it is stored and carries every query tag |
| `Query.SelectOr` | app.js:141 | OR keeps a note exactly when it is stored and carries at least one query tag |
| `Query.SelectNot` | app.js:143 | NOT keeps a note exactly when it is stored and carries none of the query tags |
| `Query.NotComplementsOr` | app.js:141-143 | among the stored notes, NOT keeps exactly those that OR drops |
| `Query.AndWithinOr` | app.js:135-141 | every note AND keeps, OR keeps too, because a split always yields a tag |
| `Query.ExampleQueries` | app.js:135-143 | for two notes tagged `x,y` and `y`: AND on `x` gives the first, OR on `y` gives both, NOT on `x` gives the second |
| `Store.NoteStore.constructor` | app.js:8-9 | the store starts empty, with the counter at 1 and no id issued |
| `Store.NoteStore.Create` | app.js:17-29 | a falsy title or content is refused and changes nothing; otherwise exactly one note is appended, with id the old counter value, which no earlier note ever had, and tags as given or `[]`; the counter goes up by one and the earlier notes are unchanged |
| `Store.NoteStore.Get` | app.js:42-53 | a lookup returns a stored note with the requested id, or not-found when no stored note has it |
| `Store.GetAfterCreate` | app.js:23-24 | for any store and any non-empty title and content, a create returns the note with id the old counter value and the given title, content and tags (or `[]`), and looking up that id returns exactly this note (lookup at app.js:44) |
| `Store.NoteStore.Update` | app.js:56-71 | an unknown id is not-found and changes nothing; otherwise only the found note changes: its id is kept, and title, content and tags are each replaced by the new value when it is truthy and kept otherwise |
| `Store.NoteStore.Delete` | app.js:75-87 | an unknown id is not-found and changes nothing; otherwise exactly the found note is spliced out, the rest keep their order, and the counter and issued ids are untouched |
| `Store.NoteStore.AddTags` | app.js:90-106 | an unknown id is not-found whatever the body; a missing or non-array tags field is refused and changes nothing; otherwise only the found note's tags change, to the deduped old tags followed by the new ones |
| `Store.NoteStore.RemoveTags` | app.js:109-125 | an unknown id is not-found whatever the body; a missing or non-array tags field is refused and changes nothing; otherwise only the found note's tags change, dropping the given ones |
| `Store.SpliceIsFilter` | app.js:77-79 | with distinct ids, splicing out the note at a position equals filtering out its id, and so keeps the others in order |

Every method of `NoteStore` requires and ensures `Valid()`. So after any
sequence of operations the ids are distinct, each one is below `nextId`, and
no id is handed out twice (with ids as exact integers; see "## Left out"): `Issued` only grows, and `Create` gives an id
outside it.

## Left out

- Express routing, middleware, JSON body parsing, response serialisation, HTTP status codes and `app.listen` (app.js:1-5, app.js:155-159). These are framework plumbing. The errors of the model are named by kind, with `NotFound` standing for the 404 and the other kinds for the 400s.
- The error handler and its `console.error` output (app.js:11-14), and every `catch` path. These are runtime-fault reporting. The create handler's `catch` calls a `next` that is not in scope, so a fault there would be a second fault; this is not modelled either.
- `GET /notes` (app.js:32-38) returns the `notes` field as it is. There is no logic to model beyond the field itself.
- Route dispatch: `GET /notes/:id` is registered before `GET /notes/query`, so Express sends `/notes/query` to the get-by-id handler. `Query.Select` models the query handler as written; see the comment at the top of `query.dfy`.
- `parseInt` parsing: `"12abc"` gives 12. The model takes the parsed value as its input, `Some(n)`, or `None` for NaN.
- JavaScript truthiness beyond strings and arrays. A title or content that is a truthy non-string, such as a number, is not modelled. Nor is a truthy non-array tags value in create or update, which the code would store as it is.
- A repeated query parameter. It turns the value into an array, which `Option<string>` cannot represent. A repeated `tags` makes `split` throw. A repeated `condition` fails every comparison with `'AND'`, `'OR'` and `'NOT'`, so the code answers with the 400 'Invalid condition' (app.js:138-145).
- Store.NoteStore.Create: ids are exact integers in the model. In app.js `nextId` is a JavaScript Number, exact only below 2^53. Past that, `nextId++` (app.js:23) no longer changes it, and every create reuses the same id. The model's promise that no id is handed out twice holds only below that bound, about 9·10^15 creates.
- Note objects are modelled as values. In app.js a handler mutates the object inside the array and serialises it at once, and no other reference to it survives the request, so nothing observable depends on the aliasing.
