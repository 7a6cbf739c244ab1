/**
  `GET /notes/query?tags=a,b&condition=AND|OR|NOT` (app.js:128-152): split
  the comma-separated tags and filter the notes, in order, by the condition.

  In app.js this route is registered after `GET /notes/:id` (app.js:42), so
  Express hands `/notes/query` to the get-by-id handler, where
  `parseInt("query")` is NaN and the answer is a 404.  That is route dispatch,
  not store logic; the query is modelled here as the operation it was written
  to be.
 */
module Query {
  import opened Sequences
  import opened Notes

  datatype Condition = And | Or | Not

  /** The only conditions app.js accepts are the exact strings below. */
  function ParseCondition(s: string): (c: Option<Condition>)
    ensures c == Some(And) <==> s == "AND"
    ensures c == Some(Or) <==> s == "OR"
    ensures c == Some(Not) <==> s == "NOT"
  {
    if s == "AND" then Some(And)
    else if s == "OR" then Some(Or)
    else if s == "NOT" then Some(Not)
    else None
  }

  /**
    `s.split(',')`: the pieces between commas, empty pieces included, so
    there is always at least one piece and none holds a comma.
   */
  function Split(s: string): (parts: seq<string>)
    ensures |parts| >= 1
    ensures forall k :: 0 <= k < |parts| ==> ',' !in parts[k]
  {
    if s == [] then [""]
    else
      var rest := Split(s[1..]);
      if s[0] == ',' then [""] + rest
      else [[s[0]] + rest[0]] + rest[1..]
  }

  /** `parts.join(',')`, the inverse of `Split`. */
  function Join(parts: seq<string>): string
    requires |parts| >= 1
  {
    if |parts| == 1 then parts[0] else parts[0] + "," + Join(parts[1..])
  }

  /** Joining the pieces of a split gives back the original string. */
  lemma {:induction false} JoinSplit(s: string)
    ensures Join(Split(s)) == s
  {
    if s != [] {
      var rest := Split(s[1..]);
      JoinSplit(s[1..]);
      if s[0] == ',' {
        assert Split(s) == [""] + rest;
        assert Split(s)[1..] == rest;
      } else {
        var parts := [[s[0]] + rest[0]] + rest[1..];
        assert Split(s) == parts;
        if |rest| == 1 {
          assert s == [s[0]] + s[1..];
        } else {
          assert parts[1..] == rest[1..];
          assert Join(rest) == rest[0] + "," + Join(rest[1..]);
          assert s == [s[0]] + s[1..];
        }
      }
    }
  }

  /** A string without commas splits into itself. */
  lemma {:induction false} SplitNoComma(s: string)
    requires ',' !in s
    ensures Split(s) == [s]
  {
    if s != [] {
      assert s[0] in s;
      assert forall c :: c in s[1..] ==> c in s;
      SplitNoComma(s[1..]);
      assert [s[0]] + s[1..] == s;
    }
  }

  /** Splitting at the first comma. */
  lemma {:induction false} SplitAtComma(a: string, b: string)
    requires ',' !in a
    ensures Split(a + "," + b) == [a] + Split(b)
  {
    if a == [] {
      assert a + "," + b == [','] + b;
      assert (a + "," + b)[1..] == b;
    } else {
      assert a[0] in a;
      assert forall c :: c in a[1..] ==> c in a;
      SplitAtComma(a[1..], b);
      assert (a + "," + b)[0] == a[0];
      assert (a + "," + b)[1..] == a[1..] + "," + b;
      assert [a[0]] + a[1..] == a;
    }
  }

  /** Splitting a join of comma-free pieces gives back the pieces. */
  lemma {:induction false} SplitJoin(parts: seq<string>)
    requires |parts| >= 1
    requires forall k :: 0 <= k < |parts| ==> ',' !in parts[k]
    ensures Split(Join(parts)) == parts
  {
    if |parts| == 1 {
      SplitNoComma(parts[0]);
    } else {
      SplitJoin(parts[1..]);
      SplitAtComma(parts[0], Join(parts[1..]));
      assert [parts[0]] + parts[1..] == parts;
    }
  }

  /** `queryTags.every(tag => tags.includes(tag))` */
  predicate HasAll(tags: seq<string>, query: seq<string>) {
    forall t :: t in query ==> t in tags
  }

  /** `queryTags.some(tag => tags.includes(tag))` */
  predicate HasAny(tags: seq<string>, query: seq<string>) {
    exists t :: t in query && t in tags
  }

  /** `queryTags.every(tag => !tags.includes(tag))` */
  predicate HasNone(tags: seq<string>, query: seq<string>)
    ensures HasNone(tags, query) <==> !HasAny(tags, query)
  {
    forall t :: t in query ==> t !in tags
  }

  /** The note filter a condition stands for (app.js:139, 141, 143). */
  function Matcher(c: Condition, query: seq<string>): (keep: Note -> bool)
    ensures c == And ==> forall n: Note :: keep(n) <==> HasAll(n.tags, query)
    ensures c == Or ==> forall n: Note :: keep(n) <==> HasAny(n.tags, query)
    ensures c == Not ==> forall n: Note :: keep(n) <==> !HasAny(n.tags, query)
  {
    match c
    case And => (n: Note) => HasAll(n.tags, query)
    case Or => (n: Note) => HasAny(n.tags, query)
    case Not => (n: Note) => HasNone(n.tags, query)
  }

  /**
    The query handler.  A missing or empty `tags` or `condition` is refused
    first; an unknown condition after that; otherwise the notes that match,
    in their stored order.
   */
  function Select(notes: seq<Note>, tags: Option<string>, condition: Option<string>): (r: Outcome<seq<Note>>)
    ensures r == Fail(MissingTagsOrCondition) <==> !Truthy(tags) || !Truthy(condition)
    ensures r == Fail(InvalidCondition) <==>
              Truthy(tags) && Truthy(condition) && ParseCondition(condition.value).None?
    ensures r.Ok? <==> Truthy(tags) && Truthy(condition) && ParseCondition(condition.value).Some?
    ensures r.Ok? ==> IsSubsequence(r.value, notes)
    ensures r.Ok? ==> forall k :: 0 <= k < |r.value| ==>
              r.value[k] in notes && Matcher(ParseCondition(condition.value).value, Split(tags.value))(r.value[k])
    ensures r.Ok? ==> forall k :: 0 <= k < |notes| ==>
              Matcher(ParseCondition(condition.value).value, Split(tags.value))(notes[k]) ==> notes[k] in r.value
  {
    if !Truthy(tags) || !Truthy(condition) then Fail(MissingTagsOrCondition)
    else
      match ParseCondition(condition.value)
      case None => Fail(InvalidCondition)
      case Some(c) =>
        var keep := Matcher(c, Split(tags.value));
        FilterIsSubsequence(notes, keep);
        Ok(Filter(notes, keep))
  }

  /** AND keeps exactly the notes that carry every query tag. */
  lemma SelectAnd(notes: seq<Note>, tags: string, n: Note)
    requires tags != ""
    ensures Select(notes, Some(tags), Some("AND")).Ok?
    ensures n in Select(notes, Some(tags), Some("AND")).value <==>
              n in notes && forall t :: t in Split(tags) ==> t in n.tags
  {
    var r := Select(notes, Some(tags), Some("AND")).value;
    if n in r {
      var k :| 0 <= k < |r| && r[k] == n;
    }
  }

  /** OR keeps exactly the notes that carry at least one query tag. */
  lemma SelectOr(notes: seq<Note>, tags: string, n: Note)
    requires tags != ""
    ensures Select(notes, Some(tags), Some("OR")).Ok?
    ensures n in Select(notes, Some(tags), Some("OR")).value <==>
              n in notes && exists t :: t in Split(tags) && t in n.tags
  {
    var r := Select(notes, Some(tags), Some("OR")).value;
    if n in r {
      var k :| 0 <= k < |r| && r[k] == n;
    }
  }

  /** NOT keeps exactly the notes that carry none of the query tags. */
  lemma SelectNot(notes: seq<Note>, tags: string, n: Note)
    requires tags != ""
    ensures Select(notes, Some(tags), Some("NOT")).Ok?
    ensures n in Select(notes, Some(tags), Some("NOT")).value <==>
              n in notes && forall t :: t in Split(tags) ==> t !in n.tags
  {
    var r := Select(notes, Some(tags), Some("NOT")).value;
    if n in r {
      var k :| 0 <= k < |r| && r[k] == n;
    }
  }

  /** Of the stored notes, NOT keeps exactly those that OR drops. */
  lemma NotComplementsOr(notes: seq<Note>, tags: string, n: Note)
    requires tags != "" && n in notes
    ensures n in Select(notes, Some(tags), Some("NOT")).value <==>
              n !in Select(notes, Some(tags), Some("OR")).value
  {
    SelectNot(notes, tags, n);
    SelectOr(notes, tags, n);
  }

  /** Every note AND keeps, OR keeps too: a split always has a piece. */
  lemma AndWithinOr(notes: seq<Note>, tags: string, n: Note)
    requires tags != ""
    requires n in Select(notes, Some(tags), Some("AND")).value
    ensures n in Select(notes, Some(tags), Some("OR")).value
  {
    SelectAnd(notes, tags, n);
    SelectOr(notes, tags, n);
    var q := Split(tags);
    assert q[0] in q;
  }

  /** Past validation, a query is the filter its condition stands for. */
  lemma SelectFilters(notes: seq<Note>, tags: string, condition: string, c: Condition)
    requires tags != "" && ParseCondition(condition) == Some(c)
    ensures Select(notes, Some(tags), Some(condition)) == Ok(Filter(notes, Matcher(c, Split(tags))))
  {
  }

  /** The two-note filter the examples below are built on. */
  lemma FilterPair(a: Note, b: Note, p: Note -> bool)
    ensures Filter([a, b], p) == (if p(a) then [a] else []) + (if p(b) then [b] else [])
  {
    assert [a, b][1..] == [b] && [b][1..] == [];
  }

  /**
    Two notes tagged `x,y` and `y`: AND on `x` finds the first, OR on `y`
    finds both, NOT on `x` finds the second.
   */
  lemma ExampleQueries(n1: Note, n2: Note)
    requires n1 == Note(1, "T1", "C1", ["x", "y"]) && n2 == Note(2, "T2", "C2", ["y"])
    ensures Select([n1, n2], Some("x"), Some("AND")) == Ok([n1])
    ensures Select([n1, n2], Some("y"), Some("OR")) == Ok([n1, n2])
    ensures Select([n1, n2], Some("x"), Some("NOT")) == Ok([n2])
  {
    assert "x" != "y" by { assert "x"[0] != "y"[0]; }
    assert "x" in ["x"] && "y" in ["y"] && "x" in n1.tags && "x" !in n2.tags;
    assert "y" in n1.tags && "y" in n2.tags;
    assert HasAll(n1.tags, ["x"]) && !HasAll(n2.tags, ["x"]);
    assert HasAny(n1.tags, ["y"]) && HasAny(n2.tags, ["y"]);
    assert Matcher(And, ["x"])(n1) && !Matcher(And, ["x"])(n2);
    assert Matcher(Or, ["y"])(n1) && Matcher(Or, ["y"])(n2);
    SplitNoComma("x");
    SplitNoComma("y");
    SelectFilters([n1, n2], "x", "AND", And);
    FilterPair(n1, n2, Matcher(And, ["x"]));
    assert Filter([n1, n2], Matcher(And, ["x"])) == [n1];
    assert Select([n1, n2], Some("x"), Some("AND")) == Ok(Filter([n1, n2], Matcher(And, Split("x"))));
    SelectFilters([n1, n2], "y", "OR", Or);
    FilterPair(n1, n2, Matcher(Or, ["y"]));
    assert Filter([n1, n2], Matcher(Or, ["y"])) == [n1, n2];
    assert Select([n1, n2], Some("y"), Some("OR")) == Ok(Filter([n1, n2], Matcher(Or, Split("y"))));
    SelectFilters([n1, n2], "x", "NOT", Not);
    FilterPair(n1, n2, Matcher(Not, ["x"]));
    assert Filter([n1, n2], Matcher(Not, ["x"])) == [n2];
    assert Select([n1, n2], Some("x"), Some("NOT")) == Ok(Filter([n1, n2], Matcher(Not, Split("x"))));
  }
}
