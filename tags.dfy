/**
  The tag-list arithmetic of `PUT /notes/:id/tags` and `DELETE /notes/:id/tags`
  (app.js:98, app.js:117).  Tags stay arrays: their order is what the
  handlers return, and order decides which duplicate is dropped.
 */
module Tags {
  import opened Sequences

  /** The filter `tag => !given.includes(tag)`. */
  function Absent(given: seq<string>): string -> bool {
    (t: string) => t !in given
  }

  /**
    `[...new Set(xs)]`: a Set remembers the order in which values were first
    inserted, so each value is kept at its first occurrence and later copies
    are dropped.
   */
  function Dedupe(xs: seq<string>): (r: seq<string>)
    ensures Distinct(r)
    ensures forall t :: t in r <==> t in xs
  {
    if xs == [] then []
    else
      var d := Dedupe(xs[..|xs| - 1]);
      var x := xs[|xs| - 1];
      assert xs == xs[..|xs| - 1] + [x];
      if x in d then d else d + [x]
  }

  /** Adding tags: `[...new Set([...tags, ...added])]` (app.js:98). */
  function Add(tags: seq<string>, added: seq<string>): (r: seq<string>)
    ensures Distinct(r)
    ensures forall t :: t in r <==> t in tags || t in added
  {
    Dedupe(tags + added)
  }

  /** Removing tags: `tags.filter(tag => !removed.includes(tag))` (app.js:117). */
  function Remove(tags: seq<string>, removed: seq<string>): (r: seq<string>)
    ensures forall t :: t in r <==> t in tags && t !in removed
  {
    Filter(tags, Absent(removed))
  }

  /** A list without duplicates is its own dedupe. */
  lemma {:induction false} DedupeOfDistinct(xs: seq<string>)
    requires Distinct(xs)
    ensures Dedupe(xs) == xs
  {
    if xs != [] {
      var init := xs[..|xs| - 1];
      assert Distinct(init) by {
        forall i, j | 0 <= i < j < |init| ensures init[i] != init[j] {
          assert init[i] == xs[i] && init[j] == xs[j];
        }
      }
      DedupeOfDistinct(init);
      assert xs[|xs| - 1] !in init;
      assert xs == init + [xs[|xs| - 1]];
    }
  }

  /**
    Deduping a concatenation keeps the deduped first part and appends the
    second part's new values, each at its first occurrence.
   */
  lemma {:induction false} DedupeAppend(a: seq<string>, b: seq<string>)
    ensures Dedupe(a + b) == Dedupe(a) + Dedupe(Remove(b, a))
  {
    if b == [] {
      assert a + b == a;
      assert Remove(b, a) == [];
    } else {
      var init, y := b[..|b| - 1], b[|b| - 1];
      assert b == init + [y];
      assert a + b == (a + init) + [y];
      var d, da, e := Dedupe(a + init), Dedupe(a), Dedupe(Remove(init, a));
      DedupeAppend(a, init);
      assert d == da + e;
      DedupeSnoc(a + init, y);
      assert Dedupe(a + b) == if y in d then d else d + [y];
      RemoveSnoc(init, y, a);
      if y in a {
        assert y in da;
        assert Remove(b, a) == Remove(init, a);
      } else {
        assert Remove(b, a) == Remove(init, a) + [y];
        DedupeSnoc(Remove(init, a), y);
        assert y !in da;
        assert (y in d) == (y in e);
        assert Dedupe(Remove(b, a)) == if y in e then e else e + [y];
        if y !in e {
          SnocAssoc(da, e, y);
        }
      }
    }
  }

  /**
    Associativity of a snoc, kept apart from `DedupeAppend` so that the
    step is proved in a small context.
   */
  lemma SnocAssoc(xs: seq<string>, ys: seq<string>, z: string)
    ensures (xs + ys) + [z] == xs + (ys + [z])
  {
  }

  /** One step of `Dedupe`: a last value is kept only if it is new. */
  lemma DedupeSnoc(xs: seq<string>, x: string)
    ensures Dedupe(xs + [x]) == if x in Dedupe(xs) then Dedupe(xs) else Dedupe(xs) + [x]
  {
    assert (xs + [x])[..|xs + [x]| - 1] == xs;
  }

  /** One step of `Remove`: a last tag stays only if it is not removed. */
  lemma RemoveSnoc(tags: seq<string>, t: string, removed: seq<string>)
    ensures Remove(tags + [t], removed) == if t in removed then Remove(tags, removed) else Remove(tags, removed) + [t]
  {
    FilterAppend(tags, [t], Absent(removed));
    assert Filter([t], Absent(removed)) == if t in removed then [] else [t];
  }

  /**
    On a note whose tags have no duplicates, adding tags keeps the old tags
    in place and appends the new ones not already present, in order of
    their first occurrence.
   */
  lemma AddAppendsNew(tags: seq<string>, added: seq<string>)
    requires Distinct(tags)
    ensures Add(tags, added) == tags + Dedupe(Remove(added, tags))
  {
    DedupeAppend(tags, added);
    DedupeOfDistinct(tags);
  }

  /** Adding the same tags a second time changes nothing. */
  lemma AddIdempotent(tags: seq<string>, added: seq<string>)
    ensures Add(Add(tags, added), added) == Add(tags, added)
  {
    var once := Add(tags, added);
    AddAppendsNew(once, added);
    var extra := Remove(added, once);
    if extra != [] {
      assert false;
    }
  }

  /** Removing keeps the remaining tags in their original order. */
  lemma RemoveIsSubsequence(tags: seq<string>, removed: seq<string>)
    ensures IsSubsequence(Remove(tags, removed), tags)
  {
    FilterIsSubsequence(tags, Absent(removed));
  }

  /** Removing tags of which none is present is a no-op. */
  lemma RemoveNothingPresent(tags: seq<string>, removed: seq<string>)
    requires forall t :: t in removed ==> t !in tags
    ensures Remove(tags, removed) == tags
  {
    FilterKeepsAll(tags, Absent(removed));
  }

  /** Removing never introduces a duplicate. */
  lemma RemoveKeepsDistinct(tags: seq<string>, removed: seq<string>)
    requires Distinct(tags)
    ensures Distinct(Remove(tags, removed))
  {
    FilterKeepsDistinct(tags, Absent(removed));
  }
}
