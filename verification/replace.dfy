/**
  `replacingOccurrences(of:with:)` with no options: a literal, case-sensitive
  scan from left to right that replaces each occurrence of the query and
  resumes after it, so replaced occurrences never overlap. An empty query
  replaces nothing.
 */
module Replace {
  import opened Text

  /** The replacement of `t[i..]`. */
  function ReplaceFrom(t: String, q: String, r: String, i: nat): String
    requires q != [] && i <= |t|
    decreases |t| - i
  {
    if |t| < i + |q| then t[i..]
    else if OccursAt(t, q, i) then r + ReplaceFrom(t, q, r, i + |q|)
    else [t[i]] + ReplaceFrom(t, q, r, i + 1)
  }

  /** `t.replacingOccurrences(of: q, with: r)`. */
  function ReplaceAll(t: String, q: String, r: String): (u: String)
    ensures q == [] ==> u == t
  {
    if q == [] then t else ReplaceFrom(t, q, r, 0)
  }

  /** Without an occurrence at or after `i` the rest of the text is copied. */
  lemma {:induction false} ReplaceFromAbsent(t: String, q: String, r: String, i: nat)
    requires q != [] && i <= |t|
    requires forall j :: i <= j <= |t| ==> !OccursAt(t, q, j)
    ensures ReplaceFrom(t, q, r, i) == t[i..]
    decreases |t| - i
  {
    if i + |q| <= |t| {
      assert !OccursAt(t, q, i);
      ReplaceFromAbsent(t, q, r, i + 1);
      assert t[i..] == [t[i]] + t[i + 1..];
    }
  }

  /** A position without an occurrence is copied, and the scan moves on by one. */
  lemma ReplaceFromSkip(t: String, q: String, r: String, i: nat)
    requires q != [] && i + |q| <= |t| && !OccursAt(t, q, i)
    ensures ReplaceFrom(t, q, r, i) == [t[i]] + ReplaceFrom(t, q, r, i + 1)
  {
  }

  lemma ConsSlice(t: String, i: nat, j: nat, x: String)
    requires i < j <= |t|
    ensures [t[i]] + (t[i + 1..j] + x) == t[i..j] + x
  {
    assert t[i..j] == [t[i]] + t[i + 1..j];
  }

  /** The leftmost occurrence at or after `i`, at `j`, is the next one replaced: the
      text before it is copied, and the scan resumes right after it. */
  lemma {:induction false} ReplaceFromLeftmost(t: String, q: String, r: String, i: nat, j: nat)
    requires q != [] && i <= j && OccursAt(t, q, j)
    requires forall k :: i <= k < j ==> !OccursAt(t, q, k)
    ensures ReplaceFrom(t, q, r, i) == t[i..j] + (r + ReplaceFrom(t, q, r, j + |q|))
    decreases j - i
  {
    var rest := r + ReplaceFrom(t, q, r, j + |q|);
    if i == j {
      assert t[i..j] + rest == rest;
    } else {
      assert !OccursAt(t, q, i);
      ReplaceFromSkip(t, q, r, i);
      ReplaceFromLeftmost(t, q, r, i + 1, j);
      ConsSlice(t, i, j, rest);
    }
  }

  /** A text without the query is returned unchanged. */
  lemma ReplaceAllAbsent(t: String, q: String, r: String)
    requires !Contains(t, q)
    ensures ReplaceAll(t, q, r) == t
  {
    if q != [] {
      assert t[0..] == t;
      ReplaceFromAbsent(t, q, r, 0);
    }
  }

  /** Replacing the query by itself changes nothing. */
  lemma {:induction false} ReplaceFromSelf(t: String, q: String, i: nat)
    requires q != [] && i <= |t|
    ensures ReplaceFrom(t, q, q, i) == t[i..]
    decreases |t| - i
  {
    if i + |q| <= |t| {
      if OccursAt(t, q, i) {
        ReplaceFromSelf(t, q, i + |q|);
        assert t[i..] == t[i..i + |q|] + t[i + |q|..];
      } else {
        ReplaceFromSelf(t, q, i + 1);
        assert t[i..] == [t[i]] + t[i + 1..];
      }
    }
  }

  lemma ReplaceAllSelf(t: String, q: String)
    ensures ReplaceAll(t, q, q) == t
  {
    if q != [] {
      ReplaceFromSelf(t, q, 0);
      assert t[0..] == t;
    }
  }

  /** Replacing the whole text, which is exactly the query, gives the replacement. */
  lemma ReplaceAllWhole(q: String, r: String)
    requires q != []
    ensures ReplaceAll(q, q, r) == r
  {
    ReplaceFromLeftmost(q, q, r, 0, 0);
    assert q[|q|..] == [];
  }

  /** An occurrence must begin with the query's first character. */
  lemma NotAt(t: String, q: String, k: nat)
    requires q != [] && k < |t| && t[k] != q[0]
    ensures !OccursAt(t, q, k)
  {
  }

  /** Both occurrences in "foo bar foo" are replaced; the text between them is kept. */
  lemma ReplaceTwoOccurrences(t: String, q: String, r: String)
    requires t == "foo bar foo" && q == "foo" && r == "baz"
    ensures ReplaceAll(t, q, r) == "baz bar baz"
  {
    assert t[0..3] == q && t[8..11] == q;
    forall k | 3 <= k < 8 ensures !OccursAt(t, q, k) {
      NotAt(t, q, k);
    }
    ReplaceFromLeftmost(t, q, r, 0, 0);
    ReplaceFromLeftmost(t, q, r, 3, 8);
    assert t[11..] == [] && t[0..0] == [];
    assert t[3..8] == " bar ";
  }

  /** Matching is case-sensitive: "Foo" is not an occurrence of "foo". */
  lemma ReplaceCaseSensitive(t: String, q: String, r: String)
    requires t == "Foo foo" && q == "foo" && r == "x"
    ensures ReplaceAll(t, q, r) == "Foo x"
  {
    assert t[4..7] == q;
    forall k | 0 <= k < 4 ensures !OccursAt(t, q, k) {
      NotAt(t, q, k);
    }
    ReplaceFromLeftmost(t, q, r, 0, 4);
    assert t[7..] == [];
    assert t[0..4] == "Foo ";
  }

  /** Removing "ab" from "aabb" joins the remaining "a" and "b" into a new "ab":
      the scan does not look at its own output. */
  lemma ReplaceJoinsNewOccurrence(t: String, q: String)
    requires t == "aabb" && q == "ab"
    ensures ReplaceAll(t, q, "") == q
  {
    assert t[1..3] == q;
    assert t[0..2][1] != q[1];
    ReplaceFromLeftmost(t, q, "", 0, 1);
    assert t[0..1] == "a" && t[3..] == "b";
  }
}
