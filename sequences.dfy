/**
 * The Python list and string operations the tester relies on: the filtering
 * comprehension `[x for x in s if cond(x)]` (kept elements stay in their
 * original order and keep their multiplicity), `sep.join(parts)` and
 * `text.split(sep)`.
 */
module Sequences {

  /** `[x for x in s if keep(x)]`. */
  function Filter(s: seq<string>, keep: string -> bool): (r: seq<string>)
    ensures |r| <= |s|
    ensures forall x :: x in r <==> x in s && keep(x)
  {
    if s == [] then []
    else (if keep(s[0]) then [s[0]] else []) + Filter(s[1..], keep)
  }

  /** `r` is `s` with some elements left out and the rest in their original order. */
  ghost predicate IsSubsequence(r: seq<string>, s: seq<string>)
    decreases |s|
  {
    r == [] || (s != [] && ((r[0] == s[0] && IsSubsequence(r[1..], s[1..])) || IsSubsequence(r, s[1..])))
  }

  /** Filtering keeps the original order: the result is a subsequence of the input. */
  lemma {:induction false} FilterIsSubsequence(s: seq<string>, keep: string -> bool)
    ensures IsSubsequence(Filter(s, keep), s)
  {
    if s != [] {
      FilterIsSubsequence(s[1..], keep);
      var r := Filter(s, keep);
      if keep(s[0]) {
        assert r[0] == s[0] && r[1..] == Filter(s[1..], keep);
      } else {
        assert r == Filter(s[1..], keep);
      }
    }
  }

  /** Filtering distributes over concatenation, so no element changes place. */
  lemma {:induction false} FilterConcat(a: seq<string>, b: seq<string>, keep: string -> bool)
    ensures Filter(a + b, keep) == Filter(a, keep) + Filter(b, keep)
  {
    if a != [] {
      var head := if keep(a[0]) then [a[0]] else [];
      FilterConcat(a[1..], b, keep);
      assert (a + b)[0] == a[0] && (a + b)[1..] == a[1..] + b;
      assert Filter(a + b, keep) == head + (Filter(a[1..], keep) + Filter(b, keep));
      assert Filter(a, keep) == head + Filter(a[1..], keep);
    } else {
      assert a + b == b;
    }
  }

  /**
   * Filtering never removes duplicates: each kept value occurs as often as in
   * the input, every other value not at all.
   */
  lemma {:induction false} FilterCount(s: seq<string>, keep: string -> bool, x: string)
    ensures multiset(Filter(s, keep))[x] == if keep(x) then multiset(s)[x] else 0
  {
    if s != [] {
      FilterCount(s[1..], keep, x);
      assert s == [s[0]] + s[1..];
      assert multiset(s) == multiset{s[0]} + multiset(s[1..]);
    }
  }

  /** Two conditions that agree on the elements of `s` filter it alike. */
  lemma {:induction false} FilterAgree(s: seq<string>, p: string -> bool, q: string -> bool)
    requires forall x :: x in s ==> p(x) == q(x)
    ensures Filter(s, p) == Filter(s, q)
  {
    if s != [] {
      FilterAgree(s[1..], p, q);
    }
  }

  /** Filtering twice is filtering once by both conditions. */
  lemma {:induction false} FilterFilter(s: seq<string>, p: string -> bool, q: string -> bool)
    ensures Filter(Filter(s, p), q) == Filter(s, x => p(x) && q(x))
  {
    if s != [] {
      FilterFilter(s[1..], p, q);
      var head := if p(s[0]) then [s[0]] else [];
      FilterConcat(head, Filter(s[1..], p), q);
    }
  }

  /** Filtering again by the same condition changes nothing. */
  lemma FilterIdempotent(s: seq<string>, keep: string -> bool)
    ensures Filter(Filter(s, keep), keep) == Filter(s, keep)
  {
    FilterFilter(s, keep, keep);
    FilterAgree(s, x => keep(x) && keep(x), keep);
  }

  /** When every element is kept the input comes back whole, duplicates included. */
  lemma {:induction false} FilterKeepsAll(s: seq<string>, keep: string -> bool)
    requires forall x :: x in s ==> keep(x)
    ensures Filter(s, keep) == s
  {
    if s != [] {
      FilterKeepsAll(s[1..], keep);
      assert s == [s[0]] + s[1..];
    }
  }

  /** The summed lengths of `parts`. */
  function TotalLength(parts: seq<string>): nat
  {
    if parts == [] then 0 else |parts[0]| + TotalLength(parts[1..])
  }

  /**
   * Python's `sep.join(parts)`: the parts in order with one separator between
   * neighbours, so the separators add `|parts| - 1` copies of `sep`.
   */
  function Join(parts: seq<string>, sep: string): (r: string)
    ensures |parts| >= 1 ==> |r| == TotalLength(parts) + (|parts| - 1) * |sep|
    ensures |parts| >= 1 ==> |parts[0]| <= |r| && r[..|parts[0]|] == parts[0]
  {
    if |parts| == 0 then ""
    else if |parts| == 1 then parts[0]
    else
      assert (|parts| - 2) * |sep| + |sep| == (|parts| - 1) * |sep|;
      parts[0] + sep + Join(parts[1..], sep)
  }

  /**
   * Python's `text.split(sep)` for a one-character separator: the pieces
   * between separators, at least one, none holding `sep`, and joined back
   * with `sep` they give `text` again. The empty text gives `[""]`, and a
   * trailing separator gives a trailing empty piece.
   */
  function Split(text: string, sep: char): (r: seq<string>)
    ensures |r| >= 1
    ensures Join(r, [sep]) == text
    ensures forall i :: 0 <= i < |r| ==> sep !in r[i]
    decreases |text|
  {
    if text == [] then [""]
    else
      var rest := Split(text[1..], sep);
      if text[0] == sep then
        assert ([""] + rest)[1..] == rest;
        assert text == [sep] + text[1..];
        [""] + rest
      else
        var r := [[text[0]] + rest[0]] + rest[1..];
        assert r[1..] == rest[1..];
        assert text == [text[0]] + text[1..];
        assert Join(r, [sep]) == [text[0]] + Join(rest, [sep]) by {
          if |rest| >= 2 {
            assert Join(rest, [sep]) == rest[0] + [sep] + Join(rest[1..], [sep]);
          }
        }
        r
  }

  /** A join whose last part is not empty ends with that part's last character. */
  lemma {:induction false} JoinLastChar(parts: seq<string>, sep: string)
    requires |parts| >= 1 && parts[|parts| - 1] != ""
    ensures var r := Join(parts, sep); var last := parts[|parts| - 1];
      |r| >= 1 && r[|r| - 1] == last[|last| - 1]
    decreases |parts|
  {
    if |parts| > 1 {
      assert parts[1..][|parts| - 2] == parts[|parts| - 1];
      JoinLastChar(parts[1..], sep);
    }
  }

  /**
   * A text that is empty or ends with the separator splits with an empty
   * last piece: the last piece ends the text and holds no separator.
   */
  lemma SplitLastEmpty(text: string, sep: char)
    requires text == "" || text[|text| - 1] == sep
    ensures var pieces := Split(text, sep); pieces[|pieces| - 1] == ""
  {
    var pieces := Split(text, sep);
    if text == "" {
      assert pieces == [""];
    } else if pieces[|pieces| - 1] != "" {
      JoinLastChar(pieces, [sep]);
      assert false;
    }
  }

  /** A piece without the separator, then the separator: the split starts with that piece. */
  lemma {:induction false} SplitFirstPiece(p: string, sep: char, u: string)
    requires sep !in p
    ensures Split(p + [sep] + u, sep) == [p] + Split(u, sep)
    decreases |p|
  {
    var text := p + [sep] + u;
    if p == [] {
      assert text == [sep] + u;
      assert text[1..] == u;
    } else {
      assert text[0] == p[0] && p[0] != sep;
      assert text[1..] == p[1..] + [sep] + u;
      SplitFirstPiece(p[1..], sep, u);
      var rest := Split(text[1..], sep);
      assert Split(text, sep) == [[p[0]] + rest[0]] + rest[1..];
      assert rest[0] == p[1..] && rest[1..] == Split(u, sep);
      assert [p[0]] + p[1..] == p;
    }
  }

  /** A text without the separator splits into itself alone. */
  lemma {:induction false} SplitWhole(p: string, sep: char)
    requires sep !in p
    ensures Split(p, sep) == [p]
    decreases |p|
  {
    if p != [] {
      SplitWhole(p[1..], sep);
      assert [p[0]] + p[1..] == p;
    }
  }

  /**
   * Splitting undoes joining: pieces that hold no separator come back from
   * their join one for one, so `Split` and `Join` are inverse both ways.
   */
  lemma {:induction false} SplitJoin(parts: seq<string>, sep: char)
    requires |parts| >= 1
    requires forall i :: 0 <= i < |parts| ==> sep !in parts[i]
    ensures Split(Join(parts, [sep]), sep) == parts
    decreases |parts|
  {
    if |parts| == 1 {
      SplitWhole(parts[0], sep);
    } else {
      assert sep !in parts[0];
      SplitJoin(parts[1..], sep);
      SplitFirstPiece(parts[0], sep, Join(parts[1..], [sep]));
      assert [parts[0]] + parts[1..] == parts;
    }
  }
}
