/**
 * The build-graph query of `_get_tests_by_tag_query` (ci/ray_ci/tester.py):
 * `attr(tags, '<tag>', tests(t1) union tests(t2) union ...)`. The builder
 * interpolates its inputs without escaping; `ParseTagQuery` is its inverse on
 * the inputs it keeps apart (a tag without `'`, targets without `)`), and
 * `QueryTargetsCollide` shows two target lists it does not keep apart.
 */
module TagQuery {
  import opened Options
  import opened Sequences

  const TagPrefix := "attr(tags, '"
  const TagSuffix := "', "
  const TermPrefix := "tests("
  const Union := " union "

  /** `f"tests({target})"`. */
  function TestsTerm(target: string): string
  {
    TermPrefix + target + ")"
  }

  /** `[f"tests({target})" for target in targets]`, in input order. */
  function TestsTerms(targets: seq<string>): seq<string>
  {
    seq(|targets|, i requires 0 <= i < |targets| => TestsTerm(targets[i]))
  }

  /** The union of the targets' tests, restricted to those carrying `tag`. */
  function BuildTagQuery(targets: seq<string>, tag: string): string
  {
    TagPrefix + tag + TagSuffix + Join(TestsTerms(targets), Union) + ")"
  }

  /** The first position of `c` in `s`, if any. */
  function IndexOf(s: string, c: char): (r: Option<nat>)
    ensures r.Some? ==> r.value < |s| && s[r.value] == c && c !in s[..r.value]
    ensures r.None? ==> c !in s
  {
    if s == [] then None
    else if s[0] == c then Some(0)
    else match IndexOf(s[1..], c)
      case None => None
      case Some(i) =>
        assert s[..i + 1] == [s[0]] + s[1..][..i];
        Some(i + 1)
  }

  /** Reads back a non-empty `tests(t1) union ... union tests(tn)` into `[t1, ..., tn]`. */
  function ParseTerms(s: string): (r: Option<seq<string>>)
    ensures r.Some? ==> |r.value| >= 1
    decreases |s|
  {
    if |s| < |TermPrefix| || s[..|TermPrefix|] != TermPrefix then None
    else
      var body := s[|TermPrefix|..];
      match IndexOf(body, ')')
      case None => None
      case Some(i) =>
        var target := body[..i];
        var after := body[i + 1..];
        if after == "" then Some([target])
        else if |after| > |Union| && after[..|Union|] == Union then
          match ParseTerms(after[|Union|..])
          case None => None
          case Some(rest) => Some([target] + rest)
        else None
  }

  /** Reads back the joined terms of any number of targets (none gives the empty string). */
  function ParseUnion(s: string): Option<seq<string>>
  {
    if s == "" then Some([]) else ParseTerms(s)
  }

  /** Reads a query back into its tag and its targets. */
  function ParseTagQuery(q: string): Option<(string, seq<string>)>
  {
    if |q| < |TagPrefix| || q[..|TagPrefix|] != TagPrefix then None
    else
      var rest := q[|TagPrefix|..];
      match IndexOf(rest, '\'')
      case None => None
      case Some(i) =>
        var tag := rest[..i];
        var after := rest[i + 1..];
        if |after| < 3 || after[..2] != ", " || after[|after| - 1] != ')' then None
        else match ParseUnion(after[2..|after| - 1])
          case None => None
          case Some(targets) => Some((tag, targets))
  }

  /** Targets the query keeps apart: none contains a closing parenthesis. */
  ghost predicate PlainTargets(targets: seq<string>)
  {
    forall i :: 0 <= i < |targets| ==> ')' !in targets[i]
  }

  /** The first `c` of `t + [c] + u` is the one right after `t` when `t` has none. */
  lemma IndexOfAfter(t: string, c: char, u: string)
    requires c !in t
    ensures IndexOf(t + [c] + u, c) == Some(|t|)
  {
    var s := t + [c] + u;
    assert s[..|t|] == t;
    assert s[|t|] == c;
  }

  /** The terms of a non-empty target list: the first one, then ` union ` and the rest, if any. */
  lemma JoinTerms(targets: seq<string>)
    requires |targets| >= 1
    ensures Join(TestsTerms(targets), Union)
      == TermPrefix + targets[0] + ")"
         + (if |targets| == 1 then "" else Union + Join(TestsTerms(targets[1..]), Union))
  {
    if |targets| > 1 {
      assert TestsTerms(targets)[1..] == TestsTerms(targets[1..]);
    }
  }

  /** Where a term's target ends: reading `tests(target)` then `tail` finds the target whole. */
  lemma TermBody(target: string, tail: string)
    requires ')' !in target
    ensures var s := TermPrefix + target + ")" + tail;
      && |s| >= |TermPrefix| && s[..|TermPrefix|] == TermPrefix
      && IndexOf(s[|TermPrefix|..], ')') == Some(|target|)
      && s[|TermPrefix|..][..|target|] == target
      && s[|TermPrefix|..][|target| + 1..] == tail
  {
    var s := TermPrefix + target + ")" + tail;
    assert s == TermPrefix + (target + [')'] + tail);
    var body := s[|TermPrefix|..];
    assert body == target + [')'] + tail;
    IndexOfAfter(target, ')', tail);
  }

  /** Reading the last term gives its target alone. */
  lemma ParseLastTerm(target: string)
    requires ')' !in target
    ensures ParseTerms(TermPrefix + target + ")") == Some([target])
  {
    TermBody(target, "");
    assert TermPrefix + target + ")" + "" == TermPrefix + target + ")";
  }

  /** Reading a term followed by ` union ` and more terms gives its target, then theirs. */
  lemma ParseTermThenMore(target: string, more: string, rest: seq<string>)
    requires ')' !in target && |more| > 0 && ParseTerms(more) == Some(rest)
    ensures ParseTerms(TermPrefix + target + ")" + (Union + more)) == Some([target] + rest)
  {
    var tail := Union + more;
    var s := TermPrefix + target + ")" + tail;
    TermBody(target, tail);
    var after := s[|TermPrefix|..][|target| + 1..];
    assert after == tail;
    assert |after| > |Union| && after[..|Union|] == Union && after[|Union|..] == more;
  }

  /** Joining the terms of plain targets and reading them back gives the targets. */
  lemma {:induction false} ParseTermsJoin(targets: seq<string>)
    requires |targets| >= 1 && PlainTargets(targets)
    ensures ParseTerms(Join(TestsTerms(targets), Union)) == Some(targets)
    decreases |targets|
  {
    var t0 := targets[0];
    var tail := if |targets| == 1 then "" else Union + Join(TestsTerms(targets[1..]), Union);
    JoinTerms(targets);
    assert ')' !in t0 by { assert targets[0] == t0; }
    if |targets| == 1 {
      ParseLastTerm(t0);
      assert [t0] == targets;
    } else {
      var more := Join(TestsTerms(targets[1..]), Union);
      assert PlainTargets(targets[1..]) by {
        forall i | 0 <= i < |targets[1..]| ensures ')' !in targets[1..][i] {
          assert targets[1..][i] == targets[i + 1];
        }
      }
      ParseTermsJoin(targets[1..]);
      JoinTerms(targets[1..]);
      ParseTermThenMore(t0, more, targets[1..]);
      assert [t0] + targets[1..] == targets;
    }
  }

  /**
   * Proof step for the lemmas below: `BuildTagQuery`'s own text, bracketed
   * so that the prefix, the tag and the rest can be read off one at a time.
   */
  lemma QueryShape(targets: seq<string>, tag: string)
    ensures BuildTagQuery(targets, tag)
      == TagPrefix + (tag + ['\''] + (", " + Join(TestsTerms(targets), Union) + ")"))
  {
  }

  /**
   * Round trip: a query built from a tag without `'` and plain targets reads
   * back into that tag and those targets, in order.
   */
  lemma QueryRoundTrip(targets: seq<string>, tag: string)
    requires '\'' !in tag && PlainTargets(targets)
    ensures ParseTagQuery(BuildTagQuery(targets, tag)) == Some((tag, targets))
  {
    var u := Join(TestsTerms(targets), Union);
    var q := BuildTagQuery(targets, tag);
    var after := ", " + u + ")";
    var rest := tag + ['\''] + after;
    QueryShape(targets, tag);
    assert q[..|TagPrefix|] == TagPrefix;
    assert q[|TagPrefix|..] == rest;
    IndexOfAfter(tag, '\'', after);
    assert rest[..|tag|] == tag;
    assert rest[|tag| + 1..] == after;
    assert after[..2] == ", " && after[|after| - 1] == ')';
    assert after[2..|after| - 1] == u;
    if |targets| >= 1 {
      ParseTermsJoin(targets);
      JoinTerms(targets);
      assert ParseUnion(u) == Some(targets);
    } else {
      assert ParseUnion(u) == Some(targets);
    }
  }

  /**
   * Distinct tags, or distinct plain target lists, give distinct queries.
   */
  lemma QueryInjective(targets1: seq<string>, tag1: string, targets2: seq<string>, tag2: string)
    requires '\'' !in tag1 && PlainTargets(targets1)
    requires '\'' !in tag2 && PlainTargets(targets2)
    requires BuildTagQuery(targets1, tag1) == BuildTagQuery(targets2, tag2)
    ensures tag1 == tag2 && targets1 == targets2
  {
    QueryRoundTrip(targets1, tag1);
    QueryRoundTrip(targets2, tag2);
  }

  /** One target joins to its own term; two join to their terms in input order around ` union `. */
  lemma JoinOneTwo(t1: string, t2: string)
    ensures Join(TestsTerms([t1]), Union) == TestsTerm(t1)
    ensures Join(TestsTerms([t1, t2]), Union) == TestsTerm(t1) + Union + TestsTerm(t2)
  {
    assert TestsTerms([t1, t2])[1..] == TestsTerms([t2]);
  }

  /** With one target the query holds that target's term alone, without `union`. */
  lemma QuerySingleTarget(target: string, tag: string)
    ensures BuildTagQuery([target], tag) == "attr(tags, '" + tag + "', tests(" + target + "))"
  {
    JoinOneTwo(target, target);
  }

  /**
   * Without escaping, a target holding `) union tests(` reads as two targets:
   * the query cannot tell these target lists apart.
   */
  lemma QueryTargetsCollide(tag: string)
    ensures BuildTagQuery(["a) union tests(b"], tag) == BuildTagQuery(["a", "b"], tag)
  {
    JoinOneTwo("a) union tests(b", "b");
    JoinOneTwo("a", "b");
    assert TestsTerm("a) union tests(b") == TestsTerm("a") + Union + TestsTerm("b");
  }
}
