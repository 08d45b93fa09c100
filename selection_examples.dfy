/**
 * Worked examples of `_get_tests` (ci/ray_ci/tester.py): for any answers
 * holding the lists shown, the selection is the one shown. An empty query
 * answer splits into the single empty line `[""]`, which is how the empty
 * answers below read.
 */
module SelectionExamples {
  import opened Options
  import opened TestTypes
  import opened Sequences
  import opened TestSelection

  /** The filtering steps of the examples below. */
  lemma KeepGpuTests()
    ensures KeepOnly(["a", "b", "c", "d"], ["a", "d"]) == ["a", "d"]
  {
  }

  lemma DropFromGpuTests()
    ensures Without(["a", "d"], ["b", "", "d"]) == ["a"]
  {
  }

  lemma DropFromTeamTests()
    ensures Without(["a", "b", "c", "d"], ["b", "", "d"]) == ["a", "c"]
  {
  }

  /**
   * Team tests a, b, c, d; b is flaky, d is manual and no category tags
   * anything: a run without a category selects a and c.
   */
  lemma ExampleWithoutType(ans: Answers)
    requires ans.team == ["a", "b", "c", "d"] && ans.xcommit == [""] && ans.manual == ["d"]
    requires forall u :: ans.tagged(u) == [""]
    ensures ComposeTests(ans, None, ["b"]) == ["a", "c"]
  {
    forall x ensures x in CategoryTests(ans.tagged, AllTestTypes()) ==> x == "" {
      CategoryTestsMember(ans.tagged, AllTestTypes(), x);
    }
    var excluded := Excluded(ans, None, ["b"]);
    assert forall x :: x in excluded <==> x in ["b", "", "d"];
    FilterAgree(["a", "b", "c", "d"], x => x !in excluded, x => x !in ["b", "", "d"]);
    DropFromTeamTests();
  }

  /** The gpu run below narrows the team's tests to a and d. */
  lemma GpuRunIncluded(ans: Answers)
    requires ans.team == ["a", "b", "c", "d"] && ans.tagged(Gpu) == ["a", "d"]
    ensures Included(ans, Some(Gpu)) == ["a", "d"]
  {
    KeepGpuTests();
  }

  /** The gpu run below excludes the flaky b, the empty `xcommit` line and the manual d. */
  lemma GpuRunExcluded(ans: Answers)
    requires ans.xcommit == [""] && ans.manual == ["d"]
    ensures Excluded(ans, Some(Gpu), ["b"]) == ["b", "", "d"]
  {
  }

  /**
   * The same team with gpu tests a and d: a gpu run narrows to a and d, and
   * manual d is still dropped, so it selects a alone.
   */
  lemma ExampleWithGpu(ans: Answers)
    requires ans.team == ["a", "b", "c", "d"] && ans.xcommit == [""] && ans.manual == ["d"]
    requires ans.tagged(Gpu) == ["a", "d"]
    ensures ComposeTests(ans, Some(Gpu), ["b"]) == ["a"]
  {
    GpuRunIncluded(ans);
    GpuRunExcluded(ans);
    DropFromGpuTests();
  }

  /**
   * A team query that lists gpu test a twice: a gpu run selects it twice,
   * because nothing is deduplicated.
   */
  lemma ExampleDuplicatesKept(ans: Answers)
    requires ans.team == ["a", "a"] && ans.xcommit == [""] && ans.manual == [""]
    requires ans.tagged(Gpu) == ["a"]
    ensures ComposeTests(ans, Some(Gpu), []) == ["a", "a"]
  {
    assert KeepOnly(["a", "a"], ["a"]) == ["a", "a"];
    assert Excluded(ans, Some(Gpu), []) == ["", ""];
    assert Without(["a", "a"], ["", ""]) == ["a", "a"];
  }
}
