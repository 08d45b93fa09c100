# Test selection and sharding of `ci/ray_ci/tester.py`, in Dafny

This project models the test-selection core of Ray's CI tester
(`ci/ray_ci/tester.py`). Given build targets, a team, a worker's place among
the concurrent workers and an optional test category, the tester decides which
test targets to run and which shards the worker owns. The model proves what
that decision guarantees.

- `TestTypes` (`test_types.dfy`) is the closed `TestType` enumeration: nine
  categories, each with its tag string (`Value`). `Parse` is the `--test-type`
  choice over those strings. Parsing a tag gives back its category, and no two
  categories share a tag.
- `ShardPlanner` (`shard_planner.dfy`) is the arithmetic of `_get_container`.
  The shard count is `workers * parallelism_per_worker`, and the shard ids are
  `list(range(worker_id * p, (worker_id + 1) * p))`. The build name falls back
  to `f"{team}build"` when it is absent or empty. For `p >= 1`, the model
  proves that different workers get disjoint blocks. For at least one worker,
  `p >= 1` and a worker index with `0 <= worker_id < workers`, it proves that
  each id stays in `[0, shard_count)`. It also proves that the blocks of
  workers `0 .. workers-1`, laid end to end, are exactly `[0, shard_count)`,
  so every shard is owned exactly once.
- `TagQuery` (`tag_query.dfy`) is `_get_tests_by_tag_query`, which builds
  `attr(tags, '<tag>', tests(t1) union ... union tests(tn))`. `ParseTagQuery`
  is its inverse. The round trip holds whenever the tag has no `'` and no
  target has a `)`. In that case distinct inputs give distinct queries. The
  builder does not escape anything, so other inputs can collide
  (`QueryTargetsCollide`). `BuildTagQuery` carries no contract of its own;
  what it builds is stated by `QueryRoundTrip`, `QueryInjective`,
  `QuerySingleTarget` and `QueryTargetsCollide`.
- `Sequences` (`sequences.dfy`) holds the Python list and string operations
  the tester uses. `Filter` is the comprehension `[x for x in s if cond(x)]`.
  It keeps order, keeps duplicates, and distributes over concatenation.
  `Join` is `sep.join(parts)`. `Split` is `text.split(sep)` for a
  one-character separator, and it is proved inverse to `Join` in both
  directions.
- `TestSelection` (`test_selection.dfy`) is `_get_tests_by_tag`, `_get_tests`
  and the flaky-only choice in `main`. `TestsByTag` splits the oracle's answer
  into lines, as `.split("\n")` does. The selection is stated over `Answers`,
  the lists that one call's four kinds of query return, and `Ask` collects
  them from the oracle. `GetTests` is a method with the source's loop over
  `TestType`. It is proved equal to the specification function
  `ComposeTests` over `Ask`'s answers. The lemmas show that `ComposeTests` is
  the team's test list filtered by one selection rule. That rule never admits
  flaky, `xcommit` or `manual` tests. With a category, it admits only that
  category's tests. Without one, it admits no test of any category. The
  result keeps the team list's order and duplicates, and a team with nothing
  to exclude is selected whole (`NothingExcludedKeepsTeam`). When the
  `xcommit` answer is empty or ends with a newline, the empty line that
  splitting leaves is never selected (`TrailingNewlineNeverSelected`).
- `SelectionExamples` (`selection_examples.dfy`) holds worked scenarios,
  including a team test that the team query lists twice.

The build graph is a parameter `oracle: string -> string`. It receives the
exact query string that `_get_tests_by_tag` passes to `bazel query` and
returns the decoded text the command prints. The team's flaky list, which the
source reads from `<team>.tests.yml`, is an input sequence.

Two behaviours of the code are worth stating outright, because a reader might
expect otherwise:

- The code removes no duplicate test identifiers
  (`ci/ray_ci/tester.py:166`, `:174`), and neither does the model
  (`ComposeKeepsDuplicates`, `ExampleDuplicatesKept`).
- The code rejects no worker count, worker index or parallelism value
  (`ci/ray_ci/tester.py:112-119`). `PlanShard` is total, and the partition
  lemmas put the conditions they need in their `requires`.

## Model

| member | source | states |
|---|---|---|
| TestTypes.Value | ci/ray_ci/tester.py:17-26 | a category's value is one of the nine declared tag strings and is never empty, so a chosen `test_type` is always truthy at line 163 |
| TestTypes.AllTestTypesComplete | ci/ray_ci/tester.py:17-26 | every `TestType` member is visited when iterating over the enumeration |
| TestTypes.AllTestTypesDistinct | ci/ray_ci/tester.py:17-26 | the iteration visits no member twice |
| TestTypes.ValueInjective | ci/ray_ci/tester.py:17-26 | two members with the same tag string are the same member |
| TestTypes.FindByValue | ci/ray_ci/tester.py:66 | the member found has the searched-for value and is among the candidates; if none is found, no candidate has that value |
| TestTypes.Parse | ci/ray_ci/tester.py:63-67 | an accepted `--test-type` string is the value of the member it returns; a rejected string is the value of no member |
| TestTypes.ParseValue | ci/ray_ci/tester.py:63-67 | parsing a member's value gives back that member (round trip) |
| ShardPlanner.Range | ci/ray_ci/tester.py:119 | `list(range(lo, hi))` has `hi - lo` elements (none if `hi <= lo`), its `k`-th element is `lo + k`, and it holds exactly the integers `x` with `lo <= x < hi` |
| ShardPlanner.BuildName | ci/ray_ci/tester.py:117 | the container's build name is never empty, and a non-empty given build name is kept as is |
| ShardPlanner.EmptyBuildNameIsAbsent | ci/ray_ci/tester.py:117 | an empty build name is treated like no build name: both become `team + "build"` |
| ShardPlanner.PlanShard | ci/ray_ci/tester.py:105-120 | the build name is non-empty; the shard count is `workers * p`; the shard ids are the `p` consecutive integers from `worker_id * p` (none if `p <= 0`), so the worker owns exactly the ids `s` with `worker_id * p <= s < (worker_id + 1) * p` |
| ShardPlanner.RangeCount | ci/ray_ci/tester.py:119 | an integer occurs in `range(lo, hi)` once if `lo <= s < hi`, and otherwise not at all |
| ShardPlanner.RangeSplit | ci/ray_ci/tester.py:113-114 | `range(lo, mid)` followed by `range(mid, hi)` is `range(lo, hi)` |
| ShardPlanner.ShardIdsInRange | ci/ray_ci/tester.py:112-114 | for `0 <= worker_id < workers` and `p >= 1`, every owned id lies in `[0, shard_count)` |
| ShardPlanner.ShardsDisjoint | ci/ray_ci/tester.py:113-114 | for `p >= 1`, two different workers own no shard in common |
| ShardPlanner.AllShardIdsAreRange | ci/ray_ci/tester.py:112-119 | the blocks of workers `0 .. n-1`, laid end to end in worker order, are exactly `range(0, n * p)` |
| ShardPlanner.ShardsPartition | ci/ray_ci/tester.py:112-119 | over all workers, each id in `[0, shard_count)` is owned exactly once and no other id is owned |
| ShardPlanner.ExampleThreeWorkers | ci/ray_ci/tester.py:112-119 | with 3 workers and p = 2, worker 1 owns shards `[2, 3]` of 6, and the build name defaults to `corebuild` |
| ShardPlanner.ExampleSingleWorker | ci/ray_ci/tester.py:112-119 | one worker with p = 1 owns the whole shard space `[0]`, and a given build name is kept |
| Sequences.Join | ci/ray_ci/tester.py:124 | `sep.join(parts)` of at least one part starts with the first part and is as long as all parts plus `|parts| - 1` separators |
| TagQuery.JoinTerms | ci/ray_ci/tester.py:124 | the joined terms are the first target's term, then `" union "` and the rest if there are more targets |
| TagQuery.JoinOneTwo | ci/ray_ci/tester.py:124 | one target joins to its own term with no `" union "`; two targets join to their terms in input order around `" union "` |
| TagQuery.ParseTermsJoin | ci/ray_ci/tester.py:124 | reading the joined terms of a non-empty list of targets without `)` gives back that list |
| TagQuery.QueryRoundTrip | ci/ray_ci/tester.py:123-125 | a query built from a tag without `'` and targets without `)` reads back as that tag and those targets, in order |
| TagQuery.QueryInjective | ci/ray_ci/tester.py:123-125 | for such inputs, equal queries come from equal tags and equal target lists |
| TagQuery.QuerySingleTarget | ci/ray_ci/tester.py:123-125 | with one target the query is `attr(tags, '<tag>', tests(<target>))`, with no `union` |
| TagQuery.QueryTargetsCollide | ci/ray_ci/tester.py:124 | with no escaping, the target `a) union tests(b` gives the same query as the two targets `a`, `b` |
| Sequences.Split | ci/ray_ci/tester.py:141-142 | `text.split(sep)` gives at least one piece, no piece holds `sep`, and joining the pieces with `sep` gives `text` back |
| Sequences.SplitJoin | ci/ray_ci/tester.py:141-142 | splitting the join of pieces that hold no `sep` gives those pieces back, so split and join are inverse both ways |
| Sequences.SplitLastEmpty | ci/ray_ci/tester.py:141-142 | a text that is empty or ends with `sep` splits with an empty last piece |
| Sequences.Filter | ci/ray_ci/tester.py:174 | the comprehension keeps exactly the elements of the input that meet the condition, and is never longer than the input |
| Sequences.FilterIsSubsequence | ci/ray_ci/tester.py:174 | the filtered list is a subsequence of the input, so the original order is kept |
| Sequences.FilterConcat | ci/ray_ci/tester.py:174 | filtering a concatenation gives the concatenation of the filtered parts |
| Sequences.FilterCount | ci/ray_ci/tester.py:174 | a kept value occurs as often as in the input, and any other value not at all, so duplicates are not removed |
| Sequences.FilterAgree | ci/ray_ci/tester.py:166 | two conditions that agree on the input's elements filter it alike |
| Sequences.FilterFilter | ci/ray_ci/tester.py:166-174 | filtering by one condition and then another is filtering once by both |
| Sequences.FilterIdempotent | ci/ray_ci/tester.py:174 | filtering twice by the same condition equals filtering once |
| Sequences.FilterKeepsAll | ci/ray_ci/tester.py:172-174 | when every element is kept, the whole input comes back unchanged, duplicates included |
| TestSelection.TeamTag | ci/ray_ci/tester.py:155 | the team tag differs from every category tag and from `xcommit` and `manual`, so the team query is a query of its own; it holds no `'` when the team name holds none |
| TestSelection.TestsByTag | ci/ray_ci/tester.py:128-142 | the result is the lines of the oracle's answer to the query for that tag: at least one line, none holding a newline, and joined with newlines they give the answer back |
| TestSelection.ComposeTests | ci/ray_ci/tester.py:145-174 | every selected test is a team test that is not flaky, `xcommit` or `manual`, with or without a category, and there are never more selected tests than team tests |
| TestSelection.GetTests | ci/ray_ci/tester.py:145-174 | the method (with its loop over `TestType` that extends `excluded`) returns exactly `ComposeTests` over the answers the oracle gives to its queries |
| TestSelection.CategoryTestsMember | ci/ray_ci/tester.py:169-171 | a test is in the accumulated category lists exactly when one of the categories tags it |
| TestSelection.ExcludedMember | ci/ray_ci/tester.py:157-171 | a test is in `excluded` exactly when it is flaky, `xcommit` or `manual`, or, when no category is given, when some category tags it |
| TestSelection.ComposeIsSelectionWithType | ci/ray_ci/tester.py:163-166 | with a category, the result is the team list filtered by the selection rule |
| TestSelection.ComposeIsSelectionWithoutType | ci/ray_ci/tester.py:167-172 | without a category, the result is the team list filtered by the selection rule |
| TestSelection.ComposeIsSelection | ci/ray_ci/tester.py:155-174 | the result is exactly the team's tests filtered by the selection rule: not flaky, `xcommit` or `manual`, and in the chosen category, or, without one, in no category |
| TestSelection.ComposeKeepsOrder | ci/ray_ci/tester.py:174 | the result is a subsequence of the team's tests (original order, nothing re-sorted) |
| TestSelection.ComposeKeepsDuplicates | ci/ray_ci/tester.py:166-174 | a selected test occurs as often as in the team's list, and any other test not at all (no deduplication) |
| TestSelection.ComposeWithType | ci/ray_ci/tester.py:163-166 | with category `t`, a test is selected iff it is a team test, is tagged `t`, and is not flaky, `xcommit` or `manual` |
| TestSelection.ComposeWithoutType | ci/ray_ci/tester.py:167-172 | without a category, a test is selected iff it is a team test, is not flaky, `xcommit` or `manual`, and no category tags it |
| TestSelection.ComposeIdempotent | ci/ray_ci/tester.py:174 | filtering the result again by the same exclusion list changes nothing |
| TestSelection.NothingExcludedKeepsTeam | ci/ray_ci/tester.py:167-174 | without a category, a team none of whose tests is flaky, `xcommit`, `manual` or in any category is selected whole, in order and with duplicates |
| TestSelection.SelectTestTargets | ci/ray_ci/tester.py:89-100 | the container is the shard plan; with `--run-flaky-tests` the targets are exactly the flaky list, and otherwise they are `_get_tests`'s result |
| TestSelection.ModesDisjoint | ci/ray_ci/tester.py:92-100 | a normal run selects no test that is on the flaky list the flaky-only run uses |
| TestSelection.TrailingNewlineNeverSelected | ci/ray_ci/tester.py:141-142 | when the `xcommit` answer is empty or ends with a newline, the empty line that splitting leaves is never selected as a test target |
| SelectionExamples.ExampleWithoutType | ci/ray_ci/tester.py:155-174 | team tests a, b, c, d, with b flaky, d manual, an empty `xcommit` answer and no category tagging anything: the run selects `[a, c]` |
| SelectionExamples.ExampleWithGpu | ci/ray_ci/tester.py:155-174 | the same, with gpu tests `[a, d]` and `gpu` chosen: the run selects `[a]` |
| SelectionExamples.ExampleDuplicatesKept | ci/ray_ci/tester.py:163-174 | a gpu test that the team query lists twice is selected twice |

## Left out

- The environment lookup of `BUILD_WORKSPACE_DIRECTORY`, the check that it is set, `os.chdir`, `docker_login`, `container.run_tests` and `sys.exit` in `main`. These are process and I/O plumbing.
- The `TesterContainer` object. The model keeps only the arguments `_get_container` passes to it (`ShardPlanner.ContainerSpec`). `TesterContainer` is not part of this model.
- Running `bazel query` inside `_get_tests_by_tag` and decoding its bytes. The oracle parameter stands for both and returns the decoded text; the split into lines is modelled (`TestsByTag`). A failing query is not modelled: a non-zero exit of `bazel query` or a decode error (`ci/ray_ci/tester.py:135-141`) raises in the source, while the oracle is total and always answers.
- `_get_flaky_tests`: building the YAML path, opening the file and reading `flaky_tests`. The flaky list is an input. A missing file or key raises inside the YAML and file libraries, and the model does not cover that.
- Parsing of the `click` options other than `--test-type`, and the `--test-env` values that are passed to the runner unchanged.
- `ci/ray_ci/pipeline/cmd_notify_build_failure.py`. It only reads an environment variable and calls `buildkite-agent`.
- The team tag is built as in the source (`team:` + team + two backslashes + `b`), and the model then treats it as an opaque string. What the backslashes mean to `bazel query` is not modelled.
