/**
 * The closed enumeration of test categories (`TestType` in ci/ray_ci/tester.py).
 * Each category stands for one build-graph tag; `Value` gives that tag.
 */
module TestTypes {
  import opened Options

  datatype TestType =
    | Asan
    | DataIntegration
    | Debug
    | Doc
    | Gpu
    | PostWheel
    | Kuberay
    | SparkPlugin
    | WorkerContainer

  /** The categories' tag strings, in declaration order. */
  const Tags: seq<string> := [
    "asan_tests", "data_integration", "debug_tests", "doctest", "gpu",
    "post_wheel_build", "kuberay_operator", "spark_plugin_tests", "worker-container"]

  /** A category's position in the declaration. */
  function Ordinal(t: TestType): (i: nat)
    ensures i < |Tags|
  {
    match t
    case Asan => 0
    case DataIntegration => 1
    case Debug => 2
    case Doc => 3
    case Gpu => 4
    case PostWheel => 5
    case Kuberay => 6
    case SparkPlugin => 7
    case WorkerContainer => 8
  }

  /**
   * The tag string of a category (the enum member's value): one of the
   * declared tags and never empty, so a chosen category is always truthy and
   * `if test_type:` asks only whether one was chosen.
   */
  function Value(t: TestType): (v: string)
    ensures v in Tags
    ensures |v| > 0
  {
    Tags[Ordinal(t)]
  }

  /** The members in declaration order, which is the order `for t in TestType` visits them. */
  function AllTestTypes(): (all: seq<TestType>)
    ensures |all| == 9
  {
    [Asan, DataIntegration, Debug, Doc, Gpu, PostWheel, Kuberay, SparkPlugin, WorkerContainer]
  }

  /** Iterating over the enumeration visits every category. */
  lemma AllTestTypesComplete(t: TestType)
    ensures t in AllTestTypes()
  {
    var all := AllTestTypes();
    match t
    case Asan => assert all[0] == t;
    case DataIntegration => assert all[1] == t;
    case Debug => assert all[2] == t;
    case Doc => assert all[3] == t;
    case Gpu => assert all[4] == t;
    case PostWheel => assert all[5] == t;
    case Kuberay => assert all[6] == t;
    case SparkPlugin => assert all[7] == t;
    case WorkerContainer => assert all[8] == t;
  }

  /** Iterating over the enumeration visits no category twice. */
  lemma AllTestTypesDistinct(i: int, j: int)
    requires 0 <= i < j < |AllTestTypes()|
    ensures AllTestTypes()[i] != AllTestTypes()[j]
  {
  }

  /** The first category among `candidates` whose tag is `s`. */
  function FindByValue(s: string, candidates: seq<TestType>): (r: Option<TestType>)
    ensures r.Some? ==> r.value in candidates && Value(r.value) == s
    ensures r.None? ==> forall t :: t in candidates ==> Value(t) != s
  {
    if candidates == [] then None
    else if Value(candidates[0]) == s then Some(candidates[0])
    else FindByValue(s, candidates[1..])
  }

  /**
   * The `--test-type` option accepts exactly the tag strings of the categories
   * (a choice over `[t.value for t in TestType]`); `Parse` maps an accepted
   * string back to its category and rejects any other string.
   * `None` here is that rejection (click stops with a usage error); it is not
   * the absent `--test-type`, which is `None` in `SelectTestTargets`.
   */
  function Parse(s: string): (r: Option<TestType>)
    ensures r.Some? ==> Value(r.value) == s
    ensures r.None? ==> forall t :: Value(t) != s
  {
    assert forall t :: t in AllTestTypes() by {
      forall t ensures t in AllTestTypes() {
        AllTestTypesComplete(t);
      }
    }
    FindByValue(s, AllTestTypes())
  }

  /** No two categories share a tag. */
  lemma ValueInjective(t: TestType, u: TestType)
    requires Value(t) == Value(u)
    ensures t == u
  {
    match t
    case Asan => assert Value(u)[0] == 'a';
    case DataIntegration => assert Value(u)[0] == 'd' && Value(u)[1] == 'a';
    case Debug => assert Value(u)[0] == 'd' && Value(u)[1] == 'e';
    case Doc => assert Value(u)[0] == 'd' && Value(u)[1] == 'o';
    case Gpu => assert Value(u)[0] == 'g';
    case PostWheel => assert Value(u)[0] == 'p';
    case Kuberay => assert Value(u)[0] == 'k';
    case SparkPlugin => assert Value(u)[0] == 's';
    case WorkerContainer => assert Value(u)[0] == 'w';
  }

  /** Every accepted option value names exactly the category it came from. */
  lemma ParseValue(t: TestType)
    ensures Parse(Value(t)) == Some(t)
  {
    AllTestTypesComplete(t);
    var r := Parse(Value(t));
    ValueInjective(r.value, t);
  }
}
