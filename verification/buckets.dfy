/** Accepted file paths grouped by sensor type, as the crawler's
    `file_paths_for_sensor` dictionary, and the priority-ordered substring
    test that decides a path's group. */
module Buckets {
  import opened Common
  import opened Strings
  import opened Seqs

  /** Sensor type to the paths sorted into it, in insertion order. */
  type Buckets = map<string, seq<string>>

  /** `d[key].append(path)`, which raises `KeyError` when `key` is absent. */
  function Append(d: Buckets, key: string, path: string): (r: Result<Buckets>)
    ensures r.Success? <==> key in d
    ensures r.Failure? ==> r.error == KeyError(key)
    ensures r.Success? ==> r.value.Keys == d.Keys && r.value[key] == d[key] + [path]
    ensures r.Success? ==> forall k :: k in d && k != key ==> r.value[k] == d[k]
  {
    if key in d then Success(d[key := d[key] + [path]]) else Failure(KeyError(key))
  }

  /** The first token of `priorities` that `path` contains: the branch an
      `if 'a' in path: ... elif 'b' in path: ...` chain takes. */
  function Classify(priorities: seq<string>, path: string): (r: Option<string>)
    ensures r.Some? <==> ContainsAny(path, priorities)
    ensures r.Some? ==> r.value in priorities && Contains(path, r.value)
  {
    if |priorities| == 0 then None
    else if Contains(path, priorities[0]) then Some(priorities[0])
    else Classify(priorities[1..], path)
  }

  /** The token chosen is the first one in priority order that the path contains. */
  lemma {:induction false} ClassifyFirstMatch(priorities: seq<string>, path: string)
    ensures Classify(priorities, path).Some? ==>
              exists k :: 0 <= k < |priorities| && priorities[k] == Classify(priorities, path).value &&
                          Contains(path, priorities[k]) && forall j :: 0 <= j < k ==> !Contains(path, priorities[j])
  {
    if |priorities| != 0 && !Contains(path, priorities[0]) && Classify(priorities, path).Some? {
      var rest := priorities[1..];
      ClassifyFirstMatch(rest, path);
      var k :| 0 <= k < |rest| && rest[k] == Classify(rest, path).value &&
                Contains(path, rest[k]) && forall j :: 0 <= j < k ==> !Contains(path, rest[j]);
      assert priorities[k + 1] == rest[k];
      assert forall j :: 0 <= j < k + 1 ==> !Contains(path, priorities[j]) by {
        forall j | 0 <= j < k + 1 ensures !Contains(path, priorities[j]) {
          if j > 0 { assert priorities[j] == rest[j - 1]; }
        }
      }
    }
  }

  /** The test `Filter` applies to pick the paths classified as `token`. */
  function ClassifiedAs(priorities: seq<string>, token: string): string -> bool
  {
    path => Classify(priorities, path) == Some(token)
  }

  /** The test `Filter` applies to pick the paths no token matches. */
  function Unclassified(priorities: seq<string>): string -> bool
  {
    path => Classify(priorities, path).None?
  }

  /** `functools.reduce(step, paths, d)` where a step may raise: the first
      raised error ends the fold. */
  function Reduce(step: (Buckets, string) -> Result<Buckets>, d: Buckets, paths: seq<string>): Result<Buckets>
    decreases |paths|
  {
    if |paths| == 0 then Success(d)
    else
      match step(d, paths[0])
      case Failure(e) => Failure(e)
      case Success(d') => Reduce(step, d', paths[1..])
  }

  /** A step that, on any dictionary with the keys of `d` and any of the
      paths, keeps the keys and appends the path to bucket `k` exactly when
      `test` holds, folds to bucket `k` holding the paths that pass `test`,
      in input order. */
  lemma {:induction false} ReduceAppendsMatching(step: (Buckets, string) -> Result<Buckets>, test: string -> bool,
                                                 d: Buckets, k: string, paths: seq<string>)
    requires k in d
    requires forall d0: Buckets, p {:trigger step(d0, p)} :: d0.Keys == d.Keys && p in paths ==>
               step(d0, p).Success? && step(d0, p).value.Keys == d0.Keys &&
               step(d0, p).value[k] == d0[k] + if test(p) then [p] else []
    ensures Reduce(step, d, paths).Success? && Reduce(step, d, paths).value.Keys == d.Keys
    ensures Reduce(step, d, paths).value[k] == d[k] + Filter(test, paths)
    decreases |paths|
  {
    if |paths| != 0 {
      ReduceAppendsMatching(step, test, step(d, paths[0]).value, k, paths[1..]);
    }
  }

  /** Each path lands in at most one bucket: the paths of every token plus the
      unclassified ones are, together, exactly the input. */
  lemma {:induction false} ClassifyPartitions(priorities: seq<string>, paths: seq<string>)
    requires forall i, j :: 0 <= i < j < |priorities| ==> priorities[i] != priorities[j]
    ensures multiset(paths) ==
      SumOfBuckets(priorities, priorities, paths) + multiset(Filter(Unclassified(priorities), paths))
  {
    forall x
      ensures multiset(paths)[x] ==
        (SumOfBuckets(priorities, priorities, paths) + multiset(Filter(Unclassified(priorities), paths)))[x]
    {
      FilterCount(Unclassified(priorities), paths, x);
      SumOfBucketsCount(priorities, priorities, paths, x);
    }
  }

  /** The multiset union of the buckets of `tokens`, each computed with `priorities`. */
  ghost function SumOfBuckets(priorities: seq<string>, tokens: seq<string>, paths: seq<string>): multiset<string>
  {
    if |tokens| == 0 then multiset{}
    else multiset(Filter(ClassifiedAs(priorities, tokens[0]), paths)) + SumOfBuckets(priorities, tokens[1..], paths)
  }

  lemma {:induction false} SumOfBucketsCount(priorities: seq<string>, tokens: seq<string>, paths: seq<string>, x: string)
    requires forall i, j :: 0 <= i < j < |tokens| ==> tokens[i] != tokens[j]
    ensures SumOfBuckets(priorities, tokens, paths)[x] ==
      if Classify(priorities, x).Some? && Classify(priorities, x).value in tokens then multiset(paths)[x] else 0
  {
    if |tokens| != 0 {
      FilterCount(ClassifiedAs(priorities, tokens[0]), paths, x);
      SumOfBucketsCount(priorities, tokens[1..], paths, x);
    }
  }
}
