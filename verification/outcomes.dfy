/** What one fetch-and-filter worker reports for one file link. The source
    returns a pair `(path, error_link)`: `(path, None)` for an accepted file,
    `(None, None)` for a rejected one and `(None, link)` when anything raised.
    `Outcome` names the three cases; `PathPart` and `ErrorPart` give back the
    two halves of the pair, which is what `zip(*results)` separates. */
module Outcomes {
  import opened Common
  import opened Seqs

  datatype Outcome = Accepted(path: string) | Rejected | Failed(link: string)

  /** The first half of the source's pair. */
  function PathPart(o: Outcome): (r: Option<string>)
    ensures r.Some? <==> o.Accepted?
  {
    if o.Accepted? then Some(o.path) else None
  }

  /** The second half of the source's pair. */
  function ErrorPart(o: Outcome): (r: Option<string>)
    ensures r.Some? <==> o.Failed?
  {
    if o.Failed? then Some(o.link) else None
  }

  /** The pair encoding loses nothing: no outcome has both halves set, and
      the two halves determine the outcome. */
  lemma PairDeterminesOutcome(a: Outcome, b: Outcome)
    ensures PathPart(a).None? || ErrorPart(a).None?
    ensures PathPart(a) == PathPart(b) && ErrorPart(a) == ErrorPart(b) ==> a == b
  {
  }

  function CountAccepted(rs: seq<Outcome>): nat
  {
    if |rs| == 0 then 0 else (if rs[0].Accepted? then 1 else 0) + CountAccepted(rs[1..])
  }

  function CountRejected(rs: seq<Outcome>): nat
  {
    if |rs| == 0 then 0 else (if rs[0].Rejected? then 1 else 0) + CountRejected(rs[1..])
  }

  function CountFailed(rs: seq<Outcome>): nat
  {
    if |rs| == 0 then 0 else (if rs[0].Failed? then 1 else 0) + CountFailed(rs[1..])
  }

  /** Every outcome falls in exactly one of the three cases. */
  lemma {:induction false} CountsPartition(rs: seq<Outcome>)
    ensures CountAccepted(rs) + CountRejected(rs) + CountFailed(rs) == |rs|
  {
    if |rs| != 0 {
      CountsPartition(rs[1..]);
    }
  }

  /** `[l for l in file_paths if l is not None]`, where `file_paths` is the
      first column of `zip(*rs)`. */
  function AcceptedPaths(rs: seq<Outcome>): (r: seq<string>)
    ensures forall i :: 0 <= i < |r| ==> Accepted(r[i]) in rs
  {
    var r := Somes(Map(PathPart, rs));
    assert forall i :: 0 <= i < |r| ==> Accepted(r[i]) in rs by {
      forall i | 0 <= i < |r| ensures Accepted(r[i]) in rs {
        var j :| 0 <= j < |rs| && Map(PathPart, rs)[j] == Some(r[i]);
      }
    }
    r
  }

  /** `[l for l in error_links if l is not None]`, where `error_links` is the
      second column of `zip(*rs)`. */
  function ErrorLinks(rs: seq<Outcome>): (r: seq<string>)
    ensures forall i :: 0 <= i < |r| ==> Failed(r[i]) in rs
  {
    var r := Somes(Map(ErrorPart, rs));
    assert forall i :: 0 <= i < |r| ==> Failed(r[i]) in rs by {
      forall i | 0 <= i < |r| ensures Failed(r[i]) in rs {
        var j :| 0 <= j < |rs| && Map(ErrorPart, rs)[j] == Some(r[i]);
      }
    }
    r
  }

  /** A path is among the accepted ones exactly when some outcome accepted it. */
  lemma AcceptedMember(rs: seq<Outcome>, p: string)
    ensures p in AcceptedPaths(rs) <==> Accepted(p) in rs
  {
    SomesMember(Map(PathPart, rs), p);
    if Accepted(p) in rs {
      MapMember(PathPart, rs, Accepted(p));
    }
    if Some(p) in Map(PathPart, rs) {
      var j :| 0 <= j < |rs| && Map(PathPart, rs)[j] == Some(p);
    }
  }

  /** A link is among the error links exactly when some outcome failed on it. */
  lemma FailedMember(rs: seq<Outcome>, l: string)
    ensures l in ErrorLinks(rs) <==> Failed(l) in rs
  {
    SomesMember(Map(ErrorPart, rs), l);
    if Failed(l) in rs {
      MapMember(ErrorPart, rs, Failed(l));
    }
    if Some(l) in Map(ErrorPart, rs) {
      var j :| 0 <= j < |rs| && Map(ErrorPart, rs)[j] == Some(l);
    }
  }

  /** One accepted path per accepted outcome and one error link per failed
      one; rejected outcomes leave no trace in either list. */
  lemma {:induction false} SplitCounts(rs: seq<Outcome>)
    ensures |AcceptedPaths(rs)| == CountAccepted(rs)
    ensures |ErrorLinks(rs)| == CountFailed(rs)
    ensures |AcceptedPaths(rs)| + |ErrorLinks(rs)| == |rs| - CountRejected(rs)
  {
    if |rs| != 0 {
      SplitCounts(rs[1..]);
      assert Map(PathPart, rs) == [PathPart(rs[0])] + Map(PathPart, rs[1..]);
      assert Map(ErrorPart, rs) == [ErrorPart(rs[0])] + Map(ErrorPart, rs[1..]);
      SomesAppend([PathPart(rs[0])], Map(PathPart, rs[1..]));
      SomesAppend([ErrorPart(rs[0])], Map(ErrorPart, rs[1..]));
    }
    CountsPartition(rs);
  }

  /** The path halves hold `Some(p)` once per outcome that accepted `p`. */
  lemma PathPartCount(rs: seq<Outcome>, p: string)
    ensures multiset(Map(PathPart, rs))[Some(p)] == multiset(rs)[Accepted(p)]
  {
    MapCountPreimage(PathPart, rs, Accepted(p), Some(p));
  }

  /** The error halves hold `Some(l)` once per outcome that failed on `l`. */
  lemma ErrorPartCount(rs: seq<Outcome>, l: string)
    ensures multiset(Map(ErrorPart, rs))[Some(l)] == multiset(rs)[Failed(l)]
  {
    MapCountPreimage(ErrorPart, rs, Failed(l), Some(l));
  }

  /** Each accepted outcome contributes its path once: a path is kept as
      many times as outcomes accepted it. */
  lemma AcceptedCount(rs: seq<Outcome>, p: string)
    ensures multiset(AcceptedPaths(rs))[p] == multiset(rs)[Accepted(p)]
  {
    SomesCount(Map(PathPart, rs), p);
    PathPartCount(rs, p);
  }

  /** Each failed outcome contributes its link once: a link is reported as
      many times as outcomes failed on it. */
  lemma FailedCount(rs: seq<Outcome>, l: string)
    ensures multiset(ErrorLinks(rs))[l] == multiset(rs)[Failed(l)]
  {
    SomesCount(Map(ErrorPart, rs), l);
    ErrorPartCount(rs, l);
  }

  /** Reordering the workers' outcomes reorders both lists and changes nothing else. */
  lemma SplitPermutation(rs: seq<Outcome>, qs: seq<Outcome>)
    requires multiset(rs) == multiset(qs)
    ensures multiset(AcceptedPaths(rs)) == multiset(AcceptedPaths(qs))
    ensures multiset(ErrorLinks(rs)) == multiset(ErrorLinks(qs))
  {
    MapPermutation(PathPart, rs, qs);
    SomesPermutation(Map(PathPart, rs), Map(PathPart, qs));
    MapPermutation(ErrorPart, rs, qs);
    SomesPermutation(Map(ErrorPart, rs), Map(ErrorPart, qs));
  }

  /** An accepted path of a mapped list comes from an input the worker accepted. */
  lemma AcceptedProvenance<T>(f: T -> Outcome, xs: seq<T>, p: string)
    requires p in AcceptedPaths(Map(f, xs))
    ensures exists j :: 0 <= j < |xs| && f(xs[j]) == Accepted(p)
  {
    AcceptedMember(Map(f, xs), p);
    MapProvenance(f, xs, Accepted(p));
  }

  /** An error link of a mapped list comes from an input the worker failed on. */
  lemma FailedProvenance<T>(f: T -> Outcome, xs: seq<T>, l: string)
    requires l in ErrorLinks(Map(f, xs))
    ensures exists j :: 0 <= j < |xs| && f(xs[j]) == Failed(l)
  {
    FailedMember(Map(f, xs), l);
    MapProvenance(f, xs, Failed(l));
  }
}
