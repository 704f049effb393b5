/** The string operations the crawler relies on: Python's `in` on two
    strings, the slice `s[0:-1]` and POSIX `os.path.basename`. */
module Strings {

  /** `needle` occurs in `hay` starting at index `i`. */
  ghost predicate OccursAt(hay: string, needle: string, i: int)
  {
    0 <= i && i + |needle| <= |hay| && hay[i..i + |needle|] == needle
  }

  /** Python's `needle in hay` on two strings: a case-sensitive substring test. */
  predicate Contains(hay: string, needle: string)
    decreases |hay|
  {
    needle <= hay || (0 < |hay| && Contains(hay[1..], needle))
  }

  /** `Contains` finds exactly the occurrences `OccursAt` describes. */
  lemma {:induction false} ContainsOccurs(hay: string, needle: string)
    ensures Contains(hay, needle) <==> exists i :: OccursAt(hay, needle, i)
    decreases |hay|
  {
    if needle <= hay {
      assert hay[0..|needle|] == needle;
      assert OccursAt(hay, needle, 0);
    } else if |hay| == 0 {
      assert 0 < |needle|;
      assert forall i :: !OccursAt(hay, needle, i);
    } else {
      ContainsOccurs(hay[1..], needle);
      if i :| OccursAt(hay, needle, i) {
        assert i != 0;
        assert hay[1..][i - 1..i - 1 + |needle|] == hay[i..i + |needle|];
        assert OccursAt(hay[1..], needle, i - 1);
      }
      if i :| OccursAt(hay[1..], needle, i) {
        assert hay[i + 1..i + 1 + |needle|] == hay[1..][i..i + |needle|];
        assert OccursAt(hay, needle, i + 1);
      }
    }
  }

  /** Python's `any([t in hay for t in tokens])`: some token is a substring of `hay`. */
  predicate ContainsAny(hay: string, tokens: seq<string>)
    ensures ContainsAny(hay, tokens) <==> exists k :: 0 <= k < |tokens| && Contains(hay, tokens[k])
  {
    0 < |tokens| && (Contains(hay, tokens[0]) || ContainsAny(hay, tokens[1..]))
  }

  /** Python's slice `s[0:-1]`: `s` without its last character, and "" for "". */
  function DropLast(s: string): (r: string)
    ensures r <= s
    ensures |r| == if |s| == 0 then 0 else |s| - 1
  {
    if |s| == 0 then "" else s[..|s| - 1]
  }

  /** POSIX `os.path.basename`: the text after the last '/', or all of `p` when it has none. */
  function Basename(p: string): (r: string)
    ensures '/' !in r
    ensures |r| <= |p| && p[|p| - |r|..] == r
    ensures |r| < |p| ==> p[|p| - |r| - 1] == '/'
    decreases |p|
  {
    if |p| == 0 || p[|p| - 1] == '/' then "" else Basename(p[..|p| - 1]) + [p[|p| - 1]]
  }

  /** Appending a character other than '/' extends the base name by it. */
  lemma BasenameSnoc(p: string, c: char)
    requires c != '/'
    ensures Basename(p + [c]) == Basename(p) + [c]
  {
    assert (p + [c])[..|p|] == p;
  }

  /** A slash-free tail survives `basename` whole: the base name of `dir + name`
      is the base name of `dir` followed by `name`. */
  lemma {:induction false} BasenameAppend(dir: string, name: string)
    requires '/' !in name
    ensures Basename(dir + name) == Basename(dir) + name
    decreases |name|
  {
    if |name| == 0 {
      assert dir + name == dir;
    } else {
      var init, c := name[..|name| - 1], name[|name| - 1];
      assert name == init + [c];
      assert dir + name == (dir + init) + [c];
      BasenameAppend(dir, init);
      BasenameSnoc(dir + init, c);
    }
  }

  /** Appending a slash-free name to a directory that is empty or ends in '/'
      gives a path whose base name is that name. */
  lemma BasenameOfJoin(dir: string, name: string)
    requires '/' !in name
    requires |dir| == 0 || dir[|dir| - 1] == '/'
    ensures Basename(dir + name) == name
  {
    BasenameAppend(dir, name);
  }

  /** `base + '/' + name`, as a function of `name`. */
  function JoinUnder(base: string): string -> string
  {
    name => base + "/" + name
  }

  /** `prefix + s`, as a function of `s`. */
  function PrefixWith(prefix: string): string -> string
  {
    s => prefix + s
  }
}
