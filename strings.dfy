/** The three standard-library string helpers the proxy relies on, with the
    behaviour Go gives them: strings.Split and strings.Join with a one-character
    separator, and path.Base for the last segment of a slash-separated path. */
module Strings {

  /** Number of occurrences of `c` in `s`. */
  function Count(s: string, c: char): nat {
    multiset(s)[c]
  }

  /** strings.Split(s, string(sep)): the pieces of `s` between separators.
      Like Go's, splitting the empty string gives one empty piece. */
  function Split(s: string, sep: char): (r: seq<string>)
    ensures |r| > 0
    ensures forall k :: 0 <= k < |r| ==> sep !in r[k]
    decreases |s|
  {
    if |s| == 0 then [""]
    else
      var rest := Split(s[1..], sep);
      if s[0] == sep then [""] + rest
      else [[s[0]] + rest[0]] + rest[1..]
  }

  /** Split of a string with a known first character, one step unfolded. */
  lemma SplitCons(c: char, x: string, sep: char)
    ensures Split([c] + x, sep) ==
            if c == sep then [""] + Split(x, sep)
            else [[c] + Split(x, sep)[0]] + Split(x, sep)[1..]
  {
    assert ([c] + x)[1..] == x;
  }

  /** There is one more piece than there are separators. */
  lemma {:induction false} SplitCount(s: string, sep: char)
    ensures |Split(s, sep)| == Count(s, sep) + 1
    decreases |s|
  {
    if |s| > 0 {
      assert s == [s[0]] + s[1..];
      SplitCount(s[1..], sep);
    }
  }

  /** strings.Join(parts, string(sep)): Join of no parts is the empty string,
      of one part that part, and otherwise the parts with `sep` between them,
      so the first part and a separator open the result. */
  function Join(parts: seq<string>, sep: char): (r: string)
    ensures |parts| == 0 ==> r == ""
    ensures |parts| == 1 ==> r == parts[0]
    ensures |parts| > 1 ==> parts[0] + [sep] <= r
    decreases |parts|
  {
    if |parts| == 0 then ""
    else if |parts| == 1 then parts[0]
    else parts[0] + [sep] + Join(parts[1..], sep)
  }

  /** Index of the first occurrence of `c` in `s`; |s| when there is none. */
  function IndexOf(s: string, c: char): (i: nat)
    ensures i <= |s|
    ensures c !in s[..i]
    ensures i < |s| <==> c in s
    ensures i < |s| ==> s[i] == c
  {
    if |s| == 0 then 0
    else if s[0] == c then 0
    else
      var i := IndexOf(s[1..], c);
      assert s[..i + 1] == [s[0]] + s[1..][..i];
      i + 1
  }

  /** Joining what Split produced gives back the string it was split from. */
  lemma {:induction false} JoinSplit(s: string, sep: char)
    ensures Join(Split(s, sep), sep) == s
    decreases |s|
  {
    if |s| > 0 {
      assert s == [s[0]] + s[1..];
      SplitCons(s[0], s[1..], sep);
      JoinSplit(s[1..], sep);
      if s[0] != sep {
        JoinHead(Split(s[1..], sep), sep, s[0]);
      }
    }
  }

  /** Prefixing the first part by a character prefixes the joined string. */
  lemma {:induction false} JoinHead(parts: seq<string>, sep: char, c: char)
    requires |parts| > 0
    ensures Join([[c] + parts[0]] + parts[1..], sep) == [c] + Join(parts, sep)
  {
    var ps := [[c] + parts[0]] + parts[1..];
    assert ps[1..] == parts[1..];
  }

  /** Splitting a join gives back the parts, provided there is at least one
      part and no part contains the separator. */
  lemma {:induction false} SplitJoin(parts: seq<string>, sep: char)
    requires |parts| > 0
    requires forall k :: 0 <= k < |parts| ==> sep !in parts[k]
    ensures Split(Join(parts, sep), sep) == parts
    decreases |parts|, |parts[0]|
  {
    if |parts[0]| > 0 {
      var c := parts[0][0];
      var tail := [parts[0][1..]] + parts[1..];
      assert parts[0] == [c] + parts[0][1..];
      assert [[c] + tail[0]] + tail[1..] == parts;
      assert sep !in tail[0] by {
        assert forall k :: 0 <= k < |tail[0]| ==> tail[0][k] == parts[0][k + 1];
      }
      JoinHead(tail, sep, c);
      SplitJoin(tail, sep);
      SplitCons(c, Join(tail, sep), sep);
    } else if |parts| > 1 {
      assert Join(parts, sep) == [sep] + Join(parts[1..], sep);
      SplitJoin(parts[1..], sep);
      SplitCons(sep, Join(parts[1..], sep), sep);
      assert parts == [""] + parts[1..];
    }
  }

  /** The first piece of a split is the text before the first separator, and
      joining the other pieces gives the text after it ("" without one). */
  lemma {:induction false} SplitAtFirst(s: string, sep: char)
    ensures Split(s, sep)[0] == s[..IndexOf(s, sep)]
    ensures Join(Split(s, sep)[1..], sep) ==
            if sep in s then s[IndexOf(s, sep) + 1..] else ""
    decreases |s|
  {
    if |s| > 0 {
      assert s == [s[0]] + s[1..];
      SplitCons(s[0], s[1..], sep);
      if s[0] != sep {
        SplitAtFirst(s[1..], sep);
      } else {
        JoinSplit(s[1..], sep);
      }
    }
  }

  /** `s` without its last character. */
  function DropLast(s: string): string
    requires |s| > 0
  {
    s[..|s| - 1]
  }

  /** `s` without its trailing slashes. */
  function TrimTrailingSlashes(s: string): (r: string)
    ensures r <= s
    ensures r == [] || r[|r| - 1] != '/'
    ensures forall k :: |r| <= k < |s| ==> s[k] == '/'
  {
    if |s| > 0 && s[|s| - 1] == '/' then TrimTrailingSlashes(DropLast(s)) else s
  }

  /** The text after the last slash of `s` (all of `s` if it has none). */
  function LastSegment(s: string): (r: string)
    ensures '/' !in r
    ensures |r| <= |s| && r == s[|s| - |r|..]
    ensures |r| == |s| || s[|s| - |r| - 1] == '/'
  {
    if |s| == 0 || s[|s| - 1] == '/' then ""
    else LastSegment(DropLast(s)) + [s[|s| - 1]]
  }

  /** path.Base: the last element of a slash-separated path once trailing
      slashes are removed; "." for the empty path and "/" for a path made only
      of slashes. */
  function Base(p: string): (r: string)
    ensures r != ""
    ensures r == "/" || '/' !in r
  {
    if p == "" then "."
    else
      var t := TrimTrailingSlashes(p);
      if t == "" then "/" else LastSegment(t)
  }

  /** Trailing slashes appended to a string that does not end in one are
      exactly what TrimTrailingSlashes removes. */
  lemma {:induction false} TrimAppendedSlashes(s: string, slashes: nat)
    requires s == [] || s[|s| - 1] != '/'
    ensures TrimTrailingSlashes(s + seq(slashes, _ => '/')) == s
  {
    if slashes > 0 {
      var p := s + seq(slashes, _ => '/');
      assert DropLast(p) == s + seq(slashes - 1, _ => '/');
      TrimAppendedSlashes(s, slashes - 1);
    }
  }

  /** The last segment of "<dir>/<name>" is <name> when <name> has no slash. */
  lemma {:induction false} LastSegmentAfterSlash(dir: string, name: string)
    requires '/' !in name
    ensures LastSegment(dir + "/" + name) == name
    decreases |name|
  {
    if |name| > 0 {
      var p := dir + "/" + name;
      assert DropLast(p) == dir + "/" + DropLast(name);
      assert '/' !in DropLast(name) by {
        assert forall k :: 0 <= k < |name| - 1 ==> DropLast(name)[k] == name[k];
      }
      LastSegmentAfterSlash(dir, DropLast(name));
      assert name == DropLast(name) + [name[|name| - 1]];
    }
  }

  /** The administrative surface's request path names the member it acts on:
      the base of "<dir>/<name>" is <name>, whatever trailing slashes follow. */
  lemma {:induction false} BaseOfMemberPath(dir: string, name: string, slashes: nat)
    requires name != "" && '/' !in name
    ensures Base(dir + "/" + name + seq(slashes, _ => '/')) == name
  {
    var q := dir + "/" + name;
    assert q[|q| - 1] == name[|name| - 1];
    TrimAppendedSlashes(q, slashes);
    LastSegmentAfterSlash(dir, name);
  }
}
