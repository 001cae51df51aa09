/** Path strings as the namespace reads them: strings.Split on '/',
    strings.TrimRight of '/', strings.LastIndex of '/', and the non-empty
    labels a lookup walks. */
module Paths {

  /** strings.Split(s, "/"): the pieces between slashes, at least one. */
  function Split(s: string): (r: seq<string>)
    ensures |r| >= 1
    ensures forall i :: 0 <= i < |r| ==> '/' !in r[i]
    decreases |s|
  {
    if |s| == 0 then [""]
    else if s[0] == '/' then [""] + Split(s[1..])
    else
      var rest := Split(s[1..]);
      [[s[0]] + rest[0]] + rest[1..]
  }

  /** strings.Join(parts, "/"), the inverse of Split. */
  function Join(parts: seq<string>): string
    decreases |parts|
  {
    if |parts| <= 1 then (if parts == [] then "" else parts[0])
    else parts[0] + "/" + Join(parts[1..])
  }

  /** Joining the pieces of a split gives back the string. */
  lemma {:induction false} JoinSplit(s: string)
    ensures Join(Split(s)) == s
    decreases |s|
  {
    if |s| > 0 {
      JoinSplit(s[1..]);
      var rest := Split(s[1..]);
      if s[0] == '/' {
        assert Split(s) == [""] + rest;
        assert s == "" + "/" + s[1..];
      } else {
        assert Split(s) == [[s[0]] + rest[0]] + rest[1..];
        if |rest| == 1 {
          assert Join(Split(s)) == [s[0]] + rest[0];
        } else {
          assert Join(Split(s)) == [s[0]] + rest[0] + "/" + Join(rest[1..]);
          assert Join(rest) == rest[0] + "/" + Join(rest[1..]);
        }
      }
    }
  }

  /** Split of a string that starts with a character other than '/'. */
  lemma SplitCons(c: char, t: string)
    requires c != '/'
    ensures Split([c] + t) == PrefixFirst(c, Split(t))
  {
    assert ([c] + t)[0] == c && ([c] + t)[1..] == t;
  }

  /** Split of a string that starts with '/'. */
  lemma SplitSlash(t: string)
    ensures Split("/" + t) == [""] + Split(t)
  {
    assert ("/" + t)[0] == '/' && ("/" + t)[1..] == t;
  }

  /** A piece list with a character prefixed to its first piece. */
  function PrefixFirst(c: char, parts: seq<string>): seq<string>
    requires |parts| >= 1
  {
    [[c] + parts[0]] + parts[1..]
  }

  /** Prefixing to the first piece commutes with appending pieces. */
  lemma PrefixFirstAppend(c: char, p: seq<string>, q: seq<string>)
    requires |p| >= 1
    ensures PrefixFirst(c, p + q) == PrefixFirst(c, p) + q
  {
    assert (p + q)[0] == p[0] && (p + q)[1..] == p[1..] + q;
  }

  /** One step of SplitAtSlash: prefixing a character to the left side. */
  lemma SplitAtSlashCons(c: char, t: string, b: string)
    requires Split(t + "/" + b) == Split(t) + Split(b)
    ensures Split([c] + t + "/" + b) == Split([c] + t) + Split(b)
  {
    var u := t + "/" + b;
    assert [c] + t + "/" + b == [c] + u;
    if c == '/' {
      SplitSlash(u);
      SplitSlash(t);
      assert [""] + (Split(t) + Split(b)) == ([""] + Split(t)) + Split(b);
    } else {
      SplitCons(c, u);
      SplitCons(c, t);
      PrefixFirstAppend(c, Split(t), Split(b));
    }
  }

  /** Splitting at a slash splits each side. */
  lemma {:induction false} SplitAtSlash(a: string, b: string)
    ensures Split(a + "/" + b) == Split(a) + Split(b)
    decreases |a|
  {
    if |a| == 0 {
      assert a + "/" + b == "/" + b;
      SplitSlash(b);
    } else {
      SplitAtSlash(a[1..], b);
      SplitAtSlashCons(a[0], a[1..], b);
      assert a == [a[0]] + a[1..];
    }
  }

  /** The non-empty pieces, in order. */
  function NonEmpty(parts: seq<string>): (r: seq<string>)
    ensures forall i :: 0 <= i < |r| ==> r[i] != ""
    decreases |parts|
  {
    if parts == [] then []
    else if parts[0] == "" then NonEmpty(parts[1..])
    else [parts[0]] + NonEmpty(parts[1..])
  }

  lemma {:induction false} NonEmptyAppend(p: seq<string>, q: seq<string>)
    ensures NonEmpty(p + q) == NonEmpty(p) + NonEmpty(q)
    decreases |p|
  {
    if p == [] {
      assert p + q == q;
    } else {
      assert (p + q)[0] == p[0] && (p + q)[1..] == p[1..] + q;
      NonEmptyAppend(p[1..], q);
    }
  }

  /** The labels of a path: its non-empty pieces. */
  function Labels(s: string): seq<string>
  {
    NonEmpty(Split(s))
  }

  /** Labels of two strings joined by a slash. */
  lemma LabelsAtSlash(a: string, b: string)
    ensures Labels(a + "/" + b) == Labels(a) + Labels(b)
  {
    SplitAtSlash(a, b);
    NonEmptyAppend(Split(a), Split(b));
  }

  /** "/" has no labels, and a leading, trailing or doubled slash changes
      no label. */
  lemma SlashesDoNotMatter(a: string, b: string)
    ensures Labels("/") == []
    ensures Labels("/" + a) == Labels(a)
    ensures Labels(a + "/") == Labels(a)
    ensures Labels(a + "//" + b) == Labels(a + "/" + b)
  {
    LabelsAtSlash("", "");
    assert "" + "/" + "" == "/";
    LabelsAtSlash("", a);
    assert "" + "/" + a == "/" + a;
    LabelsAtSlash(a, "");
    assert a + "/" + "" == a + "/";
    LabelsAtSlash(a + "/", b);
    assert a + "/" + "/" + b == a + "//" + b;
    LabelsAtSlash(a, b);
  }

  /** strings.TrimRight(s, "/"): drops every trailing slash. */
  function TrimRight(s: string): (r: string)
    ensures |r| <= |s| && r == s[..|r|]
    ensures r == "" || r[|r| - 1] != '/'
    ensures forall i :: |r| <= i < |s| ==> s[i] == '/'
    decreases |s|
  {
    if |s| > 0 && s[|s| - 1] == '/' then TrimRight(s[..|s| - 1]) else s
  }

  /** Trailing slashes do not change the labels. */
  lemma {:induction false} TrimRightKeepsLabels(s: string)
    ensures Labels(TrimRight(s)) == Labels(s)
    decreases |s|
  {
    if |s| > 0 && s[|s| - 1] == '/' {
      var t := s[..|s| - 1];
      TrimRightKeepsLabels(t);
      SlashesDoNotMatter(t, "");
      assert t + "/" == s;
    }
  }

  /** strings.LastIndex(s, "/"): the last slash, or -1. */
  function LastSlash(s: string): (i: int)
    ensures -1 <= i < |s|
    ensures i >= 0 ==> s[i] == '/'
    ensures forall j :: i < j < |s| ==> s[j] != '/'
    ensures i < 0 ==> '/' !in s
    decreases |s|
  {
    if |s| == 0 then -1
    else if s[|s| - 1] == '/' then |s| - 1
    else LastSlash(s[..|s| - 1])
  }
}
