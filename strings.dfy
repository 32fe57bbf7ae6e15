/** The few Python `str` operations the core uses, on `seq<char>`. */
module Strings {

  /** ASCII whitespace as Python's `str.strip()` sees it (space, \t, \n, \x0b, \x0c, \r, \x1c-\x1f). */
  const Whitespace: set<char> :=
    {' ', '\t', '\n', '\r', '\U{0B}', '\U{0C}', '\U{1C}', '\U{1D}', '\U{1E}', '\U{1F}'}

  predicate EndsWith(s: string, suffix: string) {
    |suffix| <= |s| && s[|s| - |suffix|..] == suffix
  }

  lemma EndsWithAppend(a: string, b: string, suffix: string)
    requires EndsWith(b, suffix)
    ensures EndsWith(a + b, suffix)
  {
    assert (a + b)[|a + b| - |suffix|..] == b[|b| - |suffix|..];
  }

  /** `s.rstrip(chars)`: the longest prefix of `s` that does not end in one of `cs`. */
  function TrimRight(s: string, cs: set<char>): (r: string)
    ensures r <= s
    ensures r == [] || r[|r| - 1] !in cs
    ensures forall i :: |r| <= i < |s| ==> s[i] in cs
    decreases |s|
  {
    if s != [] && s[|s| - 1] in cs then TrimRight(s[..|s| - 1], cs) else s
  }

  /** `s.lstrip(chars)`: the longest suffix of `s` that does not start with one of `cs`. */
  function TrimLeft(s: string, cs: set<char>): (r: string)
    ensures |r| <= |s| && r == s[|s| - |r|..]
    ensures r == [] || r[0] !in cs
    ensures forall i :: 0 <= i < |s| - |r| ==> s[i] in cs
    decreases |s|
  {
    if s != [] && s[0] in cs then TrimLeft(s[1..], cs) else s
  }

  /** `s.strip(chars)`: the infix of `s` left after cutting characters of `cs` from both ends. */
  function Strip(s: string, cs: set<char>): (r: string)
    ensures r == [] || (r[0] !in cs && r[|r| - 1] !in cs)
    ensures |r| <= |s|
    ensures (forall i :: 0 <= i < |s| ==> s[i] in cs) ==> r == []
  {
    TrimRight(TrimLeft(s, cs), cs)
  }

  /** One leading character of `cs` is cut and trimming goes on. */
  lemma TrimLeftSkip(c: char, s: string, cs: set<char>)
    requires c in cs
    ensures TrimLeft([c] + s, cs) == TrimLeft(s, cs)
  {
    assert ([c] + s)[1..] == s;
  }

  /** A string whose first character is not in `cs` is its own left trim. */
  lemma TrimLeftStop(s: string, cs: set<char>)
    requires s != [] && s[0] !in cs
    ensures TrimLeft(s, cs) == s
  {
  }

  /** One trailing character of `cs` is cut and trimming goes on. */
  lemma TrimRightSkip(s: string, c: char, cs: set<char>)
    requires c in cs
    ensures TrimRight(s + [c], cs) == TrimRight(s, cs)
  {
    assert (s + [c])[..|s|] == s;
  }

  /** A string whose last character is not in `cs` is its own right trim. */
  lemma TrimRightStop(s: string, cs: set<char>)
    requires s != [] && s[|s| - 1] !in cs
    ensures TrimRight(s, cs) == s
  {
  }

  /** A prefix made only of characters of `cs` is trimmed away entirely. */
  lemma {:induction false} TrimLeftPrefix(pre: string, s: string, cs: set<char>)
    requires forall i :: 0 <= i < |pre| ==> pre[i] in cs
    ensures TrimLeft(pre + s, cs) == TrimLeft(s, cs)
    decreases |pre|
  {
    if pre == [] {
      assert pre + s == s;
    } else {
      assert pre + s == [pre[0]] + (pre[1..] + s);
      TrimLeftSkip(pre[0], pre[1..] + s, cs);
      TrimLeftPrefix(pre[1..], s, cs);
    }
  }

  /** A suffix made only of characters of `cs` is trimmed away entirely. */
  lemma {:induction false} TrimRightSuffix(s: string, post: string, cs: set<char>)
    requires forall i :: 0 <= i < |post| ==> post[i] in cs
    ensures TrimRight(s + post, cs) == TrimRight(s, cs)
    decreases |post|
  {
    if post == [] {
      assert s + post == s;
    } else {
      var init := post[..|post| - 1];
      assert s + post == (s + init) + [post[|post| - 1]];
      TrimRightSkip(s + init, post[|post| - 1], cs);
      TrimRightSuffix(s, init, cs);
    }
  }

  /** Strip cuts exactly the framing made of `cs`, down to an infix whose ends are not in `cs`. */
  lemma StripFrame(pre: string, mid: string, post: string, cs: set<char>)
    requires forall i :: 0 <= i < |pre| ==> pre[i] in cs
    requires forall i :: 0 <= i < |post| ==> post[i] in cs
    requires mid != [] && mid[0] !in cs && mid[|mid| - 1] !in cs
    ensures Strip(pre + mid + post, cs) == mid
  {
    assert pre + mid + post == pre + (mid + post);
    TrimLeftPrefix(pre, mid + post, cs);
    TrimLeftStop(mid + post, cs);
    TrimRightSuffix(mid, post, cs);
    TrimRightStop(mid, cs);
  }

  /** `s.replace(c, "")`: every occurrence of `c` removed (the rest: RemoveCharKeepsOthers). */
  function RemoveChar(s: string, c: char): (r: string)
    ensures c !in r
    decreases |s|
  {
    if s == [] then []
    else (if s[0] == c then [] else [s[0]]) + RemoveChar(s[1..], c)
  }

  /** Everything but `c` is kept, with its multiplicity. */
  lemma {:induction false} RemoveCharKeepsOthers(s: string, c: char)
    ensures multiset(RemoveChar(s, c)) == multiset(s)[c := 0]
    decreases |s|
  {
    if s != [] {
      assert s == [s[0]] + s[1..];
      RemoveCharKeepsOthers(s[1..], c);
    }
  }

  /** Removing a character that does not occur leaves the string as it is. */
  lemma {:induction false} RemoveCharAbsent(s: string, c: char)
    requires c !in s
    ensures RemoveChar(s, c) == s
    decreases |s|
  {
    if s != [] {
      assert s == [s[0]] + s[1..];
      RemoveCharAbsent(s[1..], c);
    }
  }

  /** One step of the removal, on a string split as its first character and the rest. */
  lemma RemoveCharCons(h: char, t: string, c: char)
    ensures RemoveChar([h] + t, c) == (if h == c then [] else [h]) + RemoveChar(t, c)
  {
    assert ([h] + t)[0] == h && ([h] + t)[1..] == t;
  }

  /** Removal works piecewise over a concatenation. */
  lemma {:induction false} RemoveCharAppend(x: string, y: string, c: char)
    ensures RemoveChar(x + y, c) == RemoveChar(x, c) + RemoveChar(y, c)
    decreases |x|
  {
    if x == [] {
      assert x + y == y;
    } else {
      var t := x[1..];
      assert x == [x[0]] + t && x + y == [x[0]] + (t + y);
      RemoveCharCons(x[0], t + y, c);
      RemoveCharCons(x[0], t, c);
      RemoveCharAppend(t, y, c);
      var h := if x[0] == c then [] else [x[0]];
      assert h + (RemoveChar(t, c) + RemoveChar(y, c)) == (h + RemoveChar(t, c)) + RemoveChar(y, c);
    }
  }

  /** `sep.join(parts)`. */
  function Join(parts: seq<string>, sep: string): string
    decreases |parts|
  {
    if parts == [] then ""
    else if |parts| == 1 then parts[0]
    else Join(parts[..|parts| - 1], sep) + sep + parts[|parts| - 1]
  }
}
