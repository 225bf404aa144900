/**
 * String operations the model shares: substring search (Rust's
 * `str::contains`, Python's `in` and `find`), Python's `str.split` with a
 * separator, the `split('\n', 1)` of one line, and Python's `str.strip()`.
 */
module Text {
  import opened Wrappers

  /** `pat` occurs in `s` starting at index `i`. */
  predicate OccursAt(s: string, pat: string, i: nat)
  {
    i + |pat| <= |s| && s[i..i + |pat|] == pat
  }

  /** The first index at or after `from` where `pat` occurs in `s`. */
  function FindFrom(s: string, pat: string, from: nat): (r: Option<nat>)
    decreases |s| - from
    ensures r.Some? ==> from <= r.value && OccursAt(s, pat, r.value)
    ensures r.Some? ==> forall k :: from <= k < r.value ==> !OccursAt(s, pat, k)
    ensures r.None? ==> forall k :: from <= k ==> !OccursAt(s, pat, k)
  {
    if from + |pat| > |s| then None
    else if s[from..from + |pat|] == pat then Some(from)
    else FindFrom(s, pat, from + 1)
  }

  /** Substring containment, as Rust's `str::contains` and Python's `in` on strings decide it. */
  predicate Contains(s: string, pat: string)
  {
    FindFrom(s, pat, 0).Some?
  }

  lemma ContainsIff(s: string, pat: string)
    ensures Contains(s, pat) <==> exists i :: OccursAt(s, pat, i)
  {
  }

  /** Python's `s.split(sep)` for a non-empty separator: cut at each leftmost occurrence. */
  function Split(s: string, sep: string): (parts: seq<string>)
    requires sep != []
    decreases |s|
    ensures |parts| >= 1
  {
    match FindFrom(s, sep, 0)
    case None => [s]
    case Some(i) => [s[..i]] + Split(s[i + |sep|..], sep)
  }

  /** Python's `sep.join(parts)`. */
  function Join(parts: seq<string>, sep: string): string
  {
    if parts == [] then []
    else if |parts| == 1 then parts[0]
    else parts[0] + sep + Join(parts[1..], sep)
  }

  /** Splitting loses nothing: joining the pieces with the separator gives back the text. */
  lemma {:induction false} SplitJoin(s: string, sep: string)
    requires sep != []
    ensures Join(Split(s, sep), sep) == s
    decreases |s|
  {
    var f := FindFrom(s, sep, 0);
    if f.Some? {
      var i := f.value;
      var rest := s[i + |sep|..];
      var tail := Split(rest, sep);
      var head := s[..i];
      assert Split(s, sep) == [head] + tail;
      SplitJoin(rest, sep);
      JoinCons(head, tail, sep);
      assert Join(Split(s, sep), sep) == head + sep + rest;
    }
  }

  lemma JoinCons(head: string, tail: seq<string>, sep: string)
    requires tail != []
    ensures Join([head] + tail, sep) == head + sep + Join(tail, sep)
  {
    assert ([head] + tail)[1..] == tail;
  }

  /** No piece of a split contains the separator. */
  lemma {:induction false} SplitPiecesFree(s: string, sep: string)
    requires sep != []
    decreases |s|
    ensures forall j :: 0 <= j < |Split(s, sep)| ==> !Contains(Split(s, sep)[j], sep)
  {
    match FindFrom(s, sep, 0)
    case None =>
    case Some(i) =>
      var rest := s[i + |sep|..];
      SplitPiecesFree(rest, sep);
      var head := s[..i];
      forall k: nat | OccursAt(head, sep, k)
        ensures false
      {
        assert head[k..k + |sep|] == s[k..k + |sep|];
        assert OccursAt(s, sep, k);
      }
      assert !Contains(head, sep);
      assert Split(s, sep) == [head] + Split(rest, sep);
  }

  /** Python's `s.split('\n', 1)` as the script reads it: the first line, and the rest or "". */
  function SplitFirstLine(s: string): (string, string)
  {
    match FindFrom(s, "\n", 0)
    case None => (s, "")
    case Some(i) => (s[..i], s[i + 1..])
  }

  /** A line without '\n' followed by '\n' ends at that '\n'. */
  lemma FirstNewline(l: string, rest: string)
    requires '\n' !in l
    ensures FindFrom(l + "\n" + rest, "\n", 0) == Some(|l|)
    ensures SplitFirstLine(l + "\n" + rest) == (l, rest)
  {
    var t := l + "\n" + rest;
    assert t[|l|..|l| + 1] == "\n";
    assert OccursAt(t, "\n", |l|);
    forall k | 0 <= k < |l|
      ensures !OccursAt(t, "\n", k)
    {
      assert t[k..k + 1] == [l[k]];
    }
    assert t[..|l|] == l;
    assert t[|l| + 1..] == rest;
  }

  /** The characters for which Python's `str.isspace()` holds, which `str.strip()` removes. */
  predicate IsSpace(c: char)
  {
    || c == ' ' || '\t' <= c <= '\r' || '\U{1C}' <= c <= '\U{1F}'
    || c == '\U{85}' || c == '\U{A0}' || c == '\U{1680}' || '\U{2000}' <= c <= '\U{200A}'
    || c == '\U{2028}' || c == '\U{2029}' || c == '\U{202F}' || c == '\U{205F}' || c == '\U{3000}'
  }

  predicate AllSpace(s: string)
  {
    forall i :: 0 <= i < |s| ==> IsSpace(s[i])
  }

  function StripStart(s: string): (r: string)
    ensures |r| <= |s|
  {
    if s != [] && IsSpace(s[0]) then StripStart(s[1..]) else s
  }

  function StripEnd(s: string): (r: string)
    ensures |r| <= |s|
  {
    if s != [] && IsSpace(s[|s| - 1]) then StripEnd(s[..|s| - 1]) else s
  }

  /** Python's `s.strip()`. */
  function Strip(s: string): string
  {
    StripEnd(StripStart(s))
  }

  lemma {:induction false} StripStartSpec(s: string)
    ensures |StripStart(s)| <= |s|
    ensures StripStart(s) == s[|s| - |StripStart(s)|..]
    ensures AllSpace(s[..|s| - |StripStart(s)|])
    ensures StripStart(s) == [] || !IsSpace(StripStart(s)[0])
  {
    if s != [] && IsSpace(s[0]) {
      StripStartSpec(s[1..]);
      var n := |s| - |StripStart(s)|;
      assert s[1..][..n - 1] == s[1..n];
      assert s[1..][n - 1..] == s[n..];
    }
  }

  lemma {:induction false} StripEndSpec(s: string)
    ensures |StripEnd(s)| <= |s|
    ensures StripEnd(s) == s[..|StripEnd(s)|]
    ensures AllSpace(s[|StripEnd(s)|..])
    ensures StripEnd(s) == [] || !IsSpace(StripEnd(s)[|StripEnd(s)| - 1])
  {
    if s != [] && IsSpace(s[|s| - 1]) {
      var init := s[..|s| - 1];
      StripEndSpec(init);
      var n := |StripEnd(s)|;
      assert init[..n] == s[..n];
      assert s[n..] == init[n..] + [s[|s| - 1]];
    }
  }

  /**
   * `strip()` removes exactly the surrounding whitespace: the result is the
   * slice of `s` between a whitespace-only prefix and a whitespace-only
   * suffix, and it neither starts nor ends with whitespace.
   */
  lemma StripSpec(s: string)
    ensures var a := |s| - |StripStart(s)|;
            && a + |Strip(s)| <= |s|
            && Strip(s) == s[a..a + |Strip(s)|]
            && AllSpace(s[..a]) && AllSpace(s[a + |Strip(s)|..])
    ensures Strip(s) == [] || (!IsSpace(Strip(s)[0]) && !IsSpace(Strip(s)[|Strip(s)| - 1]))
  {
    var mid := StripStart(s);
    StripStartSpec(s);
    StripEndSpec(mid);
    var a := |s| - |mid|;
    var b := |Strip(s)|;
    assert mid[..b] == s[a..a + b];
    assert s[a + b..] == mid[b..];
  }
}
