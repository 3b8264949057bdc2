/** The string operations on file names that the pipeline coordinator uses:
    POSIX `os.path.basename`, `os.path.dirname` and `os.path.join`, and
    Python's `str.split(".")` / `".".join(...)`. */
module Paths {

  /** `s.rfind(c)`: the last position of `c` in `s`, or -1. */
  function LastIndexOf(s: string, c: char): (i: int)
    ensures -1 <= i < |s|
    ensures i >= 0 ==> s[i] == c
    ensures forall j :: i < j < |s| ==> s[j] != c
  {
    if s == [] then -1
    else if s[|s| - 1] == c then |s| - 1
    else LastIndexOf(s[..|s| - 1], c)
  }

  /** `os.path.basename(p)`: everything after the last slash. */
  function Basename(p: string): (b: string)
    ensures '/' !in b
    ensures |b| <= |p| && b == p[|p| - |b|..]
    ensures |b| < |p| ==> p[|p| - |b| - 1] == '/'
  {
    p[LastIndexOf(p, '/') + 1..]
  }

  predicate AllSlashes(s: string) {
    forall i :: 0 <= i < |s| ==> s[i] == '/'
  }

  /** `s.rstrip("/")`. */
  function TrimTrailingSlashes(s: string): (r: string)
    ensures |r| <= |s| && r == s[..|r|]
    ensures r != [] ==> r[|r| - 1] != '/'
    ensures forall i :: |r| <= i < |s| ==> s[i] == '/'
  {
    if s == [] || s[|s| - 1] != '/' then s
    else TrimTrailingSlashes(s[..|s| - 1])
  }

  /** `os.path.dirname(p)`: everything up to the last slash, with trailing
      slashes removed unless the head is made of slashes only. */
  function Dirname(p: string): (d: string)
    ensures |d| <= |p| - |Basename(p)| && d == p[..|d|]
    ensures forall i :: |d| <= i < |p| - |Basename(p)| ==> p[i] == '/'
    ensures d != [] && d[|d| - 1] == '/' ==> AllSlashes(d)
    ensures '/' !in p ==> d == []
  {
    var head := p[..LastIndexOf(p, '/') + 1];
    if head != [] && !AllSlashes(head) then TrimTrailingSlashes(head) else head
  }

  /** With `Dirname`'s own contract, this fixes the directory uniquely: it is
      empty exactly when there is no slash, and a directory part made of
      slashes only (`/x`, `//x`) is kept whole. */
  lemma DirnameExact(p: string)
    ensures var d, head := Dirname(p), p[..|p| - |Basename(p)|];
            && (d == [] <==> '/' !in p)
            && (d != [] && d[|d| - 1] == '/' ==> d == head)
            && (AllSlashes(head) ==> d == head)
  {
  }

  /** `os.path.join(a, b)` for one component: an absolute `b` replaces `a`;
      a separator is added unless `a` is empty or already ends with one. */
  function Join(a: string, b: string): (r: string)
    ensures b != [] && b[0] == '/' ==> r == b
    ensures (b == [] || b[0] != '/') && (a == [] || a[|a| - 1] == '/') ==> r == a + b
    ensures (b == [] || b[0] != '/') && a != [] && a[|a| - 1] != '/' ==> r == a + "/" + b
  {
    if b != [] && b[0] == '/' then b
    else if a == [] || a[|a| - 1] == '/' then a + b
    else a + "/" + b
  }

  /** A path splits back into its directory and base name, unless the last
      slash is doubled (where `dirname` drops the extra slashes). */
  lemma {:induction false} JoinDirnameBasename(p: string)
    requires var i := LastIndexOf(p, '/'); i <= 0 || p[i - 1] != '/'
    ensures Join(Dirname(p), Basename(p)) == p
  {
    var i := LastIndexOf(p, '/');
    var b := Basename(p);
    if i > 0 {
      var head := p[..i + 1];
      assert !AllSlashes(head) by {
        assert head[i - 1] != '/';
      }
      assert TrimTrailingSlashes(head) == p[..i] by {
        assert head[..i] == p[..i];
      }
      assert p == p[..i] + "/" + b;
    } else if i == 0 {
      assert Dirname(p) == "/";
      assert p == "/" + b;
    }
  }

  /** `s.split(".")`: the pieces between dots, at least one. */
  function SplitDots(s: string): (parts: seq<string>)
    ensures |parts| >= 1
    ensures forall k :: 0 <= k < |parts| ==> '.' !in parts[k]
  {
    if s == [] then [""]
    else if s[0] == '.' then [""] + SplitDots(s[1..])
    else
      var rest := SplitDots(s[1..]);
      [[s[0]] + rest[0]] + rest[1..]
  }

  /** `".".join(parts)`. */
  function JoinDots(parts: seq<string>): string {
    if parts == [] then ""
    else if |parts| == 1 then parts[0]
    else parts[0] + "." + JoinDots(parts[1..])
  }

  lemma JoinDotsCons(c: char, parts: seq<string>)
    requires parts != []
    ensures JoinDots([[c] + parts[0]] + parts[1..]) == [c] + JoinDots(parts)
  {
    var q := [[c] + parts[0]] + parts[1..];
    assert q[1..] == parts[1..];
  }

  /** Splitting on dots and joining back gives the string unchanged. */
  lemma {:induction false} JoinSplitDots(s: string)
    ensures JoinDots(SplitDots(s)) == s
  {
    if s != [] {
      JoinSplitDots(s[1..]);
      var rest := SplitDots(s[1..]);
      if s[0] == '.' {
        assert ([""] + rest)[1..] == rest;
        assert s == "." + s[1..];
      } else {
        JoinDotsCons(s[0], rest);
        assert s == [s[0]] + s[1..];
      }
    }
  }

  /** `".".join(s.split(".")[0:-1])`: the name without its last suffix. */
  function Stem(s: string): string {
    var parts := SplitDots(s);
    JoinDots(parts[..|parts| - 1])
  }

  /** What `StemBeforeLastDot` states about one string. */
  predicate StemIsBeforeLastDot(s: string) {
    && ('.' in s ==> Stem(s) == s[..LastIndexOf(s, '.')])
    && ('.' !in s ==> Stem(s) == "")
  }

  /** The stem is everything before the last dot, and empty when there is
      no dot at all. */
  lemma {:induction false} StemBeforeLastDot(s: string)
    ensures '.' in s ==> Stem(s) == s[..LastIndexOf(s, '.')]
    ensures '.' !in s ==> Stem(s) == ""
  {
    if s != [] {
      StemBeforeLastDot(s[1..]);
      if s[0] == '.' {
        StemAfterDot(s);
      } else {
        StemAfterChar(s);
      }
    }
  }

  /** The inductive step of `StemBeforeLastDot` for a leading dot. */
  lemma StemAfterDot(s: string)
    requires s != [] && s[0] == '.' && StemIsBeforeLastDot(s[1..])
    ensures StemIsBeforeLastDot(s)
  {
    var t := s[1..];
    var rest := SplitDots(t);
    var parts := SplitDots(s);
    LastIndexOfTail(s, '.');
    NoDotSingle(t);
    assert parts == [""] + rest;
    if |rest| == 1 {
      assert parts[..|parts| - 1] == [""];
    } else {
      assert parts[..|parts| - 1] == [""] + rest[..|rest| - 1];
      assert ([""] + rest[..|rest| - 1])[1..] == rest[..|rest| - 1];
      assert s[..LastIndexOf(s, '.')] == "." + t[..LastIndexOf(t, '.')];
    }
  }

  /** The inductive step of `StemBeforeLastDot` for a leading non-dot. */
  lemma StemAfterChar(s: string)
    requires s != [] && s[0] != '.' && StemIsBeforeLastDot(s[1..])
    ensures StemIsBeforeLastDot(s)
  {
    var t := s[1..];
    var rest := SplitDots(t);
    var parts := SplitDots(s);
    LastIndexOfTail(s, '.');
    NoDotSingle(t);
    assert parts == [[s[0]] + rest[0]] + rest[1..];
    if |rest| == 1 {
      assert '.' !in s by {
        assert forall j :: 0 <= j < |s| && j > 0 ==> s[j] == t[j - 1];
      }
    } else {
      var init := rest[..|rest| - 1];
      assert parts[..|parts| - 1] == [[s[0]] + init[0]] + init[1..];
      JoinDotsCons(s[0], init);
      assert s[..LastIndexOf(s, '.')] == [s[0]] + t[..LastIndexOf(t, '.')];
    }
  }

  /** `s` has a dot exactly when splitting it gives more than one piece. */
  lemma {:induction false} NoDotSingle(s: string)
    ensures '.' !in s <==> |SplitDots(s)| == 1
  {
    if s != [] {
      NoDotSingle(s[1..]);
      assert s == [s[0]] + s[1..];
    }
  }

  /** The last occurrence in `s` seen from its tail `s[1..]`. */
  lemma LastIndexOfTail(s: string, c: char)
    requires s != []
    ensures LastIndexOf(s, c) ==
            (if c in s[1..] then LastIndexOf(s[1..], c) + 1 else if s[0] == c then 0 else -1)
  {
    var t := s[1..];
    var i := LastIndexOf(s, c);
    if c in t {
      var k :| 0 <= k < |t| && t[k] == c;
      assert s[k + 1] == c;
      var j := LastIndexOf(t, c);
      assert i >= 1;
      assert t[i - 1] == c;
      assert s[j + 1] == c;
    } else {
      assert forall j :: 1 <= j < |s| ==> s[j] == t[j - 1];
    }
  }
}
