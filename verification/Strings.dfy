/** String operations of the source language that the path code uses. */
module Strings {

  datatype Option<+T> = None | Some(value: T)

  predicate StartsWith(s: string, p: string) {
    p <= s
  }

  predicate EndsWith(s: string, c: char) {
    s != "" && s[|s| - 1] == c
  }

  /** `s.lstrip(c)`: what is left once every leading `c` is gone. */
  function LStrip(s: string, c: char): string {
    if s != "" && s[0] == c then LStrip(s[1..], c) else s
  }

  lemma TailOfTail(s: string, n: nat)
    requires n < |s|
    ensures s[1..][n..] == s[n + 1..]
  {
    var below, tail := s[1..][n..], s[n + 1..];
    assert |below| == |tail|;
    assert forall k :: 0 <= k < |tail| ==> below[k] == s[n + 1 + k] == tail[k];
    assert below == tail;
  }

  lemma {:induction false} LStripSpec(s: string, c: char)
    ensures var r := LStrip(s, c);
            && |r| <= |s| && r == s[|s| - |r|..]
            && (r != "" ==> r[0] != c)
            && forall i :: 0 <= i < |s| - |r| ==> s[i] == c
  {
    if s == "" || s[0] != c {
    } else {
      var t, r := s[1..], LStrip(s[1..], c);
      LStripSpec(t, c);
      TailOfTail(s, |t| - |r|);
      forall i | 0 <= i < |s| - |r|
        ensures s[i] == c
      {
        assert i > 0 ==> s[i] == t[i - 1];
      }
    }
  }

  /** `s.rstrip(c)`. */
  function RStrip(s: string, c: char): string {
    if s != "" && s[|s| - 1] == c then RStrip(s[..|s| - 1], c) else s
  }

  lemma {:induction false} RStripSpec(s: string, c: char)
    ensures var r := RStrip(s, c);
            && r <= s
            && (r != "" ==> r[|r| - 1] != c)
            && forall i :: |r| <= i < |s| ==> s[i] == c
  {
    if s == "" || s[|s| - 1] != c {
    } else {
      RStripSpec(s[..|s| - 1], c);
    }
  }

  /** `s.replace("\\", "/")`. */
  function Slashes(s: string): (r: string)
    ensures |r| == |s|
  {
    if s == "" then "" else [if s[0] == '\\' then '/' else s[0]] + Slashes(s[1..])
  }

  lemma {:induction false} SlashesPlain(s: string)
    requires '\\' !in s
    ensures Slashes(s) == s
  {
    if s == "" {
    } else {
      assert s[0] in s && forall c :: c in s[1..] ==> c in s;
      SlashesPlain(s[1..]);
      assert [s[0]] + s[1..] == s;
    }
  }

  lemma {:induction false} SlashesClear(s: string)
    ensures '\\' !in Slashes(s)
  {
    if s == "" {
    } else {
      SlashesClear(s[1..]);
    }
  }

  /** Every backslash becomes a slash, and nothing else changes. */
  lemma {:induction false} SlashesAt(s: string, i: nat)
    requires i < |s|
    ensures Slashes(s)[i] == if s[i] == '\\' then '/' else s[i]
  {
    if i == 0 {
    } else {
      SlashesAt(s[1..], i - 1);
    }
  }

  predicate Blank(c: char) {
    c == ' ' || '\t' <= c <= '\r' || '\U{1C}' <= c <= '\U{1F}'
  }

  /** `s.strip()`, for the blanks of ASCII. */
  function Strip(s: string): string {
    if s != "" && Blank(s[0]) then Strip(s[1..])
    else if s != "" && Blank(s[|s| - 1]) then Strip(s[..|s| - 1])
    else s
  }

  function Slice(s: string, i: nat, j: nat): string
    requires i <= j <= |s|
  {
    s[i..j]
  }

  lemma SliceOfTail(s: string, i: nat, j: nat)
    requires i <= j < |s|
    ensures Slice(s, i + 1, j + 1) == Slice(s[1..], i, j)
    ensures |Slice(s[1..], i, j)| < |s|
  {
    var slice, inTail := Slice(s, i + 1, j + 1), Slice(s[1..], i, j);
    assert |slice| == |inTail|;
    assert forall k :: 0 <= k < |slice| ==> slice[k] == s[i + 1 + k] == inTail[k];
    assert slice == inTail;
  }

  lemma SliceOfInit(s: string, i: nat, j: nat)
    requires i <= j < |s|
    ensures Slice(s, i, j) == Slice(s[..|s| - 1], i, j)
    ensures |Slice(s[..|s| - 1], i, j)| < |s|
  {
    var slice, inInit := Slice(s, i, j), Slice(s[..|s| - 1], i, j);
    assert |slice| == |inInit|;
    assert forall k :: 0 <= k < |slice| ==> slice[k] == s[i + k] == inInit[k];
    assert slice == inInit;
  }

  /** Stripping takes a piece out of the middle, and nothing when neither end is blank. */
  lemma {:induction false} StripSpec(s: string)
    ensures exists i, j :: 0 <= i <= j <= |s| && Strip(s) == Slice(s, i, j)
    ensures Strip(s) != "" ==> !Blank(Strip(s)[0]) && !Blank(Strip(s)[|Strip(s)| - 1])
    ensures Strip(s) == s <==> s == "" || (!Blank(s[0]) && !Blank(s[|s| - 1]))
  {
    if s != "" && Blank(s[0]) {
      var t := s[1..];
      StripSpec(t);
      var i, j :| 0 <= i <= j <= |t| && Strip(t) == Slice(t, i, j);
      SliceOfTail(s, i, j);
      assert Strip(s) == Slice(s, i + 1, j + 1);
    } else if s != "" && Blank(s[|s| - 1]) {
      var t := s[..|s| - 1];
      StripSpec(t);
      var i, j :| 0 <= i <= j <= |t| && Strip(t) == Slice(t, i, j);
      SliceOfInit(s, i, j);
      assert Strip(s) == Slice(s, i, j);
    } else {
      assert Slice(s, 0, |s|) == s;
    }
  }

  /** Lexicographic order by code point: the order in which object stores list keys. */
  predicate Less(a: string, b: string) {
    b != "" && (a == "" || a[0] < b[0] || (a[0] == b[0] && Less(a[1..], b[1..])))
  }

  lemma {:induction false} LessIrreflexive(a: string)
    ensures !Less(a, a)
  {
    if a == "" {
    } else {
      LessIrreflexive(a[1..]);
    }
  }

  lemma {:induction false} LessTransitive(a: string, b: string, c: string)
    requires Less(a, b) && Less(b, c)
    ensures Less(a, c)
  {
    if a == "" || !(a[0] == b[0] == c[0]) {
    } else {
      LessTransitive(a[1..], b[1..], c[1..]);
    }
  }

  lemma {:induction false} LessTotal(a: string, b: string)
    ensures a == b || Less(a, b) || Less(b, a)
  {
    if a == "" || b == "" || a[0] != b[0] {
    } else {
      LessTotal(a[1..], b[1..]);
      assert a == [a[0]] + a[1..] && b == [b[0]] + b[1..];
    }
  }
}
