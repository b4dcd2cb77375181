/** Slash-separated strings and their lists of parts. */
module PathParts {
  import opened Strings

  /** `s.split("/")`. */
  function Split(s: string): (parts: seq<string>)
    ensures parts != []
  {
    if s == "" then [""]
    else
      var rest := Split(s[1..]);
      if s[0] == '/' then [""] + rest else [[s[0]] + rest[0]] + rest[1..]
  }

  /** `"/".join(parts)`. */
  function Join(parts: seq<string>): string {
    if parts == [] then ""
    else if |parts| == 1 then parts[0]
    else parts[0] + "/" + Join(parts[1..])
  }

  /** A part that can stand between two slashes. */
  predicate SlashFree(part: string) {
    '/' !in part
  }

  predicate AllSlashFree(parts: seq<string>) {
    forall p :: p in parts ==> SlashFree(p)
  }

  lemma {:induction false} SplitSlashFree(s: string)
    ensures AllSlashFree(Split(s))
  {
    if s == "" {
    } else {
      var rest := Split(s[1..]);
      SplitSlashFree(s[1..]);
      assert rest[0] in rest && forall p :: p in rest[1..] ==> p in rest;
    }
  }

  lemma {:induction false} JoinSplit(s: string)
    ensures Join(Split(s)) == s
  {
    if s == "" {
    } else {
      var rest := Split(s[1..]);
      JoinSplit(s[1..]);
      if s[0] == '/' {
        assert ([""] + rest)[1..] == rest;
        assert s == "" + "/" + s[1..];
      } else {
        var parts := [[s[0]] + rest[0]] + rest[1..];
        assert parts[1..] == rest[1..];
        assert s == [s[0]] + s[1..];
        assert Join(parts) == [s[0]] + Join(rest);
      }
    }
  }

  lemma {:induction false} SplitSlashFreeString(s: string)
    requires SlashFree(s)
    ensures Split(s) == [s]
  {
    if s == "" {
    } else {
      assert s[0] in s;
      assert forall c :: c in s[1..] ==> c in s;
      SplitSlashFreeString(s[1..]);
      assert [s[0]] + s[1..] == s;
    }
  }

  /** Splitting past the first slash. */
  lemma {:induction false} SplitCons(part: string, rest: string)
    requires SlashFree(part)
    ensures Split(part + "/" + rest) == [part] + Split(rest)
  {
    var s := part + "/" + rest;
    if part == "" {
      assert s[1..] == rest;
    } else {
      assert part[0] in part;
      assert forall c :: c in part[1..] ==> c in part;
      SplitCons(part[1..], rest);
      assert s[1..] == part[1..] + "/" + rest;
      assert [part[0]] + part[1..] == part;
    }
  }

  lemma {:induction false} SplitJoin(parts: seq<string>)
    requires parts != [] && AllSlashFree(parts)
    ensures Split(Join(parts)) == parts
  {
    if |parts| == 1 {
      SplitSlashFreeString(parts[0]);
    } else {
      assert AllSlashFree(parts[1..]);
      SplitJoin(parts[1..]);
      SplitCons(parts[0], Join(parts[1..]));
      assert [parts[0]] + parts[1..] == parts;
    }
  }

  lemma {:induction false} JoinAppend(a: seq<string>, b: seq<string>)
    requires a != [] && b != []
    ensures Join(a + b) == Join(a) + "/" + Join(b)
  {
    if |a| == 1 {
      assert (a + b)[1..] == b;
    } else {
      assert (a + b)[1..] == a[1..] + b;
      JoinAppend(a[1..], b);
      assert Join(a + b) == a[0] + "/" + (Join(a[1..]) + "/" + Join(b));
    }
  }

  /** A text splits at every slash. */
  lemma SplitAtSlash(a: string, b: string)
    ensures Split(a + "/" + b) == Split(a) + Split(b)
  {
    JoinSplit(a); JoinSplit(b);
    SplitSlashFree(a); SplitSlashFree(b);
    JoinAppend(Split(a), Split(b));
    SplitJoin(Split(a) + Split(b));
  }

  /** Lists of slash-free parts are told apart by their joins. */
  lemma JoinInjective(a: seq<string>, b: seq<string>)
    requires a != [] && b != [] && AllSlashFree(a) && AllSlashFree(b)
    requires Join(a) == Join(b)
    ensures a == b
  {
    SplitJoin(a);
    SplitJoin(b);
  }

  /** A joined list starts with another one and a slash exactly when the list itself does. */
  lemma JoinPrefix(a: seq<string>, b: seq<string>)
    requires a != [] && b != [] && AllSlashFree(a) && AllSlashFree(b)
    ensures Join(a) + "/" <= Join(b) <==> a < b
  {
    if a < b {
      assert b == a + b[|a|..];
      JoinAppend(a, b[|a|..]);
    }
    if Join(a) + "/" <= Join(b) {
      var rest := Join(b)[|Join(a)| + 1..];
      assert Join(b) == Join(a) + "/" + rest;
      var tail := Split(rest);
      JoinSplit(rest);
      SplitSlashFree(rest);
      JoinAppend(a, tail);
      JoinInjective(a + tail, b);
    }
  }

  /** Names of files and directories along a path. */
  predicate PathNames(parts: seq<string>) {
    forall p :: p in parts ==> p != "" && SlashFree(p)
  }

  lemma {:induction false} JoinEnds(parts: seq<string>)
    requires parts != [] && forall p :: p in parts ==> p != "" && SlashFree(p)
    ensures Join(parts) != "" && Join(parts)[0] != '/' && !EndsWith(Join(parts), '/')
  {
    var p := parts[0];
    assert p in parts;
    assert p[0] in p && p[|p| - 1] in p;
    if |parts| > 1 {
      assert forall q :: q in parts[1..] ==> q in parts;
      JoinEnds(parts[1..]);
    }
  }
}
