/** Reading and writing workspace files through a cloud backend that knows nothing of workspaces. */
module WorkspaceFiles {
  import opened Strings
  import opened PathParts
  import opened StorageKeys
  import opened PosixPaths
  import opened WorkspaceKeys

  /** What a read returns of a body when it is asked for at most `limit` units. */
  function Cut(body: string, limit: nat): string {
    if |body| <= limit then body else body[..limit]
  }

  /** How much of an existing file `backend_write_force` looks at. */
  const FORCE_LIMIT: nat := 10_000_000

  /** Whether `start`, with which `body` starts, occurs in it again. */
  predicate OccursAgain(body: string, start: string) {
    exists i :: |start| <= i <= |body| - |start| && OccursAt(body, start, i)
  }

  predicate OccursAt(body: string, start: string, i: nat)
    requires i <= |body| - |start|
  {
    body[i..i + |start|] == start
  }

  /** A single replacement of the text that `body` starts with; None when it is not unique. */
  function ReplaceStart(body: string, start: string, replacement: string): Option<string>
    requires start <= body
  {
    if start != body && OccursAgain(body, start) then None else Some(replacement + body[|start|..])
  }

  /** The files `backend_write_force` leaves, or None when its edit fails. */
  function ForceWrite(files: map<string, string>, key: string, content: string): Option<map<string, string>> {
    if key !in files then Some(files[key := content])
    else
      var existing := Cut(files[key], FORCE_LIMIT);
      if existing == content then Some(files)
      else
        match ReplaceStart(files[key], existing, content)
        case None => None
        case Some(body) => Some(files[key := body])
  }

  class Backend {
    var files: map<string, string>

    constructor ()
      ensures files == map[]
    {
      files := map[];
    }

    method Read(key: string, limit: nat) returns (r: Option<string>)
      ensures r == if key in files then Some(Cut(files[key], limit)) else None
    {
      r := if key in files then Some(Cut(files[key], limit)) else None;
    }

    /** Create-only write. */
    method Write(key: string, content: string) returns (ok: bool)
      modifies this
      ensures ok <==> key !in old(files)
      ensures files == if ok then old(files)[key := content] else old(files)
    {
      ok := key !in files;
      if ok {
        files := files[key := content];
      }
    }

    /** `edit` without `replace_all`, of a text the file starts with. */
    method Edit(key: string, start: string, replacement: string) returns (ok: bool)
      requires key in files && start <= files[key]
      modifies this
      ensures var r := ReplaceStart(old(files)[key], start, replacement);
              ok == r.Some? && files == if ok then old(files)[key := r.value] else old(files)
    {
      var r := ReplaceStart(files[key], start, replacement);
      ok := r.Some?;
      if ok {
        files := files[key := r.value];
      }
    }
  }

  /** `backend_write_force`: create, or replace what is there by an edit of the whole. */
  method BackendWriteForce(backend: Backend, key: string, content: string) returns (ok: bool)
    modifies backend
    ensures var r := ForceWrite(old(backend.files), key, content);
            ok == r.Some? && backend.files == if ok then r.value else old(backend.files)
  {
    var written := backend.Write(key, content);
    if written {
      return true;
    }
    var existing := backend.Read(key, FORCE_LIMIT);
    if existing.value == content {
      return true;
    }
    ok := backend.Edit(key, existing.value, content);
  }

  // ----- Reading -----

  datatype ReadOutcome = Text(text: string) | Missing | Denied

  /** The first of these keys that exists. */
  function FirstExisting(files: map<string, string>, keys: seq<string>): (hit: Option<string>)
    ensures hit.Some? ==> hit.value in files
  {
    if keys == [] then None
    else if keys[0] in files then Some(keys[0])
    else FirstExisting(files, keys[1..])
  }

  /** `read_text` over the fragments still to probe. */
  function ReadFrom(w: Workspace, files: map<string, string>, fragments: seq<string>, limit: nat): ReadOutcome {
    if fragments == [] then Missing
    else
      match CandidateKeys(w, fragments[0])
      case None => Denied
      case Some(keys) =>
        var hit := FirstExisting(files, keys);
        if hit.Some? then Text(Cut(files[hit.value], limit))
        else ReadFrom(w, files, fragments[1..], limit)
  }

  /** `read_text`. */
  function ReadPath(w: Workspace, files: map<string, string>, path: string, limit: nat): ReadOutcome {
    match ReadFragments(w, path)
    case None => Denied
    case Some(fragments) => ReadFrom(w, files, fragments, limit)
  }

  datatype WriteOutcome = Written | Failed | Refused

  class BackendWorkspace {
    const workspace: Workspace
    const backend: Backend

    constructor (workspace: Workspace, backend: Backend)
      ensures this.workspace == workspace && this.backend == backend
    {
      this.workspace, this.backend := workspace, backend;
    }

    method ReadText(path: string, limit: nat) returns (r: ReadOutcome)
      ensures r == ReadPath(workspace, backend.files, path, limit)
    {
      var found := ReadFragments(workspace, path);
      if found.None? {
        return Denied;
      }
      var fragments := found.value;
      while fragments != []
        invariant ReadFrom(workspace, backend.files, fragments, limit) ==
                  ReadPath(workspace, backend.files, path, limit)
        decreases |fragments|
      {
        var candidates := CandidateKeys(workspace, fragments[0]);
        if candidates.None? {
          return Denied;
        }
        var keys := candidates.value;
        while keys != []
          invariant FirstExisting(backend.files, keys) == FirstExisting(backend.files, candidates.value)
          decreases |keys|
        {
          var read := backend.Read(keys[0], limit);
          if read.Some? {
            return Text(read.value);
          }
          keys := keys[1..];
        }
        fragments := fragments[1..];
      }
      r := Missing;
    }

    /** `exists`: a read of one unit would find something. */
    method Exists(path: string) returns (r: bool, denied: bool)
      ensures r <==> ReadPath(workspace, backend.files, path, 1).Text?
      ensures denied <==> ReadPath(workspace, backend.files, path, 1).Denied?
    {
      var read := ReadText(path, 1);
      r, denied := read.Text?, read.Denied?;
    }

    method WriteText(path: string, content: string, force: bool) returns (r: WriteOutcome)
      modifies backend
      ensures var key := StorageKey(workspace, path, true);
              && (r.Refused? <==> !key.Key?)
              && (key.Key? && force ==>
                    var w := ForceWrite(old(backend.files), key.key, content);
                    r.Written? == w.Some? && backend.files == if w.Some? then w.value else old(backend.files))
              && (key.Key? && !force ==>
                    r.Written? == (key.key !in old(backend.files)) &&
                    backend.files == if r.Written? then old(backend.files)[key.key := content] else old(backend.files))
              && (!key.Key? ==> backend.files == old(backend.files))
    {
      var key := StorageKey(workspace, path, true);
      if !key.Key? {
        return Refused;
      }
      var ok;
      if force {
        ok := BackendWriteForce(backend, key.key, content);
      } else {
        ok := backend.Write(key.key, content);
      }
      r := if ok then Written else Failed;
    }
  }

  // ----- What reads find -----

  /** Every key a read probes, in order, up to a fragment that is refused. */
  function ProbedKeys(w: Workspace, fragments: seq<string>): seq<string> {
    if fragments == [] then []
    else
      match CandidateKeys(w, fragments[0])
      case None => []
      case Some(keys) => keys + ProbedKeys(w, fragments[1..])
  }

  /** A read returns the first existing key of a fixed order, and finds nothing only if none of them exists. */
  lemma ReadsFirstExisting(w: Workspace, files: map<string, string>, fragments: seq<string>, limit: nat)
    ensures var keys, r := ProbedKeys(w, fragments), ReadFrom(w, files, fragments, limit);
            && (r.Text? <==> exists i :: 0 <= i < |keys| && keys[i] in files)
            && (forall i :: 0 <= i < |keys| && keys[i] in files && (forall j :: 0 <= j < i ==> keys[j] !in files) ==>
                  r == Text(Cut(files[keys[i]], limit)))
  {
    ReadsFirstProbed(w, files, fragments, limit);
    FirstExistingSpec(files, ProbedKeys(w, fragments));
  }

  lemma {:induction false} ReadsFirstProbed(w: Workspace, files: map<string, string>, fragments: seq<string>,
                                            limit: nat)
    ensures var hit, r := FirstExisting(files, ProbedKeys(w, fragments)), ReadFrom(w, files, fragments, limit);
            if hit.Some? then r == Text(Cut(files[hit.value], limit)) else !r.Text?
    decreases |fragments|
  {
    if fragments == [] {
    } else {
      var candidates := CandidateKeys(w, fragments[0]);
      if candidates.Some? {
        ReadsFirstProbed(w, files, fragments[1..], limit);
        FirstInConcat(files, candidates.value, ProbedKeys(w, fragments[1..]));
      }
    }
  }

  lemma {:induction false} FirstExistingSpec(files: map<string, string>, keys: seq<string>)
    ensures var hit := FirstExisting(files, keys);
            && (hit.None? <==> forall i :: 0 <= i < |keys| ==> keys[i] !in files)
            && (forall i :: 0 <= i < |keys| && keys[i] in files && (forall j :: 0 <= j < i ==> keys[j] !in files) ==>
                  hit == Some(keys[i]))
  {
    if keys == [] {
    } else {
      FirstExistingSpec(files, keys[1..]);
      assert forall i :: 1 <= i < |keys| ==> keys[i] == keys[1..][i - 1];
    }
  }

  lemma {:induction false} FirstInConcat(files: map<string, string>, a: seq<string>, b: seq<string>)
    ensures FirstExisting(files, a + b) ==
            if FirstExisting(files, a).Some? then FirstExisting(files, a) else FirstExisting(files, b)
  {
    if a == [] {
      assert a + b == b;
    } else {
      assert (a + b)[1..] == a[1..] + b;
      FirstInConcat(files, a[1..], b);
    }
  }

  // ----- What a forced write stores -----

  /** A forced write leaves exactly its content unless it had to replace a file longer than it looks at. */
  lemma ForceWriteStores(files: map<string, string>, key: string, content: string)
    requires ForceWrite(files, key, content).Some?
    ensures var after := ForceWrite(files, key, content).value;
            key in after && (after[key] == content <==> key !in files || |files[key]| <= FORCE_LIMIT)
    ensures var after := ForceWrite(files, key, content).value;
            forall k :: k in files && k != key ==> k in after && after[k] == files[k]
  {
    if key in files {
      var body := files[key];
      var existing := Cut(body, FORCE_LIMIT);
      if |body| > FORCE_LIMIT {
        assert body[|existing|..] != "";
      }
    }
  }

  /** A read that is cut gives the front of the body, as much of it as was asked for. */
  lemma CutIsFront(body: string, limit: nat)
    ensures Cut(body, limit) <= body && |Cut(body, limit)| == if |body| <= limit then |body| else limit
  {
  }

  /**
   * A forced write fails exactly if it would have to replace the first ten million units of a longer file, and these
   * occur in it again; otherwise it replaces them, or the whole of a shorter file.
   */
  lemma ForceWriteExactly(files: map<string, string>, key: string, content: string)
    ensures var r, longer := ForceWrite(files, key, content), key in files && |files[key]| > 10_000_000;
            && (r.None? <==> longer && files[key][..10_000_000] != content &&
                             OccursAgain(files[key], files[key][..10_000_000]))
            && (r.Some? ==>
                  r.value == files[key := if longer then content + files[key][10_000_000..] else content])
  {
    if key in files {
      var body, head := files[key], Cut(files[key], FORCE_LIMIT);
      if head == content {
        assert files[key := files[key]] == files;
        if |body| > FORCE_LIMIT {
          assert body == body[..FORCE_LIMIT] + body[FORCE_LIMIT..];
        }
      } else if |body| <= FORCE_LIMIT {
        assert body[|body|..] == "";
        assert content + "" == content;
      }
    }
  }
}
