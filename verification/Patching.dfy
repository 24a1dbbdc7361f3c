/** Applying a diff to a tree of files (internal/diff/apply.go). */
module Patching {
  import opened Base
  import opened TextLines
  import opened Hunks
  import opened DiffText
  import opened DiffApply
  import DiffParse
  import DiffAgreement

  type Tree = map<string, string>

  datatype FileError = BinaryUnsupported | AlreadyExists | Missing | Conflict(error: ApplyError)

  datatype Failure =
    | Unparsed(parse: DiffParse.ParseError)
    | Uncollected(collect: CollectError)
    | NoFiles
    | Failed(file: FileError)

  /** What becomes of one file: its new text, or None when it is removed. */
  function FileResult(was: Option<string>, f: ApplyFile): Result<Option<string>, FileError> {
    if f.binary then Err(BinaryUnsupported)
    else if f.status == Add then
      if was.Some? then Err(AlreadyExists)
      else
        match Outcome([], f.hunks, 0)
        case Err(e) => Err(Conflict(e))
        case Ok(out) => Ok(Some(FileText([], out)))
    else if was.None? then Err(Missing)
    else if f.status == Delete then Ok(None)
    else
      match Written(was.value, f.hunks)
      case Err(e) => Err(Conflict(e))
      case Ok(text) => Ok(Some(text))
  }

  function At(tree: Tree, path: string): Option<string> {
    if path in tree then Some(tree[path]) else None
  }

  function Put(tree: Tree, path: string, text: Option<string>): Tree {
    if text.Some? then tree[path := text.value] else tree - {path}
  }

  method ApplyOne(tree: Tree, f: ApplyFile) returns (r: Result<Tree, FileError>)
    ensures var w := FileResult(At(tree, f.path), f);
            r == if w.Ok? then Ok(Put(tree, f.path, w.value)) else Err(w.error)
  {
    if f.binary {
      return Err(BinaryUnsupported);
    }
    if f.status == Add {
      if f.path in tree {
        return Err(AlreadyExists);
      }
      var out := ApplyToLines([], f.hunks);
      return if out.Ok? then Ok(tree[f.path := out.value]) else Err(Conflict(out.error));
    }
    if f.path !in tree {
      return Err(Missing);
    }
    if f.status == Delete {
      return Ok(tree - {f.path});
    }
    var out := ApplyToLines(SplitLines(tree[f.path]), f.hunks);
    r := if out.Ok? then Ok(tree[f.path := out.value]) else Err(Conflict(out.error));
  }

  /** The tree after the files before the first failure, and that failure if there is one. */
  function Applied(tree: Tree, fs: seq<ApplyFile>): (Tree, Option<FileError>) {
    if fs == [] then (tree, None)
    else
      var (t, e) := Applied(tree, fs[..|fs| - 1]);
      var f := fs[|fs| - 1];
      if e.Some? then (t, e)
      else
        match FileResult(At(t, f.path), f)
        case Err(bad) => (t, Some(bad))
        case Ok(text) => (Put(t, f.path, text), None)
  }

  lemma {:induction false} FailureStays(tree: Tree, fs: seq<ApplyFile>, k: nat)
    requires k <= |fs| && Applied(tree, fs[..k]).1.Some?
    ensures Applied(tree, fs) == Applied(tree, fs[..k])
    decreases |fs|
  {
    if k == |fs| {
      assert fs[..k] == fs;
    } else {
      assert fs[..|fs| - 1][..k] == fs[..k];
      FailureStays(tree, fs[..|fs| - 1], k);
    }
  }

  method ApplyFiles(tree: Tree, fs: seq<ApplyFile>) returns (out: Tree, err: Option<FileError>)
    ensures (out, err) == Applied(tree, fs)
  {
    out := tree;
    for i := 0 to |fs|
      invariant (out, None) == Applied(tree, fs[..i])
    {
      assert fs[..i + 1][..i] == fs[..i];
      var r := ApplyOne(out, fs[i]);
      if r.Err? {
        FailureStays(tree, fs, i + 1);
        return out, Some(r.error);
      }
      out := r.value;
    }
    assert fs[..|fs|] == fs;
    err := None;
  }

  predicate DistinctPaths(fs: seq<ApplyFile>) {
    forall i, k :: 0 <= i < k < |fs| ==> fs[i].path != fs[k].path
  }

  predicate Untouched(fs: seq<ApplyFile>, path: string) {
    forall i :: 0 <= i < |fs| ==> fs[i].path != path
  }

  lemma {:induction false} OthersUntouched(tree: Tree, fs: seq<ApplyFile>, path: string)
    requires Untouched(fs, path)
    ensures At(Applied(tree, fs).0, path) == At(tree, path)
  {
    if fs != [] {
      assert Untouched(fs[..|fs| - 1], path);
      OthersUntouched(tree, fs[..|fs| - 1], path);
    }
  }

  lemma AppliedLast(tree: Tree, init: seq<ApplyFile>, f: ApplyFile)
    requires Untouched(init, f.path)
    ensures var (t, e) := Applied(tree, init);
            var r := FileResult(At(tree, f.path), f);
            Applied(tree, init + [f]) == if e.Some? then (t, e) else if r.Err? then (t, Some(r.error)) else (Put(t, f.path, r.value), None)
  {
    OthersUntouched(tree, init, f.path);
    assert (init + [f])[..|init|] == init;
  }

  /** With distinct paths each file is patched as if it were alone: all succeed exactly when each
      would on the tree as it was. */
  lemma {:induction false} DistinctPathsIndependent(tree: Tree, fs: seq<ApplyFile>)
    requires DistinctPaths(fs)
    ensures Applied(tree, fs).1.None? <==> forall i :: 0 <= i < |fs| ==> FileResult(At(tree, fs[i].path), fs[i]).Ok?
  {
    if fs != [] {
      var n := |fs| - 1;
      var init, f := fs[..n], fs[n];
      assert fs == init + [f];
      assert forall i :: 0 <= i < n ==> init[i] == fs[i] && fs[i].path != f.path;
      DistinctPathsIndependent(tree, init);
      AppliedLast(tree, init, f);
    }
  }

  lemma LastApplied(tree: Tree, init: seq<ApplyFile>, f: ApplyFile)
    requires Untouched(init, f.path) && Applied(tree, init + [f]).1.None?
    ensures var r := FileResult(At(tree, f.path), f);
            Applied(tree, init).1.None? && r.Ok? && Applied(tree, init + [f]).0 == Put(Applied(tree, init).0, f.path, r.value)
  {
    AppliedLast(tree, init, f);
  }

  /** When all succeed each file ends as it would alone. */
  lemma {:induction false} DistinctPathsAlone(tree: Tree, fs: seq<ApplyFile>, i: nat)
    requires DistinctPaths(fs) && Applied(tree, fs).1.None? && i < |fs|
    ensures FileResult(At(tree, fs[i].path), fs[i]) == Ok(At(Applied(tree, fs).0, fs[i].path))
    decreases |fs|
  {
    var n := |fs| - 1;
    var init, f := fs[..n], fs[n];
    assert fs == init + [f] && Untouched(init, f.path);
    LastApplied(tree, init, f);
    if i < n {
      DistinctPathsAlone(tree, init, i);
      PutElsewhere(Applied(tree, init).0, f.path, FileResult(At(tree, f.path), f).value, init[i].path);
    }
  }

  lemma PutElsewhere(tree: Tree, path: string, text: Option<string>, other: string)
    requires path != other
    ensures At(Put(tree, path, text), other) == At(tree, other)
  {
  }

  /** The diff parses, can be collected and names a file. */
  predicate Accepted(lines: seq<string>, rd: Reader) {
    DiffParse.Sound(Close(Read(lines)), rd) && Usable(Read(lines), rd) && Patches(lines) != []
  }

  /** The tree a diff makes of another, if it can be parsed, collected and applied. */
  function Patched(tree: Tree, text: string, rd: Reader): Option<Tree> {
    var done := Applied(tree, CollectedAll(Patches(Scan(text)), rd));
    if Accepted(Scan(text), rd) && done.1.None? then Some(done.0) else None
  }

  method FilesOf(lines: seq<string>, rd: Reader) returns (r: Result<seq<ApplyFile>, Failure>)
    ensures r.Ok? <==> Accepted(lines, rd)
    ensures r.Ok? ==> r.value == CollectedAll(Patches(lines), rd)
    ensures r.Err? ==> !r.error.Failed?
  {
    var parsed := DiffParse.Parse(lines, rd);
    if parsed.Err? {
      return Err(Unparsed(parsed.error));
    }
    var collected := CollectApply(lines, rd);
    if collected.Err? {
      return Err(Uncollected(collected.error));
    }
    DiffAgreement.AllCollected(Patches(lines), rd);
    r := if |collected.value| == 0 then Err(NoFiles) else Ok(collected.value);
  }

  /** A diff refused before the first file is tried changes nothing; one that fails later leaves the
      files before the failure patched. */
  method Apply(tree: Tree, text: string, rd: Reader) returns (out: Tree, err: Option<Failure>)
    ensures err.None? <==> Patched(tree, text, rd).Some?
    ensures err.None? ==> out == Patched(tree, text, rd).value
    ensures err.Some? ==> out == if err.value.Failed? then Applied(tree, CollectedAll(Patches(Scan(text)), rd)).0 else tree
  {
    var lines := Scan(text);
    out, err := ApplyLines(tree, lines, rd);
  }

  method ApplyLines(tree: Tree, lines: seq<string>, rd: Reader) returns (out: Tree, err: Option<Failure>)
    ensures var done := Applied(tree, CollectedAll(Patches(lines), rd));
            (err.None? <==> Accepted(lines, rd) && done.1.None?) &&
            out == if err.None? || err.value.Failed? then done.0 else tree
  {
    var files := FilesOf(lines, rd);
    if files.Err? {
      return tree, Some(files.error);
    }
    var bad;
    out, bad := ApplyFiles(tree, files.value);
    err := if bad.Some? then Some(Failed(bad.value)) else None;
  }
}
