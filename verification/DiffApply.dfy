/** The hunks a diff carries for each file, and applying them (internal/diff/apply.go). */
module DiffApply {
  import opened Base
  import opened Hunks
  import opened DiffText

  datatype ApplyFile = ApplyFile(path: string, status: Status, binary: bool, hunks: seq<Hunk>)

  datatype CollectError = RenameUnsupported | HunkWithoutFile | BadHeader

  // What a diff must be to be collected, and what it collects to.

  function OldLine(h: RawHunk, rd: Reader): nat {
    if rd.oldStart(h.header).Some? then rd.oldStart(h.header).value else 0
  }

  function PlainHunk(h: RawHunk, rd: Reader): Hunk {
    Hunk(OldLine(h, rd), h.lines)
  }

  function PlainHunks(hunks: seq<RawHunk>, rd: Reader): (r: seq<Hunk>)
    ensures |r| == |hunks| && forall i :: 0 <= i < |hunks| ==> r[i] == PlainHunk(hunks[i], rd)
  {
    seq(|hunks|, i requires 0 <= i < |hunks| => PlainHunk(hunks[i], rd))
  }

  predicate OldHeadersGood(f: FilePatch, rd: Reader) {
    forall i :: 0 <= i < |f.hunks| ==> rd.oldStart(f.hunks[i].header).Some?
  }

  predicate Usable(d: Doc, rd: Reader) {
    && !d.orphan && !d.renamed && OldHeadersGood(Current(d), rd)
    && (forall i :: 0 <= i < |d.done| ==> OldHeadersGood(d.done[i], rd))
  }

  /** A file whose path is not valid is passed over. */
  function Collected(f: FilePatch, rd: Reader): seq<ApplyFile> {
    if Named(f, rd) then [ApplyFile(rd.canon(f.path).value, f.status, f.binary, PlainHunks(f.hunks, rd))] else []
  }

  function CollectedAll(fs: seq<FilePatch>, rd: Reader): seq<ApplyFile> {
    if fs == [] then [] else CollectedAll(fs[..|fs| - 1], rd) + Collected(fs[|fs| - 1], rd)
  }

  // The collector.

  /** The variables of the collector between two lines. */
  datatype State = State(files: seq<ApplyFile>, cur: Option<ApplyFile>, inHunk: bool, hunk: Hunk)

  /** The open file: its path as given, and the open hunk apart. */
  function Raw(f: FilePatch, inHunk: bool, rd: Reader): ApplyFile {
    var n := if inHunk && f.hunks != [] then |f.hunks| - 1 else |f.hunks|;
    ApplyFile(f.path, f.status, f.binary, PlainHunks(f.hunks[..n], rd))
  }

  predicate Mirrors(s: State, d: Doc, rd: Reader) {
    && Usable(d, rd)
    && s.files == CollectedAll(d.done, rd)
    && s.cur.Some? == d.cur.Some?
    && (s.cur.Some? ==> s.cur.value == Raw(d.cur.value, s.inHunk, rd))
    && s.inHunk == d.inHunk
    && (s.inHunk ==> d.cur.Some? && d.cur.value.hunks != [] && s.hunk == PlainHunk(d.cur.value.hunks[|d.cur.value.hunks| - 1], rd))
  }

  /** Only the open file changed. */
  lemma CurrentChanged(s: State, d: Doc, t: State, e: Doc, rd: Reader)
    requires Mirrors(s, d, rd)
    requires e.done == d.done && e.orphan == d.orphan && e.renamed == d.renamed && e.cur.Some? && OldHeadersGood(e.cur.value, rd)
    requires t.files == s.files && t.inHunk == e.inHunk && t.cur == Some(Raw(e.cur.value, t.inHunk, rd))
    requires t.inHunk ==> e.cur.value.hunks != [] && t.hunk == PlainHunk(e.cur.value.hunks[|e.cur.value.hunks| - 1], rd)
    ensures Mirrors(t, e, rd)
  {
  }

  lemma LastHunk(hunks: seq<RawHunk>, rd: Reader)
    requires hunks != []
    ensures PlainHunks(hunks[..|hunks|], rd) ==
            PlainHunks(hunks[..|hunks| - 1], rd) + [PlainHunk(hunks[|hunks| - 1], rd)]
  {
  }

  method FlushHunk(s: State, ghost d: Doc, ghost rd: Reader) returns (t: State)
    requires Mirrors(s, d, rd)
    ensures Mirrors(t, d.(inHunk := false), rd) && t.cur.Some? == s.cur.Some?
  {
    if s.cur.None? || !s.inHunk {
      return s;
    }
    var cur := s.cur.value;
    LastHunk(d.cur.value.hunks, rd);
    t := s.(cur := Some(cur.(hunks := cur.hunks + [s.hunk])), hunk := Hunk(0, []), inHunk := false);
    CurrentChanged(s, d, t, d.(inHunk := false), rd);
  }

  method FlushFile(s: State, ghost d: Doc, rd: Reader) returns (t: State)
    requires Mirrors(s, d, rd)
    ensures Mirrors(t, Close(d), rd)
  {
    t := FlushHunk(s, d, rd);
    if t.cur.None? {
      return;
    }
    CloseCollected(d, rd);
    var cur := t.cur.value;
    assert d.cur.value.hunks[..|d.cur.value.hunks|] == d.cur.value.hunks;
    if cur.path == "" {
      return t.(cur := None);
    }
    var p := rd.canon(cur.path);
    if p.None? {
      return t.(cur := None);
    }
    t := t.(files := t.files + [cur.(path := p.value)], cur := None);
  }

  lemma CloseCollected(d: Doc, rd: Reader)
    requires d.cur.Some? && Usable(d, rd)
    ensures CollectedAll(Close(d).done, rd) == CollectedAll(d.done, rd) + Collected(d.cur.value, rd)
    ensures Usable(Close(d), rd)
  {
    var done := Close(d).done;
    assert done[..|d.done|] == d.done && done[|d.done|] == d.cur.value;
  }

  method StartFile(s: State, ghost d: Doc, path: string, ghost line: string, rd: Reader) returns (t: State)
    requires Mirrors(s, d, rd)
    ensures Mirrors(t, Stepped(d, line, Git(path)), rd)
  {
    var flushed := FlushFile(s, d, rd);
    t := flushed.(cur := Some(ApplyFile(path, Modify, false, [])));
    CurrentChanged(flushed, Close(d), t, Stepped(d, line, Git(path)), rd);
  }

  lemma HunkOpened(f: FilePatch, line: string, rd: Reader)
    requires OldHeadersGood(f, rd)
    ensures var g := WithHunk(f, line);
            (OldHeadersGood(g, rd) <==> rd.oldStart(line).Some?) && g.hunks[..|g.hunks| - 1] == f.hunks[..|f.hunks|]
  {
    var hunks := WithHunk(f, line).hunks;
    assert hunks[|f.hunks|].header == line && forall i :: 0 <= i < |f.hunks| ==> hunks[i] == f.hunks[i];
  }

  method OpenHunk(s: State, ghost d: Doc, line: string, rd: Reader) returns (r: Result<State, CollectError>)
    requires Mirrors(s, d, rd) && s.cur.Some?
    ensures r.Ok? <==> Usable(Stepped(d, line, Header), rd)
    ensures r.Ok? ==> Mirrors(r.value, Stepped(d, line, Header), rd)
  {
    var oldStart := rd.oldStart(line);
    HunkOpened(d.cur.value, line, rd);
    if oldStart.None? {
      return Err(BadHeader);
    }
    var t := FlushHunk(s, d, rd);
    var next := t.(inHunk := true, hunk := Hunk(oldStart.value, []));
    CurrentChanged(t, d.(inHunk := false), next, Stepped(d, line, Header), rd);
    r := Ok(next);
  }

  method CollectBody(s: State, ghost d: Doc, line: string, ghost rd: Reader) returns (t: State)
    requires Mirrors(s, d, rd) && s.inHunk && BodyLine(line)
    ensures Mirrors(t, Stepped(d, line, Body), rd)
  {
    t := s;
    if line == "" {
      t := s.(hunk := s.hunk.(lines := s.hunk.lines + [" "]));
    } else if line[0] == '+' || line[0] == '-' || line[0] == ' ' || line[0] == '\t' {
      t := s.(hunk := s.hunk.(lines := s.hunk.lines + [line]));
    }
    BodyAppended(d.cur.value.hunks, line);
    CurrentChanged(s, d, t, Stepped(d, line, Body), rd);
  }

  /** Lines that say something about the file as a whole. */
  method Label(file: ApplyFile, kind: Line, inHunk: bool, ghost d: Doc, ghost line: string, ghost rd: Reader) returns (cur: ApplyFile)
    requires file == Raw(Current(d), inHunk, rd)
    requires kind.Marked? || kind.Binary? || kind.NewPath? || kind.OldPath?
    ensures var g := Stepped(d, line, kind).cur;
            g.Some? && cur == Raw(g.value, inHunk, rd) && g.value.hunks == Current(d).hunks
  {
    cur := file;
    match kind {
      case Marked(status) =>
        cur := cur.(status := status);
      case Binary =>
        cur := cur.(binary := true);
      case NewPath(path) =>
        if path != DEV_NULL && path != "" {
          cur := cur.(path := path);
        } else if path == DEV_NULL {
          cur := cur.(status := Delete);
        }
      case OldPath(path) =>
        if cur.path == "" && path != DEV_NULL {
          cur := cur.(path := path);
        }
        if path == DEV_NULL {
          cur := cur.(status := Add);
        }
    }
  }

  method CollectLabel(s: State, ghost d: Doc, ghost line: string, kind: Line, ghost rd: Reader) returns (t: State)
    requires Mirrors(s, d, rd) && Fits(kind, s.cur.Some?, s.inHunk)
    requires kind.Marked? || kind.Binary? || kind.NewPath? || kind.OldPath?
    ensures Mirrors(t, Stepped(d, line, kind), rd)
  {
    var cur := Label(if s.cur.Some? then s.cur.value else ApplyFile("", Modify, false, []), kind, s.inHunk, d, line, rd);
    t := s.(cur := Some(cur), inHunk := s.inHunk && !kind.Binary?);
    CurrentChanged(s, d, t, Stepped(d, line, kind), rd);
  }

  /** A line of a known kind: fails exactly when the document is then no longer usable. */
  method CollectKind(s: State, ghost d: Doc, line: string, kind: Line, rd: Reader) returns (r: Result<State, CollectError>)
    requires Mirrors(s, d, rd) && Fits(kind, s.cur.Some?, s.inHunk) && (s.inHunk ==> BodyLine(line))
    ensures r.Ok? <==> Usable(Stepped(d, line, kind), rd)
    ensures r.Ok? ==> Mirrors(r.value, Stepped(d, line, kind), rd)
  {
    match kind {
      case Git(path) =>
        var t := StartFile(s, d, path, line, rd);
        r := Ok(t);
      case Renamed(_) =>
        r := Err(RenameUnsupported);
      case Orphan =>
        r := Err(HunkWithoutFile);
      case Header =>
        r := OpenHunk(s, d, line, rd);
      case Body =>
        var t := CollectBody(s, d, line, rd);
        r := Ok(t);
      case Skip =>
        r := Ok(s);
      case _ =>
        var t := CollectLabel(s, d, line, kind, rd);
        r := Ok(t);
    }
  }

  /** The cases of the loop over the lines, in order. */
  method Classify(line: string, open: bool, binary: bool, inHunk: bool) returns (kind: Line)
    ensures var want := LineOf(line, open, binary, inHunk);
            kind == want || (kind.Renamed? && want.Renamed?)
  {
    if "diff --git " <= line {
      var paths := GitPaths(line[|"diff --git "|..]);
      GitPathIsLast(line[|"diff --git "|..]);
      if paths.1 != "" {
        return Git(paths.1);
      }
      return Git(paths.0);
    }
    if open && "new file mode" <= line {
      return Marked(Add);
    }
    if open && "deleted file mode" <= line {
      return Marked(Delete);
    }
    if open && ("rename from " <= line || "rename to " <= line) {
      return Renamed(None);
    }
    if open && ("Binary files " <= line || line == "GIT binary patch") {
      return Binary;
    }
    if "+++ " <= line {
      return NewPath(HeaderPath(line[4..]));
    }
    if "--- " <= line {
      return OldPath(HeaderPath(line[4..]));
    }
    if "@@ " <= line {
      if !open {
        return Orphan;
      }
      if binary {
        return Skip;
      }
      return Header;
    }
    if inHunk && open && !binary {
      return Body;
    }
    kind := Skip;
  }

  method CollectLine(s: State, ghost d: Doc, line: string, rd: Reader) returns (r: Result<State, CollectError>)
    requires Mirrors(s, d, rd)
    ensures r.Ok? <==> Usable(Next(d, line), rd)
    ensures r.Ok? ==> Mirrors(r.value, Next(d, line), rd)
  {
    var t := s;
    if s.inHunk && !BodyLine(line) {
      t := FlushHunk(s, d, rd);
    }
    var open, binary := t.cur.Some?, t.cur.Some? && t.cur.value.binary;
    LineFits(line, open, binary, t.inHunk);
    var kind := Classify(line, open, binary, t.inHunk);
    r := CollectKind(t, AtLine(d, line), line, kind, rd);
  }

  lemma SteppedWasUsable(d: Doc, line: string, kind: Line, rd: Reader)
    requires Usable(Stepped(d, line, kind), rd)
    ensures Usable(d, rd)
  {
    match kind {
      case Git(path) =>
        var done := Close(d).done;
        assert d.cur.Some? ==> done[|d.done|] == d.cur.value;
        assert forall i :: 0 <= i < |d.done| ==> done[i] == d.done[i];
      case Header =>
        var f := Current(d);
        assert forall i :: 0 <= i < |f.hunks| ==> WithHunk(f, line).hunks[i] == f.hunks[i];
      case Body =>
        if Current(d).hunks != [] {
          BodyAppended(Current(d).hunks, line);
        }
      case _ =>
    }
  }

  /** A diff that is unusable at some line stays unusable. */
  lemma {:induction false} UsableBefore(lines: seq<string>, k: nat, rd: Reader)
    requires k <= |lines| && Usable(Read(lines), rd)
    ensures Usable(Read(lines[..k]), rd)
    decreases |lines|
  {
    if k == |lines| {
      assert lines[..k] == lines;
    } else {
      var init, line := lines[..|lines| - 1], lines[|lines| - 1];
      var e := AtLine(Read(init), line);
      SteppedWasUsable(e, line, LineOf(line, e.cur.Some?, Current(e).binary, e.inHunk), rd);
      UsableBefore(init, k, rd);
      assert init[..k] == lines[..k];
    }
  }

  /** Succeeds exactly on the diffs that read as a usable document, with the hunks of every file whose
      path is valid. */
  method CollectApply(lines: seq<string>, rd: Reader) returns (r: Result<seq<ApplyFile>, CollectError>)
    ensures r.Ok? <==> Usable(Read(lines), rd)
    ensures r.Ok? ==> r.value == CollectedAll(Patches(lines), rd)
  {
    var s := State([], None, false, Hunk(0, []));
    for i := 0 to |lines|
      invariant Mirrors(s, Read(lines[..i]), rd)
    {
      assert lines[..i + 1][..i] == lines[..i];
      var next := CollectLine(s, Read(lines[..i]), lines[i], rd);
      if next.Err? {
        Fails(lines, i + 1, rd);
        return Err(next.error);
      }
      s := next.value;
    }
    assert lines[..|lines|] == lines;
    var last := FlushFile(s, Read(lines), rd);
    r := Ok(last.files);
  }

  lemma Fails(lines: seq<string>, k: nat, rd: Reader)
    requires k <= |lines| && !Usable(Read(lines[..k]), rd)
    ensures !Usable(Read(lines), rd)
  {
    if Usable(Read(lines), rd) {
      UsableBefore(lines, k, rd);
    }
  }
}
