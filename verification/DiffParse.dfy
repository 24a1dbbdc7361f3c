/** Parse: which lines of which files a diff changes (internal/diff/parse.go). */
module DiffParse {
  import opened Base
  import opened Strings
  import opened Hunks
  import opened LineNumbers
  import opened DiffText

  const MAX_FILES := 500
  const MAX_HUNKS := 4000

  datatype File = File(path: string, status: Status, binary: bool, lines: seq<int>)

  datatype ParseError = MissingPath | InvalidPath | FileCap | HunkWithoutFile | BadHeader | HunkCap

  // What a diff must be to parse, and what it parses to.

  function NewLine(h: RawHunk, rd: Reader): nat {
    if rd.newStart(h.header).Some? then rd.newStart(h.header).value else 0
  }

  function FileNumbers(hunks: seq<RawHunk>, rd: Reader): seq<int> {
    if hunks == [] then []
    else
      var h := hunks[|hunks| - 1];
      FileNumbers(hunks[..|hunks| - 1], rd) + Numbers(h.lines, NewLine(h, rd))
  }

  predicate HeadersGood(f: FilePatch, rd: Reader) {
    forall i :: 0 <= i < |f.hunks| ==> rd.newStart(f.hunks[i].header).Some?
  }

  function Parsed(f: FilePatch, rd: Reader): File
    requires Named(f, rd)
  {
    File(rd.canon(f.path).value, f.status, f.binary, Changed(FileNumbers(f.hunks, rd)))
  }

  function HunkCount(fs: seq<FilePatch>): nat {
    if fs == [] then 0 else HunkCount(fs[..|fs| - 1]) + |fs[|fs| - 1].hunks|
  }

  /** Every file read so far has a valid path and readable headers, within the caps, and every hunk a file. */
  predicate Sound(d: Doc, rd: Reader) {
    && !d.orphan && |d.done| <= MAX_FILES
    && (forall i :: 0 <= i < |d.done| ==> Named(d.done[i], rd) && HeadersGood(d.done[i], rd))
    && HeadersGood(Current(d), rd) && HunkCount(d.done) + |Current(d).hunks| <= MAX_HUNKS
  }

  /** The reading Parse has of a document. */
  function ParsedAll(fs: seq<FilePatch>, rd: Reader): (r: seq<File>)
    requires forall i :: 0 <= i < |fs| ==> Named(fs[i], rd)
    ensures |r| == |fs| && forall i :: 0 <= i < |fs| ==> r[i] == Parsed(fs[i], rd)
  {
    seq(|fs|, i requires 0 <= i < |fs| => Parsed(fs[i], rd))
  }

  // The parser.

  /** The variables of the parser between two lines. */
  datatype State = State(files: seq<File>, cur: Option<File>, inHunk: bool, newLn: nat, hunks: nat)

  predicate Mirrors(s: State, d: Doc, rd: Reader) {
    && Sound(d, rd)
    && s.files == ParsedAll(d.done, rd)
    && s.cur.Some? == d.cur.Some?
    && (s.cur.Some? ==> s.cur.value == Raw(d.cur.value, rd))
    && s.inHunk == d.inHunk
    && (s.inHunk ==> d.cur.Some? && d.cur.value.hunks != [] && s.newLn == NextNew(d.cur.value.hunks, rd))
    && s.hunks == HunkCount(d.done) + |Current(d).hunks|
  }

  /** The open file: its path and numbers not yet put in order. */
  function Raw(f: FilePatch, rd: Reader): File {
    File(f.path, f.status, f.binary, FileNumbers(f.hunks, rd))
  }

  /** The number the next line of the last hunk has in the new file. */
  function NextNew(hunks: seq<RawHunk>, rd: Reader): nat
    requires hunks != []
  {
    var h := hunks[|hunks| - 1];
    NewLine(h, rd) + |New(h.lines)|
  }

  /** flush: the open file is finished. */
  method Flush(s: State, ghost d: Doc, rd: Reader) returns (r: Result<State, ParseError>)
    requires Mirrors(s, d, rd)
    ensures r.Ok? <==> Sound(Close(d), rd)
    ensures r.Ok? ==> Mirrors(r.value, Close(d), rd)
  {
    if s.cur.None? {
      return Ok(s);
    }
    CloseSound(d, rd);
    var cur := s.cur.value;
    if cur.path == "" {
      return Err(MissingPath);
    }
    var p := rd.canon(cur.path);
    if p.None? {
      return Err(InvalidPath);
    }
    var lines := UniqueInts(cur.lines);
    if |s.files| + 1 > MAX_FILES {
      return Err(FileCap);
    }
    CloseParsed(d, rd);
    r := Ok(s.(files := s.files + [cur.(path := p.value, lines := lines)], cur := None, inHunk := false));
  }

  lemma CloseSound(d: Doc, rd: Reader)
    requires Sound(d, rd) && d.cur.Some?
    ensures Sound(Close(d), rd) <==> Named(d.cur.value, rd) && |d.done| < MAX_FILES
    ensures HunkCount(Close(d).done) == HunkCount(d.done) + |d.cur.value.hunks|
  {
    var done := Close(d).done;
    assert done[..|d.done|] == d.done && done[|d.done|] == d.cur.value;
    assert forall i :: 0 <= i < |d.done| ==> done[i] == d.done[i];
  }

  lemma CloseParsed(d: Doc, rd: Reader)
    requires d.cur.Some? && Sound(d, rd) && Named(d.cur.value, rd) && Sound(Close(d), rd)
    ensures ParsedAll(Close(d).done, rd) == ParsedAll(d.done, rd) + [Parsed(d.cur.value, rd)]
  {
  }

  /** Only the open file changed. */
  lemma CurrentChanged(s: State, d: Doc, t: State, e: Doc, rd: Reader)
    requires Mirrors(s, d, rd)
    requires e.done == d.done && e.orphan == d.orphan && e.cur.Some? && HeadersGood(e.cur.value, rd)
    requires t.files == s.files && t.cur == Some(Raw(e.cur.value, rd)) && t.inHunk == e.inHunk
    requires t.inHunk ==> e.cur.value.hunks != [] && t.newLn == NextNew(e.cur.value.hunks, rd)
    requires t.hunks == HunkCount(d.done) + |e.cur.value.hunks| <= MAX_HUNKS
    ensures Mirrors(t, e, rd)
  {
  }

  lemma HunkOpened(f: FilePatch, line: string, rd: Reader)
    requires HeadersGood(f, rd)
    ensures HeadersGood(WithHunk(f, line), rd) <==> rd.newStart(line).Some?
    ensures FileNumbers(WithHunk(f, line).hunks, rd) == FileNumbers(f.hunks, rd)
  {
    var hunks := WithHunk(f, line).hunks;
    assert hunks[|f.hunks|].header == line && forall i :: 0 <= i < |f.hunks| ==> hunks[i] == f.hunks[i];
    assert hunks[..|hunks| - 1] == f.hunks;
  }

  lemma NumbersOfLine(lines: seq<string>, line: string, start: nat)
    requires BodyLine(line) && !Remark(line)
    ensures var op, next := OpOf(line), lines + [if line == "" then " " else line];
            Numbers(next, start) == Numbers(lines, start) + (if op.Insert? || op.Drop? then [start + |New(lines)|] else []) &&
            |New(next)| == |New(lines)| + (if op.Drop? then 0 else 1)
  {
    var kept := if line == "" then " " else line;
    assert (lines + [kept])[..|lines|] == lines;
    assert OpOf(kept) == OpOf(line);
  }

  lemma BodyNumbered(hunks: seq<RawHunk>, line: string, rd: Reader)
    requires hunks != [] && BodyLine(line) && !Remark(line)
    ensures var op, next := OpOf(line), WithBody(hunks, line);
            FileNumbers(next, rd) == FileNumbers(hunks, rd) + (if op.Insert? || op.Drop? then [NextNew(hunks, rd)] else []) &&
            next != [] && NextNew(next, rd) == NextNew(hunks, rd) + (if op.Drop? then 0 else 1)
  {
    var last := hunks[|hunks| - 1];
    BodyAppended(hunks, line);
    NumbersOfLine(last.lines, line, NewLine(last, rd));
  }

  /** A line inside a hunk: the numbers recorded so far and the number of the next new line. */
  method InBody(recorded: seq<int>, newLn: nat, line: string, ghost hunks: seq<RawHunk>, ghost rd: Reader)
      returns (lines: seq<int>, next: nat)
    requires hunks != [] && BodyLine(line) && recorded == FileNumbers(hunks, rd) && newLn == NextNew(hunks, rd)
    ensures lines == FileNumbers(WithBody(hunks, line), rd)
    ensures WithBody(hunks, line) != [] && next == NextNew(WithBody(hunks, line), rd)
  {
    lines, next := recorded, newLn;
    if Remark(line) {
      return;
    }
    BodyNumbered(hunks, line, rd);
    if |line| == 0 || line[0] == ' ' || line[0] == '\t' {
      next := next + 1;
    } else if line[0] == '+' {
      lines, next := lines + [newLn], next + 1;
    } else {
      lines := lines + [newLn];
    }
  }

  /** Lines that say something about the file as a whole. */
  method Label(file: File, kind: Line, ghost f: FilePatch, ghost d: Doc, ghost line: string, ghost rd: Reader) returns (cur: File)
    requires file == Raw(f, rd) && f == Current(d)
    requires kind.Marked? || kind.Renamed? || kind.Binary? || kind.NewPath? || kind.OldPath?
    ensures Stepped(d, line, kind).cur.Some? && cur == Raw(Stepped(d, line, kind).cur.value, rd)
    ensures Stepped(d, line, kind).cur.value.hunks == f.hunks
  {
    cur := file;
    match kind {
      case Marked(status) =>
        cur := cur.(status := status);
      case Renamed(to) =>
        cur := cur.(status := Rename);
        if to.Some? {
          cur := cur.(path := to.value);
        }
      case Binary =>
        cur := cur.(binary := true);
      case NewPath(path) =>
        if path != DEV_NULL && path != "" {
          cur := cur.(path := path);
        } else if path == DEV_NULL {
          cur := cur.(status := Delete);
        }
      case OldPath(path) =>
        if cur.path == "" && path != DEV_NULL {
          cur := cur.(path := path);
        }
        if path == DEV_NULL {
          cur := cur.(status := Add);
        }
    }
  }

  method StartFile(s: State, ghost d: Doc, path: string, ghost line: string, rd: Reader) returns (r: Result<State, ParseError>)
    requires Mirrors(s, d, rd)
    ensures r.Ok? <==> Sound(Stepped(d, line, Git(path)), rd)
    ensures r.Ok? ==> Mirrors(r.value, Stepped(d, line, Git(path)), rd)
  {
    var flushed := Flush(s, d, rd);
    if flushed.Err? {
      return flushed;
    }
    var t := flushed.value.(cur := Some(File(path, Modify, false, [])));
    CurrentChanged(flushed.value, Close(d), t, Stepped(d, line, Git(path)), rd);
    r := Ok(t);
  }

  /** A header opens a hunk of the current file. */
  method OpenHunk(s: State, ghost d: Doc, line: string, rd: Reader) returns (r: Result<State, ParseError>)
    requires Mirrors(s, d, rd) && s.cur.Some?
    ensures r.Ok? <==> Sound(Stepped(d, line, Header), rd)
    ensures r.Ok? ==> Mirrors(r.value, Stepped(d, line, Header), rd)
  {
    var start := rd.newStart(line);
    ghost var e := Stepped(d, line, Header);
    HunkOpened(d.cur.value, line, rd);
    if start.None? {
      return Err(BadHeader);
    }
    if s.hunks + 1 > MAX_HUNKS {
      return Err(HunkCap);
    }
    var t := s.(hunks := s.hunks + 1, inHunk := true, newLn := start.value);
    assert NextNew(e.cur.value.hunks, rd) == start.value;
    CurrentChanged(s, d, t, e, rd);
    r := Ok(t);
  }

  lemma BodyHeaders(f: FilePatch, line: string, rd: Reader)
    requires f.hunks != [] && HeadersGood(f, rd)
    ensures var g := f.(hunks := WithBody(f.hunks, line)); HeadersGood(g, rd) && |g.hunks| == |f.hunks|
  {
    BodyAppended(f.hunks, line);
  }

  method ParseBody(s: State, ghost d: Doc, line: string, ghost rd: Reader) returns (t: State)
    requires Mirrors(s, d, rd) && s.inHunk && BodyLine(line)
    ensures Mirrors(t, Stepped(d, line, Body), rd)
  {
    var cur := s.cur.value;
    var lines, next := InBody(cur.lines, s.newLn, line, d.cur.value.hunks, rd);
    ghost var e := Stepped(d, line, Body);
    BodyHeaders(d.cur.value, line, rd);
    t := s.(cur := Some(cur.(lines := lines)), newLn := next);
    assert t.cur.value == Raw(e.cur.value, rd);
    CurrentChanged(s, d, t, e, rd);
  }

  method ParseLabel(s: State, ghost d: Doc, ghost line: string, kind: Line, ghost rd: Reader) returns (t: State)
    requires Mirrors(s, d, rd)
    requires kind.Marked? || kind.Renamed? || kind.Binary? || kind.NewPath? || kind.OldPath?
    ensures Mirrors(t, Stepped(d, line, kind), rd)
  {
    var cur := Label(if s.cur.Some? then s.cur.value else File("", Modify, false, []), kind, Current(d), d, line, rd);
    t := s.(cur := Some(cur), inHunk := s.inHunk && !kind.Binary?);
    CurrentChanged(s, d, t, Stepped(d, line, kind), rd);
  }

  /** A line of a known kind: fails exactly when the document is then no longer sound. */
  method ParseKind(s: State, ghost d: Doc, line: string, kind: Line, rd: Reader) returns (r: Result<State, ParseError>)
    requires Mirrors(s, d, rd) && Fits(kind, s.cur.Some?, s.inHunk) && (s.inHunk ==> BodyLine(line))
    ensures r.Ok? <==> Sound(Stepped(d, line, kind), rd)
    ensures r.Ok? ==> Mirrors(r.value, Stepped(d, line, kind), rd)
  {
    match kind {
      case Git(path) =>
        r := StartFile(s, d, path, line, rd);
      case Orphan =>
        r := Err(HunkWithoutFile);
      case Header =>
        r := OpenHunk(s, d, line, rd);
      case Body =>
        var t := ParseBody(s, d, line, rd);
        r := Ok(t);
      case Skip =>
        r := Ok(s);
      case _ =>
        var t := ParseLabel(s, d, line, kind, rd);
        r := Ok(t);
    }
  }

  /** The cases of the loop over the lines, in order. */
  method Classify(line: string, open: bool, binary: bool, inHunk: bool) returns (kind: Line)
    ensures kind == LineOf(line, open, binary, inHunk)
  {
    if "diff --git " <= line {
      var paths := GitPaths(line[|"diff --git "|..]);
      GitPathIsLast(line[|"diff --git "|..]);
      if paths.1 != "" {
        return Git(paths.1);
      }
      return Git(paths.0);
    }
    if open && "new file mode" <= line {
      return Marked(Add);
    }
    if open && "deleted file mode" <= line {
      return Marked(Delete);
    }
    if open && ("rename from " <= line || "rename to " <= line) {
      if "rename to " <= line {
        assert line[7] == 't' && "rename from "[7] == 'f';
        return Renamed(Some(TrimSpace(line[|"rename to "|..])));
      }
      return Renamed(None);
    }
    if open && ("Binary files " <= line || line == "GIT binary patch") {
      return Binary;
    }
    if "+++ " <= line {
      return NewPath(HeaderPath(line[4..]));
    }
    if "--- " <= line {
      return OldPath(HeaderPath(line[4..]));
    }
    if "@@ " <= line {
      if !open {
        return Orphan;
      }
      if binary {
        return Skip;
      }
      return Header;
    }
    if inHunk && open && !binary {
      return Body;
    }
    kind := Skip;
  }

  method ParseLine(s: State, ghost d: Doc, line: string, rd: Reader) returns (r: Result<State, ParseError>)
    requires Mirrors(s, d, rd)
    ensures r.Ok? <==> Sound(Next(d, line), rd)
    ensures r.Ok? ==> Mirrors(r.value, Next(d, line), rd)
  {
    var t := if s.inHunk && !BodyLine(line) then s.(inHunk := false) else s;
    var kind := Classify(line, t.cur.Some?, t.cur.Some? && t.cur.value.binary, t.inHunk);
    LineFits(line, t.cur.Some?, t.cur.Some? && t.cur.value.binary, t.inHunk);
    r := ParseKind(t, AtLine(d, line), line, kind, rd);
  }

  lemma ClosedWasSound(d: Doc, rd: Reader)
    requires Sound(Close(d), rd)
    ensures Sound(d, rd)
  {
    if d.cur.Some? {
      var done := Close(d).done;
      assert done[|d.done|] == d.cur.value && done[..|d.done|] == d.done;
      assert forall i :: 0 <= i < |d.done| ==> done[i] == d.done[i];
    }
  }

  lemma SteppedWasSound(d: Doc, line: string, kind: Line, rd: Reader)
    requires Sound(Stepped(d, line, kind), rd)
    ensures Sound(d, rd)
  {
    match kind {
      case Git(path) =>
        assert Sound(Close(d), rd);
        ClosedWasSound(d, rd);
      case Header =>
        var f := Current(d);
        assert forall i :: 0 <= i < |f.hunks| ==> WithHunk(f, line).hunks[i] == f.hunks[i];
      case Body =>
        if Current(d).hunks != [] {
          BodyAppended(Current(d).hunks, line);
        }
      case _ =>
    }
  }

  /** A diff that is unsound at some line stays unsound. */
  lemma {:induction false} SoundBefore(lines: seq<string>, k: nat, rd: Reader)
    requires k <= |lines| && Sound(Read(lines), rd)
    ensures Sound(Read(lines[..k]), rd)
    decreases |lines|
  {
    if k == |lines| {
      assert lines[..k] == lines;
    } else {
      var init, line := lines[..|lines| - 1], lines[|lines| - 1];
      var e := AtLine(Read(init), line);
      SteppedWasSound(e, line, LineOf(line, e.cur.Some?, Current(e).binary, e.inHunk), rd);
      SoundBefore(init, k, rd);
      assert init[..k] == lines[..k];
    }
  }

  /** Succeeds exactly on the diffs that read as a sound document, with each file's canonical path,
      status and changed lines. */
  method Parse(lines: seq<string>, rd: Reader) returns (r: Result<seq<File>, ParseError>)
    ensures r.Ok? <==> Sound(Close(Read(lines)), rd)
    ensures r.Ok? ==> r.value == ParsedAll(Patches(lines), rd)
  {
    var s := State([], None, false, 0, 0);
    for i := 0 to |lines|
      invariant Mirrors(s, Read(lines[..i]), rd)
    {
      assert lines[..i + 1][..i] == lines[..i];
      var next := ParseLine(s, Read(lines[..i]), lines[i], rd);
      if next.Err? {
        Fails(lines, i + 1, rd);
        return Err(next.error);
      }
      s := next.value;
    }
    assert lines[..|lines|] == lines;
    var last := Flush(s, Read(lines), rd);
    if last.Err? {
      return Err(last.error);
    }
    r := Ok(last.value.files);
  }

  lemma Fails(lines: seq<string>, k: nat, rd: Reader)
    requires k <= |lines| && !Sound(Read(lines[..k]), rd)
    ensures !Sound(Close(Read(lines)), rd)
  {
    if Sound(Close(Read(lines)), rd) {
      ClosedWasSound(Read(lines), rd);
      SoundBefore(lines, k, rd);
    }
  }
}
