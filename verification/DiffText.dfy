/** Reading the text of a unified diff, line by line (internal/diff/parse.go, internal/diff/apply.go). */
module DiffText {
  import opened Base
  import opened TextLines
  import opened Strings

  datatype Status = Modify | Add | Delete | Rename

  datatype RawHunk = RawHunk(header: string, lines: seq<string>)

  /** What a diff says about one file, before any path or number in it is interpreted. */
  datatype FilePatch = FilePatch(path: string, status: Status, binary: bool, hunks: seq<RawHunk>)

  /** A diff read so far. */
  datatype Doc = Doc(done: seq<FilePatch>, cur: Option<FilePatch>, inHunk: bool, orphan: bool, renamed: bool)

  /** The lines a scanner delivers: without their newline and one carriage return before it. */
  function Scan(text: string): seq<string> {
    var ls := SplitLines(text);
    seq(|ls|, i requires 0 <= i < |ls| => DropCR(ls[i]))
  }

  function DropCR(l: string): string {
    if l != "" && l[|l| - 1] == '\r' then l[..|l| - 1] else l
  }

  // Headers.

  function HeaderPath(rest: string): string {
    UpTo(UpTo(TrimSpace(rest), "\t"), " ")
  }

  /** The number n, unless it is missing or negative. */
  function Unsigned(n: Option<int>): Option<nat> {
    if n.Some? && n.value >= 0 then Some(n.value) else None
  }

  function OldStart(line: string): Option<nat> {
    var minus := Index(line, "-");
    if minus.None? then None
    else
      var rest := line[minus.value + 1..];
      var end := IndexAny(rest, " ,");
      if end.None? then None else Unsigned(Atoi(rest[..end.value]))
  }

  function NewStart(line: string): Option<nat> {
    var plus := Index(line, " +");
    if plus.None? then None else FirstNumber(line[plus.value + 2..])
  }

  /** The number that begins a range such as "12,3 @@". */
  function FirstNumber(rest: string): Option<nat> {
    var space := IndexAny(rest, " ");
    var end := if space.Some? then space else Index(rest, "@@");
    var cut := if end.Some? then rest[..end.value] else rest;
    Unsigned(Atoi(UpTo(Trim(cut, c => c == ' ' || c == '@'), ",")))
  }

  /** How the numbers and paths of a diff are read: the start in the old and in the new file from a
      hunk header, and the canonical form of a path. */
  datatype Reader = Reader(oldStart: string -> Option<nat>, newStart: string -> Option<nat>, canon: string -> Option<string>)

  function Standard(canon: string -> Option<string>): Reader {
    Reader(line => OldStart(line), line => NewStart(line), canon)
  }

  // One line.

  predicate BodyLine(line: string) {
    line == "" || line[0] == ' ' || line[0] == '\t' || line[0] == '+' || line[0] == '-' || line[0] == '\\'
  }

  predicate Remark(line: string) {
    line != "" && line[0] == '\\'
  }

  datatype Line =
    | Git(path: string)
    | Marked(status: Status)
    | Renamed(to: Option<string>)
    | Binary
    | NewPath(path: string)
    | OldPath(path: string)
    | Orphan
    | Header
    | Body
    | Skip

  /** What a line is, given whether a file is open, whether it is binary and whether a hunk is open. */
  function LineOf(line: string, open: bool, binary: bool, inHunk: bool): Line {
    if "diff --git " <= line then Git(LastField(line[|"diff --git "|..]))
    else if open && "new file mode" <= line then Marked(Add)
    else if open && "deleted file mode" <= line then Marked(Delete)
    else if open && "rename from " <= line then Renamed(None)
    else if open && "rename to " <= line then Renamed(Some(TrimSpace(line[|"rename to "|..])))
    else if open && ("Binary files " <= line || line == "GIT binary patch") then Binary
    else if "+++ " <= line then NewPath(HeaderPath(line[4..]))
    else if "--- " <= line then OldPath(HeaderPath(line[4..]))
    else if "@@ " <= line then (if !open then Orphan else if binary then Skip else Header)
    else if inHunk && open && !binary then Body
    else Skip
  }

  /** The two paths of a "diff --git" line: its first and its last field. */
  function GitPaths(rest: string): (string, string) {
    var fields := Fields(rest);
    if |fields| < 2 then (if |fields| == 1 then (fields[0], "") else ("", ""))
    else (fields[0], fields[|fields| - 1])
  }

  /** Taking the second path, or the first where there is no second, takes the last field. */
  lemma GitPathIsLast(rest: string)
    ensures var (a, b) := GitPaths(rest); LastField(rest) == if b != "" then b else a
  {
    LastOfFields(rest);
  }

  const DEV_NULL := "/dev/null"
  const NO_FILE := FilePatch("", Modify, false, [])

  function WithNewPath(f: FilePatch, p: string): FilePatch {
    if p == DEV_NULL then f.(status := Delete) else if p == "" then f else f.(path := p)
  }

  function WithOldPath(f: FilePatch, p: string): FilePatch {
    if p == DEV_NULL then f.(status := Add) else if f.path == "" then f.(path := p) else f
  }

  function WithRename(f: FilePatch, to: Option<string>): FilePatch {
    f.(status := Rename, path := if to.Some? then to.value else f.path)
  }

  /** A body line as kept: an empty one stands for a space, a backslash line is a remark. */
  function WithBody(hunks: seq<RawHunk>, line: string): seq<RawHunk> {
    if hunks == [] || Remark(line) then hunks
    else
      var last := hunks[|hunks| - 1];
      hunks[..|hunks| - 1] + [last.(lines := last.lines + [if line == "" then " " else line])]
  }

  lemma BodyAppended(hunks: seq<RawHunk>, line: string)
    requires hunks != []
    ensures var next := WithBody(hunks, line);
            |next| == |hunks| && next[..|hunks| - 1] == hunks[..|hunks| - 1] &&
            next[|hunks| - 1].header == hunks[|hunks| - 1].header &&
            forall i :: 0 <= i < |hunks| ==> next[i].header == hunks[i].header
  {
  }

  // The whole text.

  predicate Named(f: FilePatch, rd: Reader) {
    f.path != "" && rd.canon(f.path).Some?
  }

  /** The open file is finished. */
  function Close(d: Doc): Doc {
    if d.cur.None? then d.(inHunk := false)
    else d.(done := d.done + [d.cur.value], cur := None, inHunk := false)
  }

  function Current(d: Doc): FilePatch {
    if d.cur.Some? then d.cur.value else NO_FILE
  }

  /** The document after a line of the given kind. */
  function Stepped(d: Doc, line: string, kind: Line): Doc {
    var f := Current(d);
    match kind
    case Git(path) => Close(d).(cur := Some(NO_FILE.(path := path)))
    case Marked(status) => d.(cur := Some(f.(status := status)))
    case Renamed(to) => d.(cur := Some(WithRename(f, to)), renamed := true)
    case Binary => d.(cur := Some(f.(binary := true)), inHunk := false)
    case NewPath(path) => d.(cur := Some(WithNewPath(f, path)))
    case OldPath(path) => d.(cur := Some(WithOldPath(f, path)))
    case Orphan => d.(orphan := true)
    case Header => d.(cur := Some(WithHunk(f, line)), inHunk := true)
    case Body => d.(cur := Some(f.(hunks := WithBody(f.hunks, line))))
    case Skip => d
  }

  function WithHunk(f: FilePatch, line: string): FilePatch {
    f.(hunks := f.hunks + [RawHunk(line, [])])
  }

  /** A hunk ends at the first line that cannot belong to its body. */
  function AtLine(d: Doc, line: string): Doc {
    d.(inHunk := d.inHunk && BodyLine(line))
  }

  function Next(d: Doc, line: string): Doc {
    var e := AtLine(d, line);
    Stepped(e, line, LineOf(line, e.cur.Some?, Current(e).binary, e.inHunk))
  }

  /** Kinds that a line can be only inside a file, or only inside a hunk. */
  predicate Fits(kind: Line, open: bool, inHunk: bool) {
    && (kind.Marked? || kind.Renamed? || kind.Binary? || kind.Header? ==> open)
    && (kind.Orphan? ==> !open)
    && (kind.Body? ==> open && inHunk)
    && (kind.Binary? ==> !inHunk)
  }

  lemma LineFits(line: string, open: bool, binary: bool, inHunk: bool)
    requires inHunk ==> BodyLine(line)
    ensures Fits(LineOf(line, open, binary, inHunk), open, inHunk)
  {
  }

  /** A diff as a document: a single reading that both consumers below are measured against. */
  function Read(lines: seq<string>): Doc {
    if lines == [] then Doc([], None, false, false, false)
    else Next(Read(lines[..|lines| - 1]), lines[|lines| - 1])
  }

  function Patches(lines: seq<string>): seq<FilePatch> {
    Close(Read(lines)).done
  }
}
