/** From changed lines to classified changes (internal/impact/analyze.go, internal/impact/files.go). */
module Impact {
  import opened Base
  import opened EvidenceTypes
  import opened Text
  import opened Sorting
  import opened Totals

  const MAX_FINDINGS: nat := 500
  const CHANGED_LINES := "changed_lines"

  datatype FileNode = FileNode(id: string, name: string)

  datatype FuncNode = FuncNode(id: string, name: string, file: string, line: int, endLine: int)

  /** Source files and, per file, its functions in order of their first line. */
  datatype Index = Index(files: map<string, FileNode>, funcs: map<string, seq<FuncNode>>)

  datatype ChangedFile = ChangedFile(path: string, binary: bool, lines: seq<int>)

  datatype Finding = Finding(name: string, file: string, sourceId: string, line: int, reason: string)

  datatype Hit = Hit(fn: FuncNode, line: int)

  function FuncsOf(idx: Index, path: string): seq<FuncNode> {
    if path in idx.funcs then idx.funcs[path] else []
  }

  /** Functions are listed under the file they are declared in. */
  predicate Filed(idx: Index) {
    forall p, i :: p in idx.funcs && 0 <= i < |idx.funcs[p]| ==> idx.funcs[p][i].file == p
  }

  // Function spans.

  /** One past the last line of a function: its recorded end, else the next function, else no bound. */
  function SpanEnd(funcs: seq<FuncNode>, i: nat): int
    requires i < |funcs|
  {
    if funcs[i].endLine >= funcs[i].line && funcs[i].endLine > 0 then funcs[i].endLine + 1
    else if i + 1 < |funcs| then funcs[i + 1].line
    else MAX_INT
  }

  predicate InSpan(funcs: seq<FuncNode>, i: nat, ln: int)
    requires i < |funcs|
  {
    funcs[i].line <= ln < SpanEnd(funcs, i)
  }

  predicate Inside(funcs: seq<FuncNode>, ln: int) {
    exists i :: 0 <= i < |funcs| && InSpan(funcs, i, ln)
  }

  predicate AllInside(funcs: seq<FuncNode>, lines: seq<int>) {
    forall k :: 0 <= k < |lines| ==> Inside(funcs, lines[k])
  }

  /** The first function whose span holds the line, or -1. */
  function FirstSpan(funcs: seq<FuncNode>, ln: int, from: nat): (i: int)
    requires from <= |funcs|
    ensures i == -1 || from <= i < |funcs|
    ensures i >= 0 ==> InSpan(funcs, i, ln) && forall k :: from <= k < i ==> !InSpan(funcs, k, ln)
    ensures i == -1 ==> forall k :: from <= k < |funcs| ==> !InSpan(funcs, k, ln)
    decreases |funcs| - from
  {
    if from == |funcs| then -1
    else if InSpan(funcs, from, ln) then from
    else FirstSpan(funcs, ln, from + 1)
  }

  predicate Seen(hits: seq<Hit>, id: string) {
    exists i :: 0 <= i < |hits| && hits[i].fn.id == id
  }

  /** Each function hit by a line, once, with the first line that hit it. */
  function Hits(funcs: seq<FuncNode>, lines: seq<int>): (hits: seq<Hit>)
    ensures forall h :: h in hits ==> h.fn in funcs
  {
    if lines == [] then []
    else
      var earlier, ln := Hits(funcs, lines[..|lines| - 1]), lines[|lines| - 1];
      var i := FirstSpan(funcs, ln, 0);
      if i < 0 || Seen(earlier, funcs[i].id) then earlier else earlier + [Hit(funcs[i], ln)]
  }

  lemma {:induction false} HitsNeedLines(funcs: seq<FuncNode>, lines: seq<int>)
    ensures Hits(funcs, lines) != [] ==> lines != []
    ensures AllInside(funcs, lines) && lines != [] ==> Hits(funcs, lines) != []
  {
    if lines != [] {
      HitsNeedLines(funcs, lines[..|lines| - 1]);
      assert AllInside(funcs, lines) ==> Inside(funcs, lines[|lines| - 1]);
    }
  }

  method SpanEnds(funcs: seq<FuncNode>) returns (ends: seq<int>)
    ensures |ends| == |funcs| && forall i :: 0 <= i < |funcs| ==> ends[i] == SpanEnd(funcs, i)
  {
    ends := [];
    for i := 0 to |funcs|
      invariant |ends| == i && forall k :: 0 <= k < i ==> ends[k] == SpanEnd(funcs, k)
    {
      var end := MAX_INT;
      if funcs[i].endLine >= funcs[i].line && funcs[i].endLine > 0 {
        end := funcs[i].endLine + 1;
      } else if i + 1 < |funcs| {
        end := funcs[i + 1].line;
      }
      ends := ends + [end];
    }
  }

  /** The functions the changed lines fall into, and whether some line falls into none. */
  method OverlappingFuncs(funcs: seq<FuncNode>, lines: seq<int>) returns (hits: seq<Hit>, outside: bool)
    ensures hits == Hits(funcs, lines)
    ensures outside <==> !AllInside(funcs, lines)
  {
    if |funcs| == 0 || |lines| == 0 {
      NoFuncsNoHits(funcs, lines);
      return [], |lines| > 0;
    }
    var ends := SpanEnds(funcs);
    var seen: set<string> := {};
    hits, outside := [], false;
    for k := 0 to |lines|
      invariant hits == Hits(funcs, lines[..k])
      invariant forall id :: id in seen <==> Seen(hits, id)
      invariant outside <==> exists m :: 0 <= m < k && !Inside(funcs, lines[m])
    {
      assert lines[..k + 1][..k] == lines[..k];
      var ln := lines[k];
      var i := 0;
      while i < |funcs| && (ln < funcs[i].line || ln >= ends[i])
        invariant 0 <= i <= |funcs|
        invariant forall m :: 0 <= m < i ==> !InSpan(funcs, m, ln)
      {
        i := i + 1;
      }
      FirstSpanIs(funcs, ln, i);
      if i == |funcs| {
        outside := true;
      } else if funcs[i].id !in seen {
        assert InSpan(funcs, i, ln);
        ghost var before := hits;
        hits := hits + [Hit(funcs[i], ln)];
        SeenGrows(before, Hit(funcs[i], ln));
        seen := seen + {funcs[i].id};
      }
    }
    assert lines[..|lines|] == lines;
  }

  lemma SeenGrows(hits: seq<Hit>, h: Hit)
    ensures forall id :: Seen(hits + [h], id) <==> Seen(hits, id) || h.fn.id == id
  {
    var more := hits + [h];
    forall id
      ensures Seen(more, id) <==> Seen(hits, id) || h.fn.id == id
    {
      if Seen(hits, id) {
        var i :| 0 <= i < |hits| && hits[i].fn.id == id;
        assert more[i].fn.id == id;
      }
      assert more[|hits|] == h;
      if Seen(more, id) {
        var i :| 0 <= i < |more| && more[i].fn.id == id;
        assert i < |hits| ==> hits[i].fn.id == id;
      }
    }
  }

  lemma FirstSpanIs(funcs: seq<FuncNode>, ln: int, i: nat)
    requires i <= |funcs| && (forall k :: 0 <= k < i ==> !InSpan(funcs, k, ln)) && (i < |funcs| ==> InSpan(funcs, i, ln))
    ensures FirstSpan(funcs, ln, 0) == if i < |funcs| then i else -1
  {
  }

  lemma {:induction false} NoFuncsNoHits(funcs: seq<FuncNode>, lines: seq<int>)
    requires funcs == [] || lines == []
    ensures Hits(funcs, lines) == [] && (AllInside(funcs, lines) <==> lines == [])
  {
    if lines != [] {
      NoFuncsNoHits(funcs, lines[..|lines| - 1]);
      assert !Inside(funcs, lines[0]);
    }
  }

  // Direct findings.

  function HitFinding(h: Hit): Finding {
    Finding(h.fn.name, h.fn.file, h.fn.id, h.line, CHANGED_LINES)
  }

  function FileFinding(path: string, node: FileNode, reason: string): Finding {
    Finding(node.name, path, node.id, 0, reason)
  }

  function OutsideFindings(path: string, node: FileNode, inside: bool): seq<Finding> {
    if inside then [] else [FileFinding(path, node, "changed_outside_func")]
  }

  function HitFindings(path: string, node: FileNode, hits: seq<Hit>): seq<Finding> {
    if hits == [] then [FileFinding(path, node, "changed_file")]
    else seq(|hits|, i requires 0 <= i < |hits| => HitFinding(hits[i]))
  }

  /** What one changed file contributes, in order. */
  function FindingsOf(idx: Index, f: ChangedFile): seq<Finding> {
    if f.path !in idx.files then []
    else if f.binary then [FileFinding(f.path, idx.files[f.path], "binary")]
    else
      var node := idx.files[f.path];
      var funcs := FuncsOf(idx, f.path);
      OutsideFindings(f.path, node, AllInside(funcs, f.lines)) + HitFindings(f.path, node, Hits(funcs, f.lines))
  }

  function Findings(idx: Index): ChangedFile -> seq<Finding> {
    (f: ChangedFile) => FindingsOf(idx, f)
  }

  function Capped(fs: seq<Finding>): seq<Finding> {
    if |fs| <= MAX_FINDINGS then fs else fs[..MAX_FINDINGS]
  }

  function AppendFinding(dst: seq<Finding>, f: Finding): seq<Finding> {
    if |dst| >= MAX_FINDINGS then dst else dst + [f]
  }

  lemma CappedAppend(fs: seq<Finding>, f: Finding)
    ensures AppendFinding(Capped(fs), f) == Capped(fs + [f])
  {
    if |fs| >= MAX_FINDINGS {
      assert (fs + [f])[..MAX_FINDINGS] == fs[..MAX_FINDINGS];
    }
  }

  method AppendHits(path: string, node: FileNode, hits: seq<Hit>, direct0: seq<Finding>, ghost all: seq<Finding>)
    returns (direct: seq<Finding>)
    requires direct0 == Capped(all)
    ensures direct == Capped(all + HitFindings(path, node, hits))
  {
    direct := direct0;
    if |hits| == 0 {
      CappedAppend(all, FileFinding(path, node, "changed_file"));
      direct := AppendFinding(direct, FileFinding(path, node, "changed_file"));
      return;
    }
    ghost var found := HitFindings(path, node, hits);
    for i := 0 to |hits|
      invariant direct == Capped(all + found[..i])
    {
      CappedAppend(all + found[..i], found[i]);
      assert all + found[..i] + [found[i]] == all + found[..i + 1];
      direct := AppendFinding(direct, HitFinding(hits[i]));
    }
    assert found[..|hits|] == found;
  }

  method FileDirect(idx: Index, f: ChangedFile, direct0: seq<Finding>, ghost all: seq<Finding>) returns (direct: seq<Finding>)
    requires direct0 == Capped(all)
    ensures direct == Capped(all + FindingsOf(idx, f))
  {
    direct := direct0;
    if f.path !in idx.files {
      assert all + [] == all;
      return;
    }
    var node := idx.files[f.path];
    if f.binary {
      CappedAppend(all, FileFinding(f.path, node, "binary"));
      direct := AppendFinding(direct, FileFinding(f.path, node, "binary"));
      return;
    }
    var hits, outside := OverlappingFuncs(FuncsOf(idx, f.path), f.lines);
    ghost var first := OutsideFindings(f.path, node, !outside);
    if outside {
      CappedAppend(all, FileFinding(f.path, node, "changed_outside_func"));
      direct := AppendFinding(direct, FileFinding(f.path, node, "changed_outside_func"));
    } else {
      assert all + first == all;
    }
    direct := AppendHits(f.path, node, hits, direct, all + first);
    Regroup(all, first, HitFindings(f.path, node, hits));
  }

  /** The paths of the files, once each. */
  ghost predicate Listed(paths: seq<string>, files: seq<ChangedFile>) {
    NoDuplicates(paths) && forall p :: p in paths <==> exists i :: 0 <= i < |files| && files[i].path == p
  }

  lemma ListedMore(paths: seq<string>, files: seq<ChangedFile>, i: nat)
    requires i < |files| && Listed(paths, files[..i])
    ensures Listed(if files[i].path in paths then paths else paths + [files[i].path], files[..i + 1])
  {
    var more := files[..i + 1];
    assert more == files[..i] + [files[i]];
    assert more[i].path == files[i].path && forall k :: 0 <= k < i ==> more[k].path == files[..i][k].path;
  }

  /** The changed paths, once each, and the findings of the changed files in order, cut off at the cap. */
  method Direct(idx: Index, files: seq<ChangedFile>) returns (paths: seq<string>, direct: seq<Finding>)
    ensures Listed(paths, files)
    ensures direct == Capped(Gather(files, Findings(idx)))
  {
    paths, direct := [], [];
    for i := 0 to |files|
      invariant Listed(paths, files[..i])
      invariant direct == Capped(Gather(files[..i], Findings(idx)))
    {
      GatherTake(files, i, Findings(idx));
      ListedMore(paths, files, i);
      if files[i].path !in paths {
        paths := paths + [files[i].path];
      }
      direct := FileDirect(idx, files[i], direct, Gather(files[..i], Findings(idx)));
    }
    assert files[..|files|] == files;
  }

  // Classification.

  predicate Binds(f: Finding) {
    f.reason == CHANGED_LINES && f.sourceId != ""
  }

  /** Every direct finding about the path, and there is one, binds changed lines of a function. */
  predicate Analyzed(direct: seq<Finding>, p: string) {
    && (exists i :: 0 <= i < |direct| && direct[i].file == p)
    && (forall i :: 0 <= i < |direct| && direct[i].file == p ==> Binds(direct[i]))
  }

  predicate Unknown(inert: string -> bool, paths: seq<string>, direct: seq<Finding>, p: string) {
    p in paths && !inert(p) && !Analyzed(direct, p)
  }

  predicate Bound(inert: string -> bool, paths: seq<string>, direct: seq<Finding>, id: string) {
    exists i :: 0 <= i < |direct| && direct[i].sourceId == id && direct[i].file in paths && !inert(direct[i].file) &&
      Analyzed(direct, direct[i].file)
  }

  lemma AtMostIsTotal()
    ensures TotalOrder(AtMost)
  {
    forall a: string, b: string
      ensures AtMost(a, b) || AtMost(b, a)
      ensures AtMost(a, b) && AtMost(b, a) ==> a == b
    {
      AtMostOrder(a, b);
    }
    forall a: string, b: string, c: string | AtMost(a, b) && AtMost(b, c)
      ensures AtMost(a, c)
    {
      AtMostTransitive(a, b, c);
    }
  }

  method SortedList(s: set<string>) returns (xs: seq<string>)
    ensures NoDuplicates(xs) && Ascending(xs, AtMost) && forall x :: x in xs <==> x in s
  {
    xs := [];
    var todo := s;
    while todo != {}
      invariant todo <= s && NoDuplicates(xs) && forall x :: x in xs <==> x in s && x !in todo
    {
      var x :| x in todo;
      xs := xs + [x];
      todo := todo - {x};
    }
    AtMostIsTotal();
    SortAscending(xs, AtMost);
    SortedKeepsDistinct(xs);
    SameMembers(Sort(xs, AtMost), xs);
    xs := Sort(xs, AtMost);
  }

  lemma SortedKeepsDistinct(xs: seq<string>)
    requires NoDuplicates(xs)
    ensures NoDuplicates(Sort(xs, AtMost))
  {
    var ys := Sort(xs, AtMost);
    forall i, k | 0 <= i < k < |ys|
      ensures ys[i] != ys[k]
    {
      NoDuplicatesCount(xs, ys[i]);
      Twice(ys, i, k);
    }
  }

  method ClassifyPath(direct: seq<Finding>, p: string) returns (ids: set<string>, analyzed: bool)
    ensures analyzed == Analyzed(direct, p)
    ensures forall id :: id in ids <==> exists i :: 0 <= i < |direct| && direct[i].file == p && direct[i].sourceId == id
  {
    ids := {};
    analyzed := true;
    for i := 0 to |direct|
      invariant analyzed <==> forall k :: 0 <= k < i && direct[k].file == p ==> Binds(direct[k])
      invariant forall id :: id in ids <==> exists k :: 0 <= k < i && direct[k].file == p && direct[k].sourceId == id
      invariant ids == {} <==> forall k :: 0 <= k < i ==> direct[k].file != p
    {
      var f := direct[i];
      if f.file != p {
        continue;
      }
      if f.reason != CHANGED_LINES || f.sourceId == "" {
        analyzed := false;
      }
      ids := ids + {f.sourceId};
    }
    analyzed := analyzed && ids != {};
  }

  method Classify(inert: string -> bool, paths: seq<string>, direct: seq<Finding>) returns (c: Changes)
    ensures forall p :: p in c.unanalyzed <==> Unknown(inert, paths, direct, p)
    ensures forall id :: id in c.bound <==> Bound(inert, paths, direct, id)
    ensures Ascending(c.bound, AtMost) && Ascending(c.unanalyzed, AtMost)
  {
    var bound: set<string>, unknown: set<string> := {}, {};
    for i := 0 to |paths|
      invariant forall p :: p in unknown <==> Unknown(inert, paths[..i], direct, p)
      invariant forall id :: id in bound <==> Bound(inert, paths[..i], direct, id)
    {
      var p := paths[i];
      PathsGrow(inert, paths, i, direct);
      if inert(p) {
        continue;
      }
      var ids, analyzed := ClassifyPath(direct, p);
      if !analyzed {
        unknown := unknown + {p};
        continue;
      }
      bound := bound + ids;
    }
    assert paths[..|paths|] == paths;
    var bs := SortedList(bound);
    var us := SortedList(unknown);
    c := Changes(bs, us);
  }

  predicate BoundBy(inert: string -> bool, direct: seq<Finding>, p: string, id: string) {
    !inert(p) && Analyzed(direct, p) && exists i :: 0 <= i < |direct| && direct[i].file == p && direct[i].sourceId == id
  }

  lemma PathsGrow(inert: string -> bool, paths: seq<string>, i: nat, direct: seq<Finding>)
    requires i < |paths|
    ensures forall p :: Unknown(inert, paths[..i + 1], direct, p) <==>
              (Unknown(inert, paths[..i], direct, p) || (p == paths[i] && !inert(p) && !Analyzed(direct, p)))
    ensures forall id :: Bound(inert, paths[..i + 1], direct, id) <==>
              (Bound(inert, paths[..i], direct, id) || BoundBy(inert, direct, paths[i], id))
  {
    assert paths[..i + 1] == paths[..i] + [paths[i]];
  }
}
