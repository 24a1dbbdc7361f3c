/** Printing a replacement, then parsing and applying it (internal/rewrite, internal/diff). */
module RoundTrip {
  import opened Base
  import opened TextLines
  import opened Hunks
  import opened DiffText
  import opened Unified
  import DiffParse
  import DiffApply
  import Patching

  // The body of a printed hunk.

  lemma {:induction false} SidesConcat(a: seq<string>, b: seq<string>)
    ensures Old(a + b) == Old(a) + Old(b) && New(a + b) == New(a) + New(b)
    decreases |b|
  {
    if b == [] {
      assert a + b == a;
    } else {
      var n := |b| - 1;
      SidesConcat(a, b[..n]);
      assert (a + b)[..|a + b| - 1] == a + b[..n];
    }
  }

  lemma {:induction false} MinusSides(ls: seq<string>)
    ensures Old(Marks('-', ls)) == ls && New(Marks('-', ls)) == []
  {
    if ls != [] {
      var n := |ls| - 1;
      MinusSides(ls[..n]);
      assert Marks('-', ls)[..n] == Marks('-', ls[..n]);
      assert ([('-')] + ls[n])[1..] == ls[n];
    }
  }

  lemma {:induction false} PlusSides(ls: seq<string>)
    ensures Old(Marks('+', ls)) == [] && New(Marks('+', ls)) == ls
  {
    if ls != [] {
      var n := |ls| - 1;
      PlusSides(ls[..n]);
      assert Marks('+', ls)[..n] == Marks('+', ls[..n]);
      assert ([('+')] + ls[n])[1..] == ls[n];
    }
  }

  lemma ReplacingSides(olds: seq<string>, news: seq<string>)
    ensures Old(Replacing(olds, news)) == olds && New(Replacing(olds, news)) == news
  {
    SidesConcat(Marks('-', olds), Marks('+', news));
    MinusSides(olds);
    PlusSides(news);
  }

  // What may be printed and read back.

  predicate EndsCR(l: string) {
    l != "" && l[|l| - 1] == '\r'
  }

  /** No line would read back as something else: a removed line beginning "-- " and an added one
      beginning "++ " look like file headers, and a final carriage return is dropped. */
  predicate Printable(path: string, olds: seq<string>, news: seq<string>) {
    && OneLine(path) && !EndsCR(path) && AllLines(olds) && AllLines(news)
    && (forall i :: 0 <= i < |olds| ==> !("-- " <= olds[i]) && !EndsCR(olds[i]))
    && (forall i :: 0 <= i < |news| ==> !("++ " <= news[i]) && !EndsCR(news[i]))
  }

  lemma MinusIsBody(l: string)
    requires !("-- " <= l)
    ensures PlainBody("-" + l)
  {
    assert ("-" + l)[1..] == l;
  }

  lemma PlusIsBody(l: string)
    requires !("++ " <= l)
    ensures PlainBody("+" + l)
  {
    assert ("+" + l)[1..] == l;
  }

  lemma ReplacingIsBody(path: string, olds: seq<string>, news: seq<string>)
    requires Printable(path, olds, news)
    ensures AllPlain(Replacing(olds, news))
  {
    forall i | 0 <= i < |Replacing(olds, news)|
      ensures PlainBody(Replacing(olds, news)[i])
    {
      if i < |olds| {
        MinusIsBody(olds[i]);
      } else {
        PlusIsBody(news[i - |olds|]);
      }
    }
  }

  /** Lines without a final carriage return are scanned as they were written. */
  lemma ScanUnlines(ls: seq<string>)
    requires AllLines(ls) && forall i :: 0 <= i < |ls| ==> !EndsCR(ls[i])
    ensures Scan(Unlines(ls)) == ls
  {
    LinesOfUnlines(ls);
  }

  lemma HeadClean(path: string, start: nat, m: nat, n: nat)
    requires OneLine(path) && !EndsCR(path)
    ensures var head := HeadLines(path, start, m, n);
            AllLines(head) && forall i :: 0 <= i < |head| ==> !EndsCR(head[i])
  {
    HeaderClean(start, m, n);
    assert OneLine(HunkHeader(start, m, n));
  }

  lemma HeaderClean(start: nat, m: nat, n: nat)
    ensures OneLine(HunkHeader(start, m, n)) && !EndsCR(HunkHeader(start, m, n)) && "@@ " <= HunkHeader(start, m, n)
  {
    var h := HunkHeader(start, m, n);
    assert h[|h| - 1] == '@';
    assert h[..3] == "@@ ";
  }

  lemma BodyClean(path: string, olds: seq<string>, news: seq<string>)
    requires Printable(path, olds, news)
    ensures var body := Replacing(olds, news);
            AllLines(body) && forall i :: 0 <= i < |body| ==> !EndsCR(body[i])
  {
    var body := Replacing(olds, news);
    forall i | 0 <= i < |body|
      ensures OneLine(body[i]) && !EndsCR(body[i])
    {
      if i < |olds| {
        assert body[i] == "-" + olds[i];
      } else {
        assert body[i] == "+" + news[i - |olds|];
      }
    }
  }

  /** The document a printed diff reads as. */
  lemma PrintedReads(path: string, start: nat, olds: seq<string>, news: seq<string>)
    requires Printable(path, olds, news)
    ensures Scan(Unlines(DiffLines(path, start, olds, news))) == DiffLines(path, start, olds, news)
    ensures Read(DiffLines(path, start, olds, news)) ==
            Opened(PrintedPath(path), [RawHunk(HunkHeader(start, |olds|, |news|), Replacing(olds, news))], true)
  {
    var h := HunkHeader(start, |olds|, |news|);
    var head, body := HeadLines(path, start, |olds|, |news|), Replacing(olds, news);
    HeadClean(path, start, |olds|, |news|);
    BodyClean(path, olds, news);
    ScanUnlines(head + body);
    HeaderClean(start, |olds|, |news|);
    ReadHead(path, h);
    ReplacingIsBody(path, olds, news);
    ReadBody(head, Opened(PrintedPath(path), [RawHunk(h, [])], true), body);
    assert [] + body == body;
    assert Lengthened([RawHunk(h, [])], body) == [RawHunk(h, body)];
  }

  /** What a printed diff asks of the tree. */
  function Edit(to: string, start: nat, olds: seq<string>, news: seq<string>): DiffApply.ApplyFile {
    DiffApply.ApplyFile(to, Modify, false, [Hunk(start, Replacing(olds, news))])
  }

  lemma OneFileClosed(d: Doc, f: FilePatch)
    requires d.done == [] && d.cur == Some(f)
    ensures Close(d) == d.(done := [f], cur := None, inHunk := false)
  {
    assert [] + [f] == [f];
  }

  lemma OneFileSound(d: Doc, f: FilePatch, rd: Reader)
    requires d.done == [f] && d.cur.None? && !d.orphan && Named(f, rd) && |f.hunks| == 1 && DiffParse.HeadersGood(f, rd)
    ensures DiffParse.Sound(d, rd)
  {
    OneFile(f, rd);
  }

  lemma OneFileUsable(d: Doc, f: FilePatch, rd: Reader)
    requires d.done == [] && d.cur == Some(f) && !d.orphan && !d.renamed && DiffApply.OldHeadersGood(f, rd)
    ensures DiffApply.Usable(d, rd)
  {
  }

  lemma OneHunkSound(d: Doc, path: string, h: string, body: seq<string>, rd: Reader)
    requires d == Opened(path, [RawHunk(h, body)], true)
    requires path != "" && rd.canon(path).Some? && rd.oldStart(h).Some? && rd.newStart(h).Some?
    ensures Close(d).done == [FilePatch(path, Modify, false, [RawHunk(h, body)])]
    ensures DiffParse.Sound(Close(d), rd) && DiffApply.Usable(d, rd)
  {
    var f := FilePatch(path, Modify, false, [RawHunk(h, body)]);
    OneFileClosed(d, f);
    OneFileSound(Close(d), f, rd);
    OneFileUsable(d, f, rd);
  }

  /** One file with one readable hunk, under a valid path, is accepted as it stands. */
  lemma OneHunkAccepted(lines: seq<string>, path: string, h: string, body: seq<string>, rd: Reader)
    requires Read(lines) == Opened(path, [RawHunk(h, body)], true)
    requires path != "" && rd.canon(path).Some? && rd.oldStart(h).Some? && rd.newStart(h).Some?
    ensures Patching.Accepted(lines, rd)
    ensures DiffApply.CollectedAll(Patches(lines), rd) ==
            [DiffApply.ApplyFile(rd.canon(path).value, Modify, false, [Hunk(rd.oldStart(h).value, body)])]
  {
    OneHunkSound(Read(lines), path, h, body, rd);
    var f := FilePatch(path, Modify, false, [RawHunk(h, body)]);
    OneFile(f, rd);
    assert DiffApply.PlainHunks(f.hunks, rd) == [Hunk(rd.oldStart(h).value, body)];
  }

  lemma OneFile(f: FilePatch, rd: Reader)
    requires Named(f, rd)
    ensures DiffApply.CollectedAll([f], rd) == DiffApply.Collected(f, rd)
    ensures DiffParse.HunkCount([f]) == |f.hunks|
  {
    assert [f][..0] == [];
  }

  lemma PrintedAccepted(path: string, start: nat, olds: seq<string>, news: seq<string>, canon: string -> Option<string>)
    requires Printable(path, olds, news) && start <= MAX_INT && canon(PrintedPath(path)).Some?
    ensures var text := Unlines(DiffLines(path, start, olds, news));
            Patching.Accepted(Scan(text), Standard(canon)) &&
            DiffApply.CollectedAll(Patches(Scan(text)), Standard(canon)) ==
              [Edit(canon(PrintedPath(path)).value, start, olds, news)]
  {
    PrintedReads(path, start, olds, news);
    StartsOfHeader(start, |olds|, |news|);
    HeaderPathKeepsHead("b/" + path);
    OneHunkAccepted(DiffLines(path, start, olds, news), PrintedPath(path), HunkHeader(start, |olds|, |news|),
                    Replacing(olds, news), Standard(canon));
  }

  lemma OneEdit(tree: Patching.Tree, f: DiffApply.ApplyFile)
    ensures var r := Patching.FileResult(Patching.At(tree, f.path), f);
            Patching.Applied(tree, [f]) == if r.Err? then (tree, Some(r.error)) else (Patching.Put(tree, f.path, r.value), None)
  {
    assert [f][..0] == [];
  }

  lemma OneHunk(pre: seq<string>, body: seq<string>, post: seq<string>)
    ensures Outcome(pre + Old(body) + post, [Hunk(|pre| + 1, body)], 0) == Ok(pre + New(body) + post)
  {
    var orig, hunks, e := pre + Old(body) + post, [Hunk(|pre| + 1, body)], |pre| + |Old(body)|;
    assert orig[0..|pre|] == pre && orig[|pre|..e] == Old(body) && orig[e..] == post;
    assert hunks[1..] == [];
  }

  /** Replacing lines where they stand. */
  lemma ReplacesLines(pre: seq<string>, olds: seq<string>, news: seq<string>, post: seq<string>)
    ensures Outcome(pre + olds + post, [Hunk(|pre| + 1, Replacing(olds, news))], 0) == Ok(pre + news + post)
  {
    ReplacingSides(olds, news);
    OneHunk(pre, Replacing(olds, news), post);
  }

  // Texts.

  /** The lines of a text to be replaced; a final newline ends the last line. */
  function Lines(text: string): (r: seq<string>)
    ensures |r| >= 1 && AllLines(r)
  {
    Split(Chomp(text))
  }

  /** The text as lines, each ended by a newline. */
  function Terminated(text: string): string {
    Unlines(Lines(text))
  }

  predicate Whole(text: string) {
    text == "" || EndsLine(text)
  }

  /** Terminating adds a newline exactly where there is none. */
  lemma TerminatedIs(text: string)
    ensures Terminated(text) == if EndsLine(text) then text else text + [NL]
    ensures Terminated(text) == text <==> EndsLine(text)
  {
    JoinSplit(Chomp(text));
    JoinIsUnlines(Lines(text));
  }

  function Count(text: string): nat {
    if text == "" then 0 else (if text[0] == NL then 1 else 0) + Count(text[1..])
  }

  lemma {:induction false} CountConcat(a: string, b: string)
    ensures Count(a + b) == Count(a) + Count(b)
  {
    if a == "" {
      assert a + b == b;
    } else {
      CountConcat(a[1..], b);
      assert (a + b)[1..] == a[1..] + b;
    }
  }

  lemma {:induction false} CountOneLine(l: string)
    requires OneLine(l)
    ensures Count(l) == 0
  {
    if l != "" {
      CountOneLine(l[1..]);
    }
  }

  lemma {:induction false} CountUnlines(ls: seq<string>)
    requires AllLines(ls)
    ensures Count(Unlines(ls)) == |ls|
  {
    if ls != [] {
      CountUnlines(ls[1..]);
      CountConcat(ls[0] + [NL], Unlines(ls[1..]));
      CountConcat(ls[0], [NL]);
      CountOneLine(ls[0]);
      assert Count([NL]) == 1;
    }
  }
}
