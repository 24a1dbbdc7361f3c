/** Exactly which replacements survive being printed and read back (internal/rewrite/d1.go, internal/diff). */
module PrintExactly {
  import opened Base
  import opened Totals
  import opened TextLines
  import opened Hunks
  import opened DiffText
  import opened Unified
  import opened RoundTrip
  import opened Occurrences
  import opened Candidates
  import DiffApply
  import Patching

  // What a scanner and the header cases take from a body.

  function Uncarried(ls: seq<string>): (r: seq<string>)
    ensures |r| == |ls| && forall i :: 0 <= i < |ls| ==> r[i] == DropCR(ls[i])
  {
    seq(|ls|, i requires 0 <= i < |ls| => DropCR(ls[i]))
  }

  /** The lines that do not begin with p. */
  function Without(ls: seq<string>, p: string): seq<string> {
    if ls == [] then []
    else
      var init, l := Without(ls[..|ls| - 1], p), ls[|ls| - 1];
      if p <= l then init else init + [l]
  }

  /** How many lines begin with p. */
  function Beginning(ls: seq<string>, p: string): nat {
    if ls == [] then 0
    else Beginning(ls[..|ls| - 1], p) + if p <= ls[|ls| - 1] then 1 else 0
  }

  lemma {:induction false} BeginningConcat(a: seq<string>, b: seq<string>, p: string)
    ensures Beginning(a + b, p) == Beginning(a, p) + Beginning(b, p)
    decreases |b|
  {
    if b == [] {
      assert a + b == a;
    } else {
      BeginningConcat(a, b[..|b| - 1], p);
      assert (a + b)[..|a + b| - 1] == a + b[..|b| - 1];
    }
  }

  lemma BeginningSnoc(ls: seq<string>, l: string, p: string)
    ensures Beginning(ls + [l], p) == Beginning(ls, p) + if p <= l then 1 else 0
  {
    assert (ls + [l])[..|ls|] == ls;
  }

  lemma TwoBeginnings(p: string, q: string, l: string)
    requires |p| == |q| && p != q
    ensures !(p <= l && q <= l)
  {
    assert p <= l ==> p == l[..|p|];
  }

  lemma {:induction false} WithoutBegins(ls: seq<string>, p: string, q: string)
    requires |p| == |q| && p != q
    ensures Beginning(Without(ls, p), p) == 0 && Beginning(Without(ls, p), q) == Beginning(ls, q)
  {
    if ls != [] {
      var init, l := ls[..|ls| - 1], ls[|ls| - 1];
      WithoutBegins(init, p, q);
      TwoBeginnings(p, q, l);
      BeginningSnoc(Without(init, p), l, p);
      BeginningSnoc(Without(init, p), l, q);
    }
  }

  lemma {:induction false} WithoutNothing(ls: seq<string>, p: string)
    requires Beginning(ls, p) == 0
    ensures Without(ls, p) == ls
  {
    if ls != [] {
      WithoutNothing(ls[..|ls| - 1], p);
    }
  }

  lemma {:induction false} UncarriedBegins(ls: seq<string>, p: string)
    requires p != "" && !EndsCR(p)
    ensures Beginning(Uncarried(ls), p) == Beginning(ls, p)
  {
    if ls != [] {
      var n := |ls| - 1;
      UncarriedBegins(ls[..n], p);
      assert Uncarried(ls)[..n] == Uncarried(ls[..n]);
      DropCRBegins(ls[n], p);
    }
  }

  lemma DropCRBegins(l: string, p: string)
    requires p != "" && !EndsCR(p)
    ensures p <= DropCR(l) <==> p <= l
  {
    if p <= l && EndsCR(l) {
      assert |p| < |l| by {
        assert p[|p| - 1] == l[|p| - 1];
      }
    }
  }

  lemma {:induction false} NoneBegins(ls: seq<string>, p: string)
    requires Beginning(ls, p) == 0
    ensures forall i :: 0 <= i < |ls| ==> !(p <= ls[i])
  {
    if ls != [] {
      NoneBegins(ls[..|ls| - 1], p);
    }
  }

  /** The body kept for a printed replacement. */
  function Misread(olds: seq<string>, news: seq<string>): seq<string> {
    Replacing(Without(Uncarried(olds), "-- "), Without(Uncarried(news), "++ "))
  }

  // Counting lines across an edit.

  /** If an edit with some header-like lines lost gives what the whole edit should, none was lost. */
  lemma NoneLost(a: seq<string>, olds: seq<string>, news: seq<string>, b: seq<string>, rest: seq<string>)
    requires var olds2, news2 := Without(Uncarried(olds), "-- "), Without(Uncarried(news), "++ ");
             a + olds + b == a + olds2 + rest && a + news + b == a + news2 + rest
    ensures Beginning(olds, "-- ") == 0 && Beginning(news, "++ ") == 0
  {
    var olds2, news2 := Without(Uncarried(olds), "-- "), Without(Uncarried(news), "++ ");
    Balance(a, olds, b, olds2, rest, "-- ");
    Balance(a, news, b, news2, rest, "-- ");
    Balance(a, olds, b, olds2, rest, "++ ");
    Balance(a, news, b, news2, rest, "++ ");
    UncarriedBegins(olds, "-- ");
    UncarriedBegins(olds, "++ ");
    UncarriedBegins(news, "-- ");
    UncarriedBegins(news, "++ ");
    WithoutBegins(Uncarried(olds), "-- ", "++ ");
    WithoutBegins(Uncarried(news), "++ ", "-- ");
  }

  lemma Remaining(orig: seq<string>, at: nat, olds: seq<string>, news: seq<string>, out: seq<string>) returns (rest: seq<string>)
    requires at <= |orig| && Outcome(orig, [Hunk(at + 1, Replacing(olds, news))], 0) == Ok(out)
    ensures orig == orig[..at] + olds + rest && out == orig[..at] + news + rest
  {
    ReplacingSides(olds, news);
    var hunks := [Hunk(at + 1, Replacing(olds, news))];
    rest := orig[at + |olds|..];
    assert hunks[1..] == [];
    assert orig == orig[..at] + orig[at..at + |olds|] + rest;
    assert orig[0..at] == orig[..at];
  }

  lemma Balance(a: seq<string>, x: seq<string>, b: seq<string>, y: seq<string>, rest: seq<string>, p: string)
    requires a + x + b == a + y + rest
    ensures Beginning(x, p) + Beginning(b, p) == Beginning(y, p) + Beginning(rest, p)
  {
    BeginningConcat(a, x, p);
    BeginningConcat(a + x, b, p);
    BeginningConcat(a, y, p);
    BeginningConcat(a + y, rest, p);
  }

  lemma NothingDropped(a: seq<string>, olds: seq<string>, news: seq<string>, b: seq<string>, rest: seq<string>)
    requires var olds2, news2 := Without(Uncarried(olds), "-- "), Without(Uncarried(news), "++ ");
             a + olds + b == a + olds2 + rest && a + news + b == a + news2 + rest
    ensures Uncarried(olds) == olds && Uncarried(news) == news
  {
    NoneLost(a, olds, news, b, rest);
    UncarriedBegins(olds, "-- ");
    UncarriedBegins(news, "++ ");
    WithoutNothing(Uncarried(olds), "-- ");
    WithoutNothing(Uncarried(news), "++ ");
    SameStart(a, olds, b, Uncarried(olds), rest);
    SameStart(a, news, b, Uncarried(news), rest);
  }

  lemma SameStart(a: seq<string>, x: seq<string>, b: seq<string>, y: seq<string>, rest: seq<string>)
    requires a + x + b == a + y + rest && |x| == |y|
    ensures x == y
  {
    assert (a + x + b)[|a|..|a| + |x|] == x && (a + y + rest)[|a|..|a| + |y|] == y;
  }

  /** No removed line looks like the header of an old file, no added line like that of a new one, and
      none ends with a carriage return. */
  predicate Survive(olds: seq<string>, news: seq<string>) {
    && (forall i :: 0 <= i < |olds| ==> !("-- " <= olds[i]) && !EndsCR(olds[i]))
    && (forall i :: 0 <= i < |news| ==> !("++ " <= news[i]) && !EndsCR(news[i]))
  }

  lemma AppliedSurvive(a: seq<string>, olds: seq<string>, news: seq<string>, b: seq<string>)
    requires Outcome(a + olds + b, [Hunk(|a| + 1, Misread(olds, news))], 0) ==
             Ok(a + news + b)
    ensures Survive(olds, news)
  {
    var orig := a + olds + b;
    var rest := Remaining(orig, |a|, Without(Uncarried(olds), "-- "), Without(Uncarried(news), "++ "), a + news + b);
    assert orig[..|a|] == a;
    NoneLost(a, olds, news, b, rest);
    NothingDropped(a, olds, news, b, rest);
    NoneBegins(olds, "-- ");
    NoneBegins(news, "++ ");
    CarriesNone(olds);
    CarriesNone(news);
  }

  lemma CarriesNone(ls: seq<string>)
    requires Uncarried(ls) == ls
    ensures forall i :: 0 <= i < |ls| ==> !EndsCR(ls[i])
  {
    forall i | 0 <= i < |ls|
      ensures !EndsCR(ls[i])
    {
      assert ls[i] == DropCR(ls[i]);
    }
  }

  // Reading any printed body.

  predicate Marked(line: string) {
    line != "" && (line[0] == '-' || line[0] == '+')
  }

  function Plains(body: seq<string>): seq<string> {
    if body == [] then []
    else
      var init, l := Plains(body[..|body| - 1]), body[|body| - 1];
      if PlainBody(l) then init + [l] else init
  }

  lemma {:induction false} PlainsConcat(a: seq<string>, b: seq<string>)
    ensures Plains(a + b) == Plains(a) + Plains(b)
    decreases |b|
  {
    if b == [] {
      assert a + b == a;
    } else {
      PlainsConcat(a, b[..|b| - 1]);
      assert (a + b)[..|a + b| - 1] == a + b[..|b| - 1];
    }
  }

  lemma MarkedPlain(l: string)
    ensures PlainBody("-" + l) <==> !("-- " <= l)
    ensures PlainBody("+" + l) <==> !("++ " <= l)
  {
    if "-- " <= l {
      assert "-" + l == "--- " + l[3..];
    } else {
      MinusIsBody(l);
    }
    if "++ " <= l {
      assert "+" + l == "+++ " + l[3..];
    } else {
      PlusIsBody(l);
    }
  }

  lemma {:induction false} PlainMinus(ls: seq<string>)
    ensures Plains(Marks('-', ls)) == Marks('-', Without(ls, "-- "))
  {
    if ls != [] {
      var n := |ls| - 1;
      PlainMinus(ls[..n]);
      assert Marks('-', ls)[..n] == Marks('-', ls[..n]);
      MarkedPlain(ls[n]);
    }
  }

  lemma {:induction false} PlainPlus(ls: seq<string>)
    ensures Plains(Marks('+', ls)) == Marks('+', Without(ls, "++ "))
  {
    if ls != [] {
      var n := |ls| - 1;
      PlainPlus(ls[..n]);
      assert Marks('+', ls)[..n] == Marks('+', ls[..n]);
      MarkedPlain(ls[n]);
    }
  }

  lemma PlainReplacing(olds: seq<string>, news: seq<string>)
    ensures Plains(Replacing(olds, news)) == Replacing(Without(olds, "-- "), Without(news, "++ "))
  {
    PlainsConcat(Marks('-', olds), Marks('+', news));
    PlainMinus(olds);
    PlainPlus(news);
  }

  /** The same document but for the path and status of the open file and the end of its last hunk. */
  predicate Follows(d: Doc, e: Doc, body: seq<string>) {
    Growing(d) && Growing(e) && e == d.(cur := e.cur) && e.cur.value.hunks == Lengthened(d.cur.value.hunks, body)
  }

  lemma PlainNext(e: Doc, line: string)
    requires Growing(e) && PlainBody(line)
    ensures Next(e, line) == e.(cur := Some(e.cur.value.(hunks := WithBody(e.cur.value.hunks, line))))
  {
    KindOfMark(line, true, true);
  }

  function HeaderRead(f: FilePatch, line: string): (g: FilePatch)
    requires |line| >= 4
    ensures g.hunks == f.hunks && g.binary == f.binary
  {
    if "+++ " <= line then WithNewPath(f, HeaderPath(line[4..])) else WithOldPath(f, HeaderPath(line[4..]))
  }

  lemma HeaderNext(e: Doc, line: string)
    requires Growing(e) && Marked(line) && !PlainBody(line)
    ensures |line| >= 4 && Next(e, line) == e.(cur := Some(HeaderRead(e.cur.value, line)))
  {
    KindOfMark(line, true, true);
  }

  lemma MarkNext(d: Doc, e: Doc, body: seq<string>, line: string)
    requires Follows(d, e, body) && Marked(line)
    ensures Follows(d, Next(e, line), if PlainBody(line) then body + [line] else body)
  {
    if PlainBody(line) {
      LengthenedOnce(d.cur.value.hunks, body, line);
      PlainNext(e, line);
    } else {
      HeaderNext(e, line);
    }
  }

  lemma ReadMark(lines: seq<string>, line: string, d: Doc, body: seq<string>)
    requires Follows(d, Read(lines), body) && Marked(line)
    ensures Follows(d, Read(lines + [line]), if PlainBody(line) then body + [line] else body)
  {
    MarkNext(d, Read(lines), body, line);
    ReadStep(lines, line, Read(lines), Next(Read(lines), line));
  }

  lemma PlainsSnoc(body: seq<string>, x: string)
    ensures Plains(body + [x]) == if PlainBody(x) then Plains(body) + [x] else Plains(body)
  {
    assert (body + [x])[..|body|] == body;
  }

  lemma FollowsItself(d: Doc)
    requires Growing(d)
    ensures Follows(d, d, [])
  {
    LengthenedNothing(d.cur.value.hunks);
  }

  lemma {:induction false} ReadMarks(head: seq<string>, d: Doc, body: seq<string>)
    requires forall i :: 0 <= i < |body| ==> Marked(body[i])
    requires d == Read(head) && Growing(d)
    ensures Follows(d, Read(head + body), Plains(body))
    decreases |body|
  {
    if body == [] {
      assert head + body == head;
      FollowsItself(d);
    } else {
      var init, x := body[..|body| - 1], body[|body| - 1];
      ReadMarks(head, d, init);
      ReadMark(head + init, x, d, Plains(init));
      PlainsSnoc(init, x);
      Regroup(head, init, [x]);
      assert body == init + [x];
    }
  }

  // Printing, parsing and applying.

  lemma UncarriedConcat(a: seq<string>, b: seq<string>)
    ensures Uncarried(a + b) == Uncarried(a) + Uncarried(b)
  {
  }

  lemma UncarriedMarks(mark: char, ls: seq<string>)
    requires mark != '\r'
    ensures Uncarried(Marks(mark, ls)) == Marks(mark, Uncarried(ls))
  {
    forall i | 0 <= i < |ls|
      ensures DropCR([mark] + ls[i]) == [mark] + DropCR(ls[i])
    {
    }
  }

  lemma UncarriedClean(ls: seq<string>)
    requires forall i :: 0 <= i < |ls| ==> !EndsCR(ls[i])
    ensures Uncarried(ls) == ls
  {
  }

  lemma ScanPrinted(path: string, start: nat, olds: seq<string>, news: seq<string>)
    requires OneLine(path) && !EndsCR(path) && AllLines(olds) && AllLines(news)
    ensures Scan(Unlines(DiffLines(path, start, olds, news))) == DiffLines(path, start, Uncarried(olds), Uncarried(news))
  {
    var head, body := HeadLines(path, start, |olds|, |news|), Replacing(olds, news);
    HeadClean(path, start, |olds|, |news|);
    ReplacingLines(olds, news);
    LinesOfUnlines(head + body);
    UncarriedConcat(head, body);
    UncarriedClean(head);
    UncarriedConcat(Marks('-', olds), Marks('+', news));
    UncarriedMarks('-', olds);
    UncarriedMarks('+', news);
    assert Scan(Unlines(head + body)) == Uncarried(head + body);
  }

  /** The file and hunk a printed diff is read as, whatever its lines: the path or the status may be
      misread, and the hunk keeps only the lines that do not look like headers. */
  lemma PrintedReadsAs(path: string, start: nat, olds: seq<string>, news: seq<string>, diff: string) returns (f: FilePatch)
    requires OneLine(path) && !EndsCR(path) && AllLines(olds) && AllLines(news)
    requires diff == Unlines(DiffLines(path, start, olds, news))
    ensures Patches(Scan(diff)) == [f] && !f.binary
    ensures f.hunks == [RawHunk(HunkHeader(start, |olds|, |news|),
                                Misread(olds, news))]
  {
    ScanPrinted(path, start, olds, news);
    var h := HunkHeader(start, |olds|, |news|);
    HeaderClean(start, |olds|, |news|);
    f := PatchRead(path, h, HeadLines(path, start, |olds|, |news|), Replacing(Uncarried(olds), Uncarried(news)));
    PlainReplacing(Uncarried(olds), Uncarried(news));
  }

  lemma PatchRead(path: string, h: string, head: seq<string>, body: seq<string>) returns (f: FilePatch)
    requires "@@ " <= h && head == ["diff --git a/" + path + " b/" + path, "--- a/" + path, "+++ b/" + path, h]
    requires forall i :: 0 <= i < |body| ==> Marked(body[i])
    ensures Patches(head + body) == [f] && !f.binary && f.hunks == [RawHunk(h, Plains(body))]
  {
    ReadHead(path, h);
    var d := Opened(PrintedPath(path), [RawHunk(h, [])], true);
    ReadMarks(head, d, body);
    f := Read(head + body).cur.value;
    LengthenedFirst(h, Plains(body));
  }

  lemma LengthenedFirst(h: string, body: seq<string>)
    ensures Lengthened([RawHunk(h, [])], body) == [RawHunk(h, body)]
  {
    assert [] + body == body;
  }

  lemma {:induction false} WithoutLines(ls: seq<string>, p: string)
    requires AllLines(ls)
    ensures AllLines(Without(Uncarried(ls), p))
    ensures Without(Uncarried(ls), p) == [] && ls != [] && p != "" ==> |ls[|ls| - 1]| >= |p|
  {
    if ls != [] {
      var n := |ls| - 1;
      WithoutLines(ls[..n], p);
      assert Uncarried(ls)[..n] == Uncarried(ls[..n]);
    }
  }

  lemma ReplacingLines(olds: seq<string>, news: seq<string>)
    requires AllLines(olds) && AllLines(news)
    ensures AllLines(Replacing(olds, news))
  {
    var body := Replacing(olds, news);
    forall i | 0 <= i < |body|
      ensures OneLine(body[i])
    {
      assert body[i] == if i < |olds| then "-" + olds[i] else "+" + news[i - |olds|];
    }
  }

  lemma {:induction false} UnlinesAtLeast(ls: seq<string>, i: nat)
    requires i < |ls|
    ensures |Unlines(ls)| > |ls[i]|
  {
    if i > 0 {
      UnlinesAtLeast(ls[1..], i - 1);
    }
  }

  /** The file written is the one intended only if its lines are. */
  lemma WrittenLines(orig: seq<string>, hunks: seq<Hunk>, out: seq<string>, want: seq<string>)
    requires AllLines(orig) && Clean(hunks) && Outcome(orig, hunks, 0) == Ok(out)
    requires AllLines(want) && want != [] && out != [] && FileText(orig, out) == Unlines(want)
    ensures out == want
  {
    OutcomeAreLines(orig, hunks, 0);
    WrittenReadsBack(orig, out);
    LinesOfUnlines(out);
    LinesOfUnlines(want);
  }

  lemma WrittenSurvive(a: seq<string>, olds: seq<string>, news: seq<string>, b: seq<string>, out: seq<string>)
    requires AllLines(a) && AllLines(olds) && AllLines(news) && AllLines(b) && olds != [] && news != []
    requires Outcome(a + olds + b, [Hunk(|a| + 1, Misread(olds, news))], 0) == Ok(out)
    requires FileText(a + olds + b, out) == Unlines(a + news + b)
    ensures Survive(olds, news)
  {
    var olds2, news2 := Without(Uncarried(olds), "-- "), Without(Uncarried(news), "++ ");
    var rest := Remaining(a + olds + b, |a|, olds2, news2, out);
    WithoutLines(olds, "-- ");
    WithoutLines(news, "++ ");
    ReplacingLines(olds2, news2);
    UnlinesAtLeast(a + news + b, |a| + |news| - 1);
    assert out == [] ==> Join(out) == "";
    WrittenLines(a + olds + b, [Hunk(|a| + 1, Replacing(olds2, news2))], out, a + news + b);
    AppliedSurvive(a, olds, news, b);
  }

  lemma LinesSurvive(text: string, a: seq<string>, olds: seq<string>, news: seq<string>, b: seq<string>, start: nat, body: seq<string>)
    requires AllLines(a) && AllLines(olds) && AllLines(news) && AllLines(b) && olds != [] && news != []
    requires SplitLines(text) == a + olds + b && start == |a| + 1 && body == Misread(olds, news)
    requires Written(text, [Hunk(start, body)]) == Ok(Unlines(a + news + b))
    ensures Survive(olds, news)
  {
    WrittenSurvive(a, olds, news, b, Outcome(a + olds + b, [Hunk(start, body)], 0).value);
  }

  lemma TextSurvive(pre: string, olds: seq<string>, news: seq<string>, post: string, text: string, want: string, start: nat)
    requires Whole(pre) && Whole(post) && AllLines(olds) && AllLines(news) && olds != [] && news != []
    requires text == pre + Unlines(olds) + post && want == pre + Unlines(news) + post
    requires start == 1 + Count(pre) && Written(text, [Hunk(start, Misread(olds, news))]) == Ok(want)
    ensures Survive(olds, news)
  {
    WholePieces(pre, olds, post);
    WholePieces(pre, news, post);
    CountWhole(pre);
    LinesSurvive(text, SplitLines(pre), olds, news, SplitLines(post), start, Misread(olds, news));
  }

  /** Only an edit of the file itself can make the tree differ at that file alone. */
  lemma EditHits(tree: Patching.Tree, path: string, text: Option<string>, to: string, want: string)
    requires to in tree && tree[to] != want && Patching.Put(tree, path, text) == tree[to := want]
    ensures path == to && text == Some(want)
  {
    assert Patching.At(Patching.Put(tree, path, text), to) == Some(want);
  }

  lemma CollectedOne(f: FilePatch, h: string, body: seq<string>, start: nat, rd: Reader)
    requires Named(f, rd) && f.hunks == [RawHunk(h, body)] && rd.oldStart(h) == Some(start)
    ensures DiffApply.CollectedAll([f], rd) == [DiffApply.ApplyFile(rd.canon(f.path).value, f.status, f.binary, [Hunk(start, body)])]
  {
    OneFile(f, rd);
    assert DiffApply.PlainHunks(f.hunks, rd) == [Hunk(start, body)];
  }

  lemma PatchedHits(tree: Patching.Tree, diff: string, rd: Reader, f: FilePatch, h: string, body: seq<string>, start: nat,
                    to: string, want: string)
    requires Patches(Scan(diff)) == [f] && f.hunks == [RawHunk(h, body)] && rd.oldStart(h) == Some(start)
    requires to in tree && tree[to] != want && Patching.Patched(tree, diff, rd) == Some(tree[to := want])
    ensures Written(tree[to], [Hunk(start, body)]) == Ok(want)
  {
    assert Named(Close(Read(Scan(diff))).done[0], rd);
    CollectedOne(f, h, body, start, rd);
    var g := DiffApply.ApplyFile(rd.canon(f.path).value, f.status, f.binary, [Hunk(start, body)]);
    OneEdit(tree, g);
    EditHits(tree, g.path, Patching.FileResult(Patching.At(tree, g.path), g).value, to, want);
  }

  lemma PrintedHits(tree: Patching.Tree, rel: string, start: nat, olds: seq<string>, news: seq<string>, diff: string,
                    canon: string -> Option<string>, to: string, want: string)
    requires OneLine(rel) && !EndsCR(rel) && start <= MAX_INT && AllLines(olds) && AllLines(news)
    requires diff == Unlines(DiffLines(rel, start, olds, news))
    requires to in tree && tree[to] != want && Patching.Patched(tree, diff, Standard(canon)) == Some(tree[to := want])
    ensures Written(tree[to], [Hunk(start, Misread(olds, news))]) == Ok(want)
  {
    var h := HunkHeader(start, |olds|, |news|);
    var f := PrintedReadsAs(rel, start, olds, news, diff);
    StartsOfHeader(start, |olds|, |news|);
    PatchedHits(tree, diff, Standard(canon), f, h, Misread(olds, news), start, to, want);
  }

  lemma IntendedSurvive(raw: string, want: string, start: nat, olds: seq<string>, news: seq<string>)
    requires Intended(raw, want, start, olds, news) && AllLines(olds) && AllLines(news) && olds != [] && news != []
    requires Written(raw, [Hunk(start, Misread(olds, news))]) == Ok(want)
    ensures Survive(olds, news)
  {
    var pre, post :| Around(raw, want, start, olds, news, pre, post);
    TextSurvive(pre, olds, news, post, raw, want, start);
  }

  lemma OnlySurvivors(tree: Patching.Tree, rel: string, start: nat, olds: seq<string>, news: seq<string>, diff: string,
                      canon: string -> Option<string>, to: string, want: string)
    requires OneLine(rel) && !EndsCR(rel) && start <= MAX_INT && AllLines(olds) && AllLines(news) && olds != [] && news != []
    requires diff == Unlines(DiffLines(rel, start, olds, news))
    requires to in tree && tree[to] != want && Intended(tree[to], want, start, olds, news)
    requires Patching.Patched(tree, diff, Standard(canon)) == Some(tree[to := want])
    ensures Survive(olds, news)
  {
    PrintedHits(tree, rel, start, olds, news, diff, canon, to, want);
    IntendedSurvive(tree[to], want, start, olds, news);
  }

  /** For a replacement that changes a file of whole lines, printing, parsing and applying it gives the
      intended file if and only if every line survives the diff format. */
  lemma SurvivesExactly(tree: Patching.Tree, rel: string, start: nat, olds: seq<string>, news: seq<string>, diff: string,
                        canon: string -> Option<string>, to: string, want: string)
    requires OneLine(rel) && !EndsCR(rel) && start <= MAX_INT && AllLines(olds) && AllLines(news) && olds != [] && news != []
    requires diff == Unlines(DiffLines(rel, start, olds, news))
    requires canon(PrintedPath(rel)) == Some(to) && to in tree && tree[to] != want
    requires Intended(tree[to], want, start, olds, news)
    ensures Patching.Patched(tree, diff, Standard(canon)) == Some(tree[to := want]) <==> Survive(olds, news)
  {
    if Survive(olds, news) {
      IntendedArrives(tree, rel, start, olds, news, diff, canon, to, want);
    } else if Patching.Patched(tree, diff, Standard(canon)) == Some(tree[to := want]) {
      OnlySurvivors(tree, rel, start, olds, news, diff, canon, to, want);
    }
  }
}
