/** The diff printer, and what applying a printed diff does (internal/rewrite/d1.go, internal/rewrite/shop.go). */
module Unified {
  import opened Base
  import opened Totals
  import opened Text
  import opened TextLines
  import opened Strings
  import opened DiffText

  function Marks(mark: char, ls: seq<string>): (r: seq<string>)
    ensures |r| == |ls| && forall i :: 0 <= i < |ls| ==> r[i] == [mark] + ls[i]
  {
    seq(|ls|, i requires 0 <= i < |ls| => [mark] + ls[i])
  }

  function HunkHeader(start: nat, olds: nat, news: nat): string {
    "@@ -" + Decimal(start) + "," + Decimal(olds) + " +" + Decimal(start) + "," + Decimal(news) + " @@"
  }

  function HeadLines(path: string, start: nat, olds: nat, news: nat): seq<string> {
    ["diff --git a/" + path + " b/" + path, "--- a/" + path, "+++ b/" + path, HunkHeader(start, olds, news)]
  }

  /** The body of a hunk that replaces some lines by others. */
  function Replacing(olds: seq<string>, news: seq<string>): seq<string> {
    Marks('-', olds) + Marks('+', news)
  }

  function DiffLines(path: string, start: nat, olds: seq<string>, news: seq<string>): seq<string> {
    HeadLines(path, start, |olds|, |news|) + Replacing(olds, news)
  }

  lemma UnlinesSnoc(ls: seq<string>, l: string)
    ensures Unlines(ls + [l]) == Unlines(ls) + l + [NL]
  {
    UnlinesConcat(ls, [l]);
    assert Unlines([l]) == l + [NL] + "";
  }

  lemma FourLines(a: string, b: string, c: string, d: string)
    ensures Unlines([a, b, c, d]) == a + [NL] + b + [NL] + c + [NL] + d + [NL]
  {
    UnlinesSnoc([a, b, c], d);
    UnlinesSnoc([a, b], c);
    UnlinesSnoc([a], b);
    UnlinesSnoc([], a);
    assert [a, b, c] + [d] == [a, b, c, d] && [a, b] + [c] == [a, b, c] && [a] + [b] == [a, b] && [] + [a] == [a];
  }

  /** One line of a body at a time. */
  method WriteMarked(mark: char, ls: seq<string>) returns (b: string)
    ensures b == Unlines(Marks(mark, ls))
  {
    b := "";
    for i := 0 to |ls|
      invariant b == Unlines(Marks(mark, ls)[..i])
    {
      UnlinesSnoc(Marks(mark, ls)[..i], Marks(mark, ls)[i]);
      assert Marks(mark, ls)[..i + 1] == Marks(mark, ls)[..i] + [Marks(mark, ls)[i]];
      assert b + ([mark] + ls[i]) == b + [mark] + ls[i];
      b := b + [mark];
      b := b + ls[i];
      b := b + [NL];
    }
    assert Marks(mark, ls)[..|ls|] == Marks(mark, ls);
  }

  method Print(path: string, start: nat, oldText: string, newText: string) returns (b: string)
    ensures b == Unlines(DiffLines(path, start, Split(Chomp(oldText)), Split(Chomp(newText))))
  {
    var olds, news := Split(Chomp(oldText)), Split(Chomp(newText));
    var head := HeadLines(path, start, |olds|, |news|);
    b := head[0] + [NL];
    b := b + head[1] + [NL];
    b := b + head[2] + [NL];
    b := b + head[3] + [NL];
    FourLines(head[0], head[1], head[2], head[3]);
    var minus := WriteMarked('-', olds);
    var plus := WriteMarked('+', news);
    UnlinesConcat(Marks('-', olds), Marks('+', news));
    UnlinesConcat(head, Replacing(olds, news));
    assert b + minus + plus == b + (minus + plus);
    b := b + minus + plus;
  }

  // Reading the header back.

  lemma OldStartOf(a: string, tail: string, n: nat)
    requires IsDigits(a) && Atoi(a) == Some(n)
    ensures OldStart("@@ -" + a + "," + tail) == Some(n)
  {
    var h := "@@ -" + a + "," + tail;
    FirstMinus(h);
    assert h[4..] == a + [','] + tail;
    UpToIs(a, ',', tail, " ,");
    assert h[4..][..|a|] == a;
  }

  lemma FirstMinus(h: string)
    requires "@@ -" <= h
    ensures Index(h, "-") == Some(3)
  {
    assert h[0] == '@' && h[1] == '@' && h[2] == ' ' && h[3] == '-';
    forall j: nat | j < 3
      ensures !OccursAt(h, "-", j)
    {
      assert h[j..j + 1][0] == h[j];
    }
    assert h[3..4] == "-";
    IndexIs(h, "-", 3);
  }

  lemma FirstNumberOf(a: string, b: string, n: nat)
    requires IsDigits(a) && IsDigits(b) && Atoi(a) == Some(n)
    ensures FirstNumber(a + "," + b + " @@") == Some(n)
  {
    var counts := a + [','] + b;
    var rest := counts + [' '] + "@@";
    assert a + "," + b + " @@" == rest;
    UpToIs(counts, ' ', "@@", " ");
    assert rest[..|counts|] == counts;
    TrimNothing(counts, c => c == ' ' || c == '@');
    UpToIs(a, ',', b, ",");
  }

  lemma FirstPlus(a: string, b: string, tail: string)
    requires IsDigits(a) && IsDigits(b)
    ensures var head := "@@ -" + a + "," + b; Index(head + " +" + tail, " +") == Some(|head|)
  {
    var head := "@@ -" + a + "," + b;
    var h := head + " +" + tail;
    assert h[|head|..|head| + 2] == " +";
    forall j: nat | j < |head|
      ensures !OccursAt(h, " +", j)
    {
      assert h[j] == head[j];
      assert h[3] == head[3] == '-';
      if j + 2 <= |h| {
        assert h[j..j + 2][0] == h[j] && h[j..j + 2][1] == h[j + 1];
      }
    }
    IndexIs(h, " +", |head|);
  }

  lemma HeaderForms(a: string, b: string, c: string)
    ensures var h := "@@ -" + a + "," + b + " +" + a + "," + c + " @@";
            h == "@@ -" + a + "," + (b + " +" + a + "," + c + " @@") &&
            h == ("@@ -" + a + "," + b) + " +" + (a + "," + c + " @@")
  {
  }

  lemma HeaderStarts(a: string, b: string, c: string, n: nat)
    requires IsDigits(a) && IsDigits(b) && IsDigits(c) && Atoi(a) == Some(n)
    ensures var h := "@@ -" + a + "," + b + " +" + a + "," + c + " @@";
            OldStart(h) == Some(n) && NewStart(h) == Some(n)
  {
    HeaderForms(a, b, c);
    OldStartOf(a, b + " +" + a + "," + c + " @@", n);
    var head, rest := "@@ -" + a + "," + b, a + "," + c + " @@";
    FirstPlus(a, b, rest);
    assert (head + " +" + rest)[|head| + 2..] == rest;
    FirstNumberOf(a, c, n);
  }

  /** Both starts of a printed header are the start it was printed with. */
  lemma StartsOfHeader(start: nat, olds: nat, news: nat)
    requires start <= MAX_INT
    ensures OldStart(HunkHeader(start, olds, news)) == Some(start)
    ensures NewStart(HunkHeader(start, olds, news)) == Some(start)
  {
    AtoiOfDecimal(start);
    HeaderStarts(Decimal(start), Decimal(olds), Decimal(news), start);
  }

  // Reading the lines back.

  predicate PlainBody(line: string) {
    line != "" && (line[0] == '-' || line[0] == '+') && !("--- " <= line) && !("+++ " <= line)
  }

  predicate AllPlain(body: seq<string>) {
    forall i :: 0 <= i < |body| ==> PlainBody(body[i])
  }

  lemma KindOfMark(line: string, open: bool, inHunk: bool)
    requires line != "" && (line[0] == '-' || line[0] == '+')
    ensures LineOf(line, open, false, inHunk) ==
            if "+++ " <= line then NewPath(HeaderPath(line[4..]))
            else if "--- " <= line then OldPath(HeaderPath(line[4..]))
            else if inHunk && open then Body
            else Skip
  {
  }

  function Lengthened(hunks: seq<RawHunk>, body: seq<string>): seq<RawHunk>
    requires hunks != []
  {
    var last := hunks[|hunks| - 1];
    hunks[..|hunks| - 1] + [last.(lines := last.lines + body)]
  }

  /** The document with its last hunk lengthened. */
  function Grown(d: Doc, body: seq<string>): Doc
    requires d.cur.Some? && d.cur.value.hunks != []
  {
    d.(cur := Some(d.cur.value.(hunks := Lengthened(d.cur.value.hunks, body))))
  }

  predicate Growing(d: Doc) {
    d.inHunk && d.cur.Some? && !d.cur.value.binary && d.cur.value.hunks != []
  }

  lemma BodyNext(d: Doc, body: seq<string>, line: string)
    requires PlainBody(line) && Growing(d)
    ensures Next(Grown(d, body), line) == Grown(d, body + [line])
  {
    KindOfMark(line, true, true);
    LengthenedOnce(d.cur.value.hunks, body, line);
  }

  lemma ReadGrown(lines: seq<string>, d: Doc, body: seq<string>, line: string)
    requires Growing(d) && Read(lines) == Grown(d, body) && PlainBody(line)
    ensures Read(lines + [line]) == Grown(d, body + [line])
  {
    BodyNext(d, body, line);
    assert (lines + [line])[..|lines|] == lines;
  }

  lemma ReadOneMore(head: seq<string>, d: Doc, init: seq<string>, x: string, body: seq<string>)
    requires Growing(d) && Read(head + init) == Grown(d, init) && PlainBody(x) && body == init + [x]
    ensures Read(head + body) == Grown(d, body)
  {
    ReadGrown(head + init, d, init, x);
    Regroup(head, init, [x]);
  }

  lemma ReadNothing(head: seq<string>, d: Doc)
    requires d == Read(head) && Growing(d)
    ensures Read(head + []) == Grown(d, [])
  {
    assert head + [] == head;
    GrownNothing(d);
  }

  lemma LastApart(body: seq<string>)
    requires body != [] && AllPlain(body)
    ensures var init, x := body[..|body| - 1], body[|body| - 1]; body == init + [x] && AllPlain(init) && PlainBody(x)
  {
  }

  lemma {:induction false} ReadBody(head: seq<string>, d: Doc, body: seq<string>)
    requires AllPlain(body) && d == Read(head) && Growing(d)
    ensures Read(head + body) == Grown(d, body)
    decreases |body|
  {
    if body == [] {
      ReadNothing(head, d);
    } else {
      LastApart(body);
      ReadBody(head, d, body[..|body| - 1]);
      ReadOneMore(head, d, body[..|body| - 1], body[|body| - 1], body);
    }
  }

  lemma GrownNothing(d: Doc)
    requires Growing(d)
    ensures Grown(d, []) == d
  {
    LengthenedNothing(d.cur.value.hunks);
  }

  lemma LengthenedNothing(hunks: seq<RawHunk>)
    requires hunks != []
    ensures Lengthened(hunks, []) == hunks
  {
    assert hunks[|hunks| - 1].lines + [] == hunks[|hunks| - 1].lines;
  }

  lemma LengthenedOnce(hunks: seq<RawHunk>, body: seq<string>, line: string)
    requires hunks != [] && PlainBody(line)
    ensures WithBody(Lengthened(hunks, body), line) == Lengthened(hunks, body + [line])
  {
    var more := Lengthened(hunks, body);
    var n := |hunks| - 1;
    assert more[..n] == hunks[..n] && more[n].lines + [line] == hunks[n].lines + (body + [line]);
  }

  lemma {:induction false} TrimRightKeepsHead(s: string, cut: char -> bool)
    requires s != "" && !cut(s[0])
    ensures TrimRight(s, cut) != "" && TrimRight(s, cut)[0] == s[0]
  {
    if cut(s[|s| - 1]) {
      TrimRightKeepsHead(s[..|s| - 1], cut);
    }
  }

  /** A path given with its a/ or b/ prefix is never empty nor the null device. */
  lemma HeaderPathKeepsHead(s: string)
    requires s != "" && !IsSpace(s[0])
    ensures HeaderPath(s) != "" && HeaderPath(s)[0] == s[0]
  {
    TrimRightKeepsHead(s, c => IsSpace(c));
    var t := TrimSpace(s);
    assert t != "" && t[0] == s[0];
    var u := UpTo(t, "\t");
    assert u != "" && u[0] == s[0];
  }

  /** The path a printed diff names. */
  function PrintedPath(path: string): string {
    HeaderPath("b/" + path)
  }

  lemma FirstLine(d: Doc, rest: string)
    requires d == Doc([], None, false, false, false)
    ensures Next(d, "diff --git " + rest) == d.(cur := Some(FilePatch(LastField(rest), Modify, false, [])))
  {
    assert ("diff --git " + rest)[|"diff --git "|..] == rest;
  }

  lemma SecondLine(d: Doc, path: string)
    requires d.cur.Some? && !d.inHunk && !d.cur.value.binary
    ensures exists q :: Next(d, "--- a/" + path) == d.(cur := Some(d.cur.value.(path := q)))
  {
    var line := "--- a/" + path;
    assert line[..4] == "--- " && line[4..] == "a/" + path;
    KindOfMark(line, true, false);
    HeaderPathKeepsHead("a/" + path);
    var f := d.cur.value;
    assert WithOldPath(f, HeaderPath("a/" + path)) == f.(path := WithOldPath(f, HeaderPath("a/" + path)).path);
  }

  lemma ThirdLine(d: Doc, path: string)
    requires d.cur.Some? && !d.inHunk && !d.cur.value.binary
    ensures Next(d, "+++ b/" + path) == d.(cur := Some(d.cur.value.(path := PrintedPath(path))))
  {
    var line := "+++ b/" + path;
    assert line[..4] == "+++ " && line[4..] == "b/" + path;
    KindOfMark(line, true, false);
    HeaderPathKeepsHead("b/" + path);
  }

  lemma FourthLine(d: Doc, h: string)
    requires d.cur.Some? && !d.inHunk && !d.cur.value.binary && "@@ " <= h
    ensures Next(d, h) == d.(cur := Some(WithHunk(d.cur.value, h)), inHunk := true)
  {
    assert h[0] == '@';
  }

  lemma ReadStep(lines: seq<string>, line: string, d: Doc, e: Doc)
    requires Read(lines) == d && Next(d, line) == e
    ensures Read(lines + [line]) == e
  {
    assert (lines + [line])[..|lines|] == lines;
  }

  /** A document with one open file and no hunk open in it. */
  function Opened(path: string, hunks: seq<RawHunk>, inHunk: bool): Doc {
    Doc([], Some(FilePatch(path, Modify, false, hunks)), inHunk, false, false)
  }

  lemma ReadOne(rest: string)
    ensures Read(["diff --git " + rest]) == Opened(LastField(rest), [], false)
  {
    var d := Doc([], None, false, false, false);
    FirstLine(d, rest);
    ReadStep([], "diff --git " + rest, d, Opened(LastField(rest), [], false));
    assert [] + ["diff --git " + rest] == ["diff --git " + rest];
  }

  lemma ReadTwo(a: string, q: string, path: string) returns (r: string)
    requires Read([a]) == Opened(q, [], false)
    ensures Read([a, "--- a/" + path]) == Opened(r, [], false)
  {
    SecondLine(Opened(q, [], false), path);
    r :| Next(Opened(q, [], false), "--- a/" + path) == Opened(q, [], false).(cur := Some(Opened(q, [], false).cur.value.(path := r)));
    ReadStep([a], "--- a/" + path, Opened(q, [], false), Opened(r, [], false));
    assert [a] + ["--- a/" + path] == [a, "--- a/" + path];
  }

  lemma ReadThree(a: string, b: string, q: string, path: string)
    requires Read([a, b]) == Opened(q, [], false)
    ensures Read([a, b, "+++ b/" + path]) == Opened(PrintedPath(path), [], false)
  {
    ThirdLine(Opened(q, [], false), path);
    ReadStep([a, b], "+++ b/" + path, Opened(q, [], false), Opened(PrintedPath(path), [], false));
    assert [a, b] + ["+++ b/" + path] == [a, b, "+++ b/" + path];
  }

  lemma ReadFour(a: string, b: string, c: string, q: string, h: string)
    requires Read([a, b, c]) == Opened(q, [], false) && "@@ " <= h
    ensures Read([a, b, c, h]) == Opened(q, [RawHunk(h, [])], true)
  {
    FourthLine(Opened(q, [], false), h);
    assert [] + [RawHunk(h, [])] == [RawHunk(h, [])];
    ReadStep([a, b, c], h, Opened(q, [], false), Opened(q, [RawHunk(h, [])], true));
    assert [a, b, c] + [h] == [a, b, c, h];
  }

  /** The four header lines open one file, to be modified, and one hunk. */
  lemma ReadHead(path: string, h: string)
    requires "@@ " <= h
    ensures Read(["diff --git a/" + path + " b/" + path, "--- a/" + path, "+++ b/" + path, h]) ==
            Opened(PrintedPath(path), [RawHunk(h, [])], true)
  {
    var a := "diff --git a/" + path + " b/" + path;
    var rest := "a/" + path + " b/" + path;
    assert a == "diff --git " + rest;
    ReadOne(rest);
    var r := ReadTwo(a, LastField(rest), path);
    ReadThree(a, "--- a/" + path, r, path);
    ReadFour(a, "--- a/" + path, "+++ b/" + path, PrintedPath(path), h);
  }
}
