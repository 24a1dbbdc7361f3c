/** The candidate rewrite of a file: a diff of the first occurrence of a text (internal/rewrite/shop.go). */
module Candidates {
  import opened Base
  import opened TextLines
  import opened Strings
  import opened Hunks
  import opened DiffText
  import opened Unified
  import opened RoundTrip
  import opened Occurrences
  import DiffApply
  import Patching

  lemma WholePieces(pre: string, mid: seq<string>, post: string)
    requires Whole(pre) && Whole(post) && AllLines(mid)
    ensures SplitLines(pre + Unlines(mid) + post) == SplitLines(pre) + mid + SplitLines(post)
    ensures Unlines(SplitLines(pre) + mid + SplitLines(post)) == pre + Unlines(mid) + post
  {
    var a := WholeLines(pre);
    var b := WholeLines(post);
    UnlinesConcat(a, mid);
    UnlinesConcat(a + mid, b);
    LinesOfUnlines(a + mid + b);
  }

  /** On a line boundary of a file of whole lines, a printed hunk replaces the old lines by the new. */
  lemma WrittenPieces(pre: string, olds: seq<string>, news: seq<string>, post: string)
    requires Whole(pre) && Whole(post) && AllLines(olds) && AllLines(news) && news != []
    ensures Written(pre + Unlines(olds) + post, [Hunk(1 + Count(pre), Replacing(olds, news))]) == Ok(pre + Unlines(news) + post)
  {
    WholePieces(pre, olds, post);
    WholePieces(pre, news, post);
    CountWhole(pre);
    WrittenBlocks(pre + Unlines(olds) + post, SplitLines(pre), olds, news, SplitLines(post), 1 + Count(pre));
  }

  // The candidate.

  function CandidateText(rel: string, raw: string, idx: nat, oldText: string, newText: string): string
    requires idx <= |raw|
  {
    Unlines(DiffLines(rel, 1 + Count(raw[..idx]), Lines(oldText), Lines(newText)))
  }

  datatype CandidateError = NoCandidate | Unreadable

  /** The path itself, or the path under some directory. */
  predicate IsFile(path: string, want: string) {
    path == want || (|path| > |want| && path[|path| - |want| - 1..] == "/" + want)
  }

  /** Whether a rewrite of a file is asked for; no list asks for all. */
  method Touches(files: seq<string>, want: string) returns (r: bool)
    ensures r <==> files == [] || exists i :: 0 <= i < |files| && IsFile(files[i], want)
  {
    if |files| == 0 {
      return true;
    }
    for i := 0 to |files|
      invariant forall k :: 0 <= k < i ==> !IsFile(files[k], want)
    {
      if IsFile(files[i], want) {
        return true;
      }
    }
    r := false;
  }

  /** A diff of the first occurrence of the old text; none if the file is not asked for, cannot be read,
      lacks the old text or already has the new. */
  method Candidate(files: seq<string>, read: Option<string>, rel: string, oldText: string, newText: string)
    returns (r: Result<string, CandidateError>)
    ensures r.Ok? <==> (files == [] || exists i :: 0 <= i < |files| && IsFile(files[i], rel)) && read.Some? &&
                       Index(read.value, oldText).Some? && Index(read.value, newText).None?
    ensures r.Ok? ==> r.value == CandidateText(rel, read.value, Index(read.value, oldText).value, oldText, newText)
  {
    var asked := Touches(files, rel);
    if !asked {
      return Err(NoCandidate);
    }
    if read.None? {
      return Err(Unreadable);
    }
    var raw := read.value;
    var idx := Index(raw, oldText);
    if idx.None? {
      return Err(NoCandidate);
    }
    if Index(raw, newText).Some? {
      return Err(NoCandidate);
    }
    var diff := Print(rel, 1 + Count(raw[..idx.value]), oldText, newText);
    r := Ok(diff);
  }

  lemma PatchedBy(tree: Patching.Tree, text: string, rd: Reader, fs: seq<DiffApply.ApplyFile>)
    requires Patching.Accepted(Scan(text), rd) && DiffApply.CollectedAll(Patches(Scan(text)), rd) == fs
    ensures var done := Patching.Applied(tree, fs);
            Patching.Patched(tree, text, rd) == if done.1.None? then Some(done.0) else None
  {
  }

  lemma CandidateIsOneEdit(tree: Patching.Tree, text: string, rd: Reader, f: DiffApply.ApplyFile)
    requires Patching.Accepted(Scan(text), rd) && DiffApply.CollectedAll(Patches(Scan(text)), rd) == [f]
    requires f.path in tree && !f.binary && f.status == Modify
    ensures Patching.Patched(tree, text, rd) ==
            var w := Written(tree[f.path], f.hunks);
            if w.Ok? then Some(tree[f.path := w.value]) else None
  {
    PatchedBy(tree, text, rd, [f]);
    OneEdit(tree, f);
  }

  /** A printed diff does to the tree what its one hunk does to the file it names. */
  lemma PrintedOutcome(tree: Patching.Tree, rel: string, start: nat, olds: seq<string>, news: seq<string>, diff: string,
                       canon: string -> Option<string>, to: string, w: Result<string, ApplyError>)
    requires Printable(rel, olds, news) && start <= MAX_INT && diff == Unlines(DiffLines(rel, start, olds, news))
    requires canon(PrintedPath(rel)) == Some(to) && to in tree && w == Written(tree[to], [Hunk(start, Replacing(olds, news))])
    ensures Patching.Patched(tree, diff, Standard(canon)) == if w.Ok? then Some(tree[to := w.value]) else None
  {
    PrintedAccepted(rel, start, olds, news, canon);
    CandidateIsOneEdit(tree, diff, Standard(canon), Edit(to, start, olds, news));
  }

  /** A file after an occurrence of the old text is replaced, or nothing where the occurrence is not made
      of whole lines. */
  function Replaced(pre: string, oldText: string, newText: string, post: string): Option<string> {
    if OnLines(pre, oldText, post) then Some(pre + Terminated(newText) + Unlines(SplitLines(After(oldText, post)))) else None
  }

  function Placed(tree: Patching.Tree, to: string, text: Option<string>): Option<Patching.Tree> {
    if text.Some? then Some(tree[to := text.value]) else None
  }

  /** Printing, parsing and applying the replacement of an occurrence of the old text yields the text
      before it, the new text ended by a newline, and the text after it, if the occurrence begins a line
      and ends one, and is refused otherwise. */
  lemma PrintParseApply(tree: Patching.Tree, rel: string, pre: string, oldText: string, newText: string, post: string, diff: string,
                        canon: string -> Option<string>, to: string, raw: string)
    requires Printable(rel, Lines(oldText), Lines(newText)) && Count(pre) < MAX_INT
    requires raw == pre + oldText + post && (oldText == "" ==> pre == "")
    requires diff == Unlines(DiffLines(rel, 1 + Count(pre), Lines(oldText), Lines(newText)))
    requires canon(PrintedPath(rel)) == Some(to) && to in tree && tree[to] == raw
    ensures Patching.Patched(tree, diff, Standard(canon)) == Placed(tree, to, Replaced(pre, oldText, newText, post))
  {
    WrittenAtText(pre, oldText, newText, post, raw);
    var text := Replaced(pre, oldText, newText, post);
    PrintedOutcome(tree, rel, 1 + Count(pre), Lines(oldText), Lines(newText), diff, canon, to,
                   if text.Some? then Ok(text.value) else Err(Mismatch));
  }

  /** A file of whole lines keeps the text after the occurrence. */
  lemma WholeReplaced(pre: string, oldText: string, newText: string, post: string)
    requires Whole(pre) && EndsLine(oldText) && Whole(post)
    ensures Replaced(pre, oldText, newText, post) == Some(pre + Terminated(newText) + post)
  {
    UnlinesOfLines(post);
  }

  /** A candidate replaces exactly the first occurrence of the old text, if that occurrence begins a line
      and ends one, and otherwise is not applied. */
  lemma CandidateOutcome(tree: Patching.Tree, rel: string, raw: string, idx: nat, oldText: string, newText: string, diff: string,
                         canon: string -> Option<string>, to: string, pre: string, post: string)
    requires Printable(rel, Lines(oldText), Lines(newText)) && canon(PrintedPath(rel)) == Some(to) && to in tree && tree[to] == raw
    requires Index(raw, oldText) == Some(idx) && pre == raw[..idx] && post == raw[idx + |oldText|..] && Count(pre) < MAX_INT
    requires diff == CandidateText(rel, raw, idx, oldText, newText)
    ensures Patching.Patched(tree, diff, Standard(canon)) == Placed(tree, to, Replaced(pre, oldText, newText, post))
  {
    FirstOccurrence(raw, oldText, idx);
    PrintParseApply(tree, rel, pre, oldText, newText, post, diff, canon, to, raw);
  }

  lemma FirstOccurrence(raw: string, oldText: string, idx: nat)
    requires FirstAt(raw, oldText, idx)
    ensures raw == raw[..idx] + oldText + raw[idx + |oldText|..] && (oldText == "" ==> idx == 0)
  {
    assert oldText == "" ==> OccursAt(raw, oldText, 0);
  }

  /** What is meant by replacing lines of a text of whole lines. */
  ghost predicate Intended(raw: string, want: string, start: nat, olds: seq<string>, news: seq<string>) {
    exists pre, post :: Around(raw, want, start, olds, news, pre, post)
  }

  predicate Around(raw: string, want: string, start: nat, olds: seq<string>, news: seq<string>, pre: string, post: string) {
    Whole(pre) && Whole(post) && start == 1 + Count(pre) &&
    raw == pre + Unlines(olds) + post && want == pre + Unlines(news) + post
  }

  lemma IntendedWritten(raw: string, want: string, start: nat, olds: seq<string>, news: seq<string>)
    requires Intended(raw, want, start, olds, news) && AllLines(olds) && AllLines(news) && news != []
    ensures Written(raw, [Hunk(start, Replacing(olds, news))]) == Ok(want)
  {
    var pre, post :| Around(raw, want, start, olds, news, pre, post);
    WrittenPieces(pre, olds, news, post);
  }

  /** A printable replacement of whole lines, printed, parsed and applied, does what is meant. */
  lemma IntendedArrives(tree: Patching.Tree, rel: string, start: nat, olds: seq<string>, news: seq<string>, diff: string,
                        canon: string -> Option<string>, to: string, want: string)
    requires Printable(rel, olds, news) && start <= MAX_INT && news != []
    requires diff == Unlines(DiffLines(rel, start, olds, news))
    requires canon(PrintedPath(rel)) == Some(to) && to in tree && Intended(tree[to], want, start, olds, news)
    ensures Patching.Patched(tree, diff, Standard(canon)) == Some(tree[to := want])
  {
    IntendedWritten(tree[to], want, start, olds, news);
    PrintedOutcome(tree, rel, start, olds, news, diff, canon, to, Ok(want));
  }

  /** The new text arrives as it was given if and only if it ends a line; otherwise a newline is added. */
  lemma ArrivesAsGiven(pre: string, text: string, post: string)
    ensures pre + Terminated(text) + post == pre + text + post <==> EndsLine(text)
  {
    SameMiddle(pre, Terminated(text), text, post);
    TerminatedIs(text);
  }

  lemma SameMiddle(pre: string, a: string, b: string, post: string)
    ensures pre + a + post == pre + b + post <==> a == b
  {
    if pre + a + post == pre + b + post {
      assert |a| == |b|;
      assert (pre + a + post)[|pre|..|pre| + |a|] == a && (pre + b + post)[|pre|..|pre| + |b|] == b;
    }
  }
}
