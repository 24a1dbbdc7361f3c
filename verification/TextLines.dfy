/** Text and its lines. */
module TextLines {
  const NL := '\n'

  predicate OneLine(s: string) {
    NL !in s
  }

  predicate AllLines(ls: seq<string>) {
    forall i :: 0 <= i < |ls| ==> OneLine(ls[i])
  }

  /** The pieces between newlines; never empty. */
  function Split(s: string): (ls: seq<string>)
    ensures |ls| >= 1 && AllLines(ls)
  {
    if s == "" then [""]
    else
      var rest := Split(s[1..]);
      if s[0] == NL then [""] + rest else [[s[0]] + rest[0]] + rest[1..]
  }

  function Join(ls: seq<string>): string {
    if ls == [] then ""
    else if |ls| == 1 then ls[0]
    else ls[0] + [NL] + Join(ls[1..])
  }

  /** Every line followed by a newline. */
  function Unlines(ls: seq<string>): string {
    if ls == [] then "" else ls[0] + [NL] + Unlines(ls[1..])
  }

  lemma {:induction false} UnlinesConcat(a: seq<string>, b: seq<string>)
    ensures Unlines(a + b) == Unlines(a) + Unlines(b)
  {
    if a == [] {
      assert a + b == b;
    } else {
      UnlinesConcat(a[1..], b);
      assert (a + b)[1..] == a[1..] + b;
    }
  }

  lemma {:induction false} JoinIsUnlines(ls: seq<string>)
    requires ls != []
    ensures Join(ls) + [NL] == Unlines(ls)
  {
    if |ls| > 1 {
      JoinIsUnlines(ls[1..]);
    } else {
      assert ls[1..] == [];
    }
  }

  lemma {:induction false} SplitLine(l: string, rest: string)
    requires OneLine(l)
    ensures Split(l + [NL] + rest) == [l] + Split(rest)
  {
    var s := l + [NL] + rest;
    if l == "" {
      assert s[1..] == rest;
    } else {
      assert s[1..] == l[1..] + [NL] + rest;
      SplitLine(l[1..], rest);
      assert [s[0]] + l[1..] == l;
    }
  }

  lemma {:induction false} SplitOne(l: string)
    requires OneLine(l)
    ensures Split(l) == [l]
  {
    if l != "" {
      SplitOne(l[1..]);
      assert [l[0]] + l[1..] == l;
    }
  }

  lemma {:induction false} SplitJoin(ls: seq<string>)
    requires ls != [] && AllLines(ls)
    ensures Split(Join(ls)) == ls
  {
    if |ls| == 1 {
      SplitOne(ls[0]);
    } else {
      SplitJoin(ls[1..]);
      SplitLine(ls[0], Join(ls[1..]));
      assert ls == [ls[0]] + ls[1..];
    }
  }

  lemma {:induction false} JoinSplit(s: string)
    ensures Join(Split(s)) == s
  {
    if s != "" {
      JoinSplit(s[1..]);
      var rest := Split(s[1..]);
      if s[0] == NL {
        assert Split(s)[1..] == rest;
      } else {
        assert Split(s)[1..] == rest[1..];
        assert s == [s[0]] + s[1..];
      }
    }
  }

  predicate EndsLine(s: string) {
    s != "" && s[|s| - 1] == NL
  }

  /** One trailing newline removed, if there is one. */
  function Chomp(s: string): string {
    if EndsLine(s) then s[..|s| - 1] else s
  }

  /** The lines of a file; a final newline ends the last line rather than starting another. */
  function SplitLines(s: string): (ls: seq<string>)
    ensures AllLines(ls)
  {
    if s == "" then [] else Split(Chomp(s))
  }

  lemma LinesOfUnlines(ls: seq<string>)
    requires AllLines(ls)
    ensures SplitLines(Unlines(ls)) == ls
  {
    if ls != [] {
      JoinIsUnlines(ls);
      assert Chomp(Unlines(ls)) == Join(ls);
      SplitJoin(ls);
    }
  }

  lemma UnlinesOfLines(s: string)
    requires s == "" || EndsLine(s)
    ensures Unlines(SplitLines(s)) == s
  {
    if s != "" {
      JoinSplit(Chomp(s));
      JoinIsUnlines(Split(Chomp(s)));
    }
  }

  /** Text that is empty or ends a line is the text of its lines. */
  lemma WholeLines(s: string) returns (ls: seq<string>)
    requires s == "" || EndsLine(s)
    ensures AllLines(ls) && s == Unlines(ls) && ls == SplitLines(s)
  {
    ls := SplitLines(s);
    UnlinesOfLines(s);
  }
}
