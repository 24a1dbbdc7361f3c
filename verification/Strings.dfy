/** Searching, trimming and reading numbers, as the standard library does. */
module Strings {
  import opened Base
  import opened Text

  predicate OccursAt(s: string, sub: string, k: nat) {
    k + |sub| <= |s| && s[k..k + |sub|] == sub
  }

  predicate FirstAt(s: string, sub: string, k: nat) {
    OccursAt(s, sub, k) && forall j: nat :: j < k ==> !OccursAt(s, sub, j)
  }

  lemma OccursLater(s: string, sub: string, j: nat)
    requires s != "" && j > 0
    ensures OccursAt(s, sub, j) <==> OccursAt(s[1..], sub, j - 1)
  {
    if j + |sub| <= |s| {
      assert s[j..j + |sub|] == s[1..][j - 1..j - 1 + |sub|];
    }
  }

  /** Where sub first occurs. */
  function Index(s: string, sub: string): (r: Option<nat>)
    ensures r.Some? ==> FirstAt(s, sub, r.value)
    ensures r.None? ==> forall j: nat :: !OccursAt(s, sub, j)
  {
    if |s| < |sub| then None
    else if sub == s[..|sub|] then Some(0)
    else
      var rest := Index(s[1..], sub);
      assert forall j: nat :: j > 0 ==> (OccursAt(s, sub, j) <==> OccursAt(s[1..], sub, j - 1)) by {
        forall j: nat | j > 0
          ensures OccursAt(s, sub, j) <==> OccursAt(s[1..], sub, j - 1)
        {
          OccursLater(s, sub, j);
        }
      }
      if rest.None? then None else Some(rest.value + 1)
  }

  lemma FirstUnique(s: string, sub: string, j: nat, k: nat)
    requires FirstAt(s, sub, j) && FirstAt(s, sub, k)
    ensures j == k
  {
  }

  lemma IndexIs(s: string, sub: string, k: nat)
    requires FirstAt(s, sub, k)
    ensures Index(s, sub) == Some(k)
  {
    var r := Index(s, sub);
    assert r.Some?;
    FirstUnique(s, sub, k, r.value);
  }

  /** Where a character of chars first occurs. */
  function IndexAny(s: string, chars: string): (r: Option<nat>)
    ensures r.Some? ==> r.value < |s| && s[r.value] in chars && forall j :: 0 <= j < r.value ==> s[j] !in chars
    ensures r.None? ==> forall j :: 0 <= j < |s| ==> s[j] !in chars
  {
    if s == "" then None
    else if s[0] in chars then Some(0)
    else
      var rest := IndexAny(s[1..], chars);
      assert forall j :: 0 < j < |s| ==> s[j] == s[1..][j - 1];
      if rest.None? then None else Some(rest.value + 1)
  }

  /** The text before the first character of chars, or all of it. */
  function UpTo(s: string, chars: string): string {
    var k := IndexAny(s, chars);
    if k.Some? then s[..k.value] else s
  }

  lemma UpToIs(a: string, c: char, rest: string, chars: string)
    requires c in chars && forall i :: 0 <= i < |a| ==> a[i] !in chars
    ensures IndexAny(a + [c] + rest, chars) == Some(|a|) && UpTo(a + [c] + rest, chars) == a
  {
    var s := a + [c] + rest;
    assert s[|a|] == c && forall i :: 0 <= i < |a| ==> s[i] == a[i];
  }

  function TrimLeft(s: string, cut: char -> bool): string {
    if s != "" && cut(s[0]) then TrimLeft(s[1..], cut) else s
  }

  function TrimRight(s: string, cut: char -> bool): string {
    if s != "" && cut(s[|s| - 1]) then TrimRight(s[..|s| - 1], cut) else s
  }

  function Trim(s: string, cut: char -> bool): string {
    TrimRight(TrimLeft(s, cut), cut)
  }

  function TrimSpace(s: string): string {
    Trim(s, c => IsSpace(c))
  }

  lemma TrimNothing(s: string, cut: char -> bool)
    requires s != "" && !cut(s[0]) && !cut(s[|s| - 1])
    ensures Trim(s, cut) == s
  {
  }

  lemma NothingToTrim(s: string)
    requires s != "" && !IsSpace(s[0]) && !IsSpace(s[|s| - 1])
    ensures TrimSpace(s) == s
  {
  }

  /** The longest ending without spaces. */
  function LastWord(s: string): string {
    if s == "" || IsSpace(s[|s| - 1]) then "" else LastWord(s[..|s| - 1]) + [s[|s| - 1]]
  }

  /** The last of the fields separated by spaces; empty when there is none. */
  function LastField(s: string): string {
    LastWord(TrimRight(s, c => IsSpace(c)))
  }

  /** The longest beginning without spaces. */
  function FirstWord(s: string): (r: string)
    ensures |r| <= |s| && r == s[..|r|] && (forall i :: 0 <= i < |r| ==> !IsSpace(r[i])) && (|r| < |s| ==> IsSpace(s[|r|]))
  {
    if s == "" || IsSpace(s[0]) then "" else [s[0]] + FirstWord(s[1..])
  }

  lemma {:induction false} TrimLeftShorter(s: string, cut: char -> bool)
    ensures |TrimLeft(s, cut)| <= |s| && (TrimLeft(s, cut) != "" ==> !cut(TrimLeft(s, cut)[0]))
  {
    if s != "" && cut(s[0]) {
      TrimLeftShorter(s[1..], cut);
    }
  }

  /** The fields separated by spaces, from left to right. */
  function Fields(s: string): seq<string>
    decreases |s|
  {
    var t := TrimLeft(s, c => IsSpace(c));
    TrimLeftShorter(s, c => IsSpace(c));
    if t == "" then [] else [FirstWord(t)] + Fields(t[|FirstWord(t)|..])
  }

  lemma {:induction false} LastWordOfWord(w: string)
    requires forall i :: 0 <= i < |w| ==> !IsSpace(w[i])
    ensures LastWord(w) == w
  {
    if w != "" {
      LastWordOfWord(w[..|w| - 1]);
    }
  }

  lemma {:induction false} LastWordBehindSpace(a: string, b: string)
    requires b != "" && IsSpace(b[0])
    ensures LastWord(a + b) == LastWord(b)
    decreases |b|
  {
    var n := |b| - 1;
    assert (a + b)[..|a| + n] == a + b[..n];
    if !IsSpace(b[n]) {
      LastWordBehindSpace(a, b[..n]);
    }
  }

  lemma {:induction false} TrimRightWord(w: string, b: string, cut: char -> bool)
    requires w == "" || !cut(w[|w| - 1])
    ensures TrimRight(w + b, cut) == w + TrimRight(b, cut)
    decreases |b|
  {
    if b == "" {
      assert w + b == w;
    } else if cut(b[|b| - 1]) {
      var n := |b| - 1;
      assert (w + b)[..|w| + n] == w + b[..n];
      TrimRightWord(w, b[..n], cut);
    }
  }

  lemma {:induction false} TrimRightStarts(b: string, cut: char -> bool)
    ensures TrimRight(b, cut) <= b
  {
    if b != "" && cut(b[|b| - 1]) {
      TrimRightStarts(b[..|b| - 1], cut);
    }
  }

  /** A field before a text: the last field is that of the text, if it has one. */
  lemma LastFieldBehind(w: string, b: string)
    requires w != "" && (forall i :: 0 <= i < |w| ==> !IsSpace(w[i])) && (b != "" ==> IsSpace(b[0]))
    ensures LastField(w + b) == if LastField(b) == "" then w else LastField(b)
  {
    var cut := c => IsSpace(c);
    var r := TrimRight(b, cut);
    TrimRightWord(w, b, cut);
    TrimRightStarts(b, cut);
    LastWordOfWord(w);
    if r == "" {
      assert w + r == w;
    } else {
      LastWordBehindSpace(w, r);
      TrimRightEnds(b, cut);
    }
  }

  lemma {:induction false} TrimRightEnds(b: string, cut: char -> bool)
    ensures var r := TrimRight(b, cut); r != "" ==> !cut(r[|r| - 1])
  {
    if b != "" && cut(b[|b| - 1]) {
      TrimRightEnds(b[..|b| - 1], cut);
    }
  }

  lemma LastFieldSpaced(c: char, s: string)
    requires IsSpace(c)
    ensures LastField([c] + s) == LastField(s)
  {
    var cut := c => IsSpace(c);
    var r := TrimRight(s, cut);
    if r == "" {
      AllSpaces(c, s);
    } else {
      KeptBehind(c, s);
      if IsSpace(r[0]) {
        LastWordBehindSpace([c], r);
      } else {
        LastWordAfterSpace(c, r);
      }
    }
  }

  lemma {:induction false} AllSpaces(c: char, s: string)
    requires IsSpace(c) && TrimRight(s, c => IsSpace(c)) == ""
    ensures TrimRight([c] + s, c => IsSpace(c)) == ""
    decreases |s|
  {
    if s == "" {
      assert ([c] + s)[..0] == "";
    } else {
      var n := |s| - 1;
      assert ([c] + s)[..n + 1] == [c] + s[..n];
      AllSpaces(c, s[..n]);
    }
  }

  lemma {:induction false} KeptBehind(c: char, s: string)
    requires TrimRight(s, c => IsSpace(c)) != ""
    ensures TrimRight([c] + s, c => IsSpace(c)) == [c] + TrimRight(s, c => IsSpace(c))
    decreases |s|
  {
    if IsSpace(s[|s| - 1]) {
      var n := |s| - 1;
      assert ([c] + s)[..n + 1] == [c] + s[..n];
      KeptBehind(c, s[..n]);
    }
  }

  lemma {:induction false} LastWordAfterSpace(c: char, s: string)
    requires IsSpace(c)
    ensures LastWord([c] + s) == LastWord(s)
    decreases |s|
  {
    if s != "" && !IsSpace(s[|s| - 1]) {
      var n := |s| - 1;
      assert ([c] + s)[..n + 1] == [c] + s[..n];
      LastWordAfterSpace(c, s[..n]);
    }
  }

  lemma {:induction false} LastFieldTrimmed(s: string)
    ensures LastField(TrimLeft(s, c => IsSpace(c))) == LastField(s)
  {
    if s != "" && IsSpace(s[0]) {
      LastFieldTrimmed(s[1..]);
      assert s == [s[0]] + s[1..];
      LastFieldSpaced(s[0], s[1..]);
    }
  }

  lemma FirstThenRest(t: string, w: string)
    requires t != "" && !IsSpace(t[0]) && w == FirstWord(t)
    ensures w != "" && LastField(t) == if LastField(t[|w|..]) == "" then w else LastField(t[|w|..])
  {
    assert w + t[|w|..] == t;
    LastFieldBehind(w, t[|w|..]);
  }

  lemma FirstField(s: string) returns (w: string, rest: string)
    requires Fields(s) != []
    ensures w != "" && |rest| < |s| && Fields(s) == [w] + Fields(rest)
    ensures LastField(s) == if LastField(rest) == "" then w else LastField(rest)
  {
    var t := TrimLeft(s, c => IsSpace(c));
    TrimLeftShorter(s, c => IsSpace(c));
    LastFieldTrimmed(s);
    w := FirstWord(t);
    rest := t[|w|..];
    FirstThenRest(t, w);
  }

  /** The last field is the last of the fields. */
  lemma {:induction false} LastOfFields(s: string)
    ensures var f := Fields(s);
            LastField(s) == (if f == [] then "" else f[|f| - 1]) && forall i :: 0 <= i < |f| ==> f[i] != ""
    decreases |s|
  {
    if Fields(s) == [] {
      LastFieldTrimmed(s);
    } else {
      var w, rest := FirstField(s);
      LastOfFields(rest);
    }
  }

  // Numbers.

  predicate IsDigits(s: string) {
    s != "" && forall i :: 0 <= i < |s| ==> '0' <= s[i] <= '9'
  }

  function Value(s: string): nat
    requires forall i :: 0 <= i < |s| ==> '0' <= s[i] <= '9'
  {
    if s == "" then 0 else Value(s[..|s| - 1]) * 10 + (s[|s| - 1] - '0') as nat
  }

  /** The number written in decimal, with an optional sign, if it fits a machine word. */
  function Atoi(s: string): Option<int> {
    var digits := if s != "" && (s[0] == '+' || s[0] == '-') then s[1..] else s;
    if !IsDigits(digits) then None
    else
      var n: int := Value(digits);
      if s[0] == '-' then (if n <= MAX_INT + 1 then Some(-n) else None)
      else if n <= MAX_INT then Some(n)
      else None
  }

  lemma {:induction false} ValueOfDecimal(n: nat)
    ensures Value(Decimal(n)) == n
  {
    if n >= 10 {
      ValueOfDecimal(n / 10);
      assert Decimal(n)[..|Decimal(n)| - 1] == Decimal(n / 10);
    } else {
      assert Decimal(n)[..0] == "";
    }
  }

  lemma AtoiOfDecimal(n: nat)
    requires n <= MAX_INT
    ensures Atoi(Decimal(n)) == Some(n)
  {
    ValueOfDecimal(n);
  }
}
