/** Task identifiers: twelve characters of the job id and a four-digit hexadecimal index
    (internal/jobs/enqueue.go). */
module TaskIds {
  import opened JobTypes

  function HexDigit(n: nat): (c: char)
    requires n < 16
    ensures DigitValue(c) == n
  {
    if n < 10 then '0' + n as char else 'a' + (n - 10) as char
  }

  function HexDigits(n: nat): (s: string)
    ensures |s| > 0
  {
    if n < 16 then [HexDigit(n)] else HexDigits(n / 16) + [HexDigit(n % 16)]
  }

  function Zeros(n: nat): (s: string)
    ensures |s| == n && forall c :: c in s ==> c == '0'
  {
    if n == 0 then "" else Zeros(n - 1) + "0"
  }

  /** Lower-case hexadecimal, padded with zeros to at least four digits. */
  function Hex4(n: nat): (s: string) {
    var d := HexDigits(n);
    if |d| < 4 then Zeros(4 - |d|) + d else d
  }

  function DigitValue(c: char): nat {
    if '0' <= c <= '9' then c as int - '0' as int
    else if 'a' <= c <= 'f' then c as int - 'a' as int + 10
    else 0
  }

  function HexValue(s: string): nat {
    if s == "" then 0 else 16 * HexValue(s[..|s| - 1]) + DigitValue(s[|s| - 1])
  }

  lemma {:induction false} HexDigitsValue(n: nat)
    ensures HexValue(HexDigits(n)) == n
  {
    if n < 16 {
      assert HexValue([HexDigit(n)]) == DigitValue(HexDigit(n));
    } else {
      HexDigitsValue(n / 16);
      assert HexDigits(n)[..|HexDigits(n)| - 1] == HexDigits(n / 16);
    }
  }

  lemma {:induction false} LeadingZeros(z: nat, s: string)
    ensures HexValue(Zeros(z) + s) == HexValue(s)
  {
    if s == "" {
      assert Zeros(z) + s == Zeros(z);
      if z > 0 {
        LeadingZeros(z - 1, "");
        assert Zeros(z - 1) + "" == Zeros(z - 1);
      }
    } else {
      LeadingZeros(z, s[..|s| - 1]);
      assert (Zeros(z) + s)[..|Zeros(z) + s| - 1] == Zeros(z) + s[..|s| - 1];
    }
  }

  function Prefix(jobId: Id): (p: string)
    ensures |p| == 12
  {
    (if |jobId| < 12 then jobId + "000000000000" else jobId)[..12]
  }

  function TaskId(jobId: Id, i: nat): Id {
    Prefix(jobId) + Hex4(i)
  }

  /** Jobs whose ids differ in their first twelve characters never share a task id, and no job gives
      one id to two of its tasks. */
  lemma TaskIdsDistinct(a: Id, i: nat, b: Id, k: nat)
    requires TaskId(a, i) == TaskId(b, k)
    ensures Prefix(a) == Prefix(b) && i == k
  {
    assert TaskId(a, i)[..12] == Prefix(a) && TaskId(b, k)[..12] == Prefix(b);
    assert TaskId(a, i)[12..] == Hex4(i) && TaskId(b, k)[12..] == Hex4(k);
    HexDigitsValue(i);
    HexDigitsValue(k);
    LeadingZeros(if |HexDigits(i)| < 4 then 4 - |HexDigits(i)| else 0, HexDigits(i));
    LeadingZeros(if |HexDigits(k)| < 4 then 4 - |HexDigits(k)| else 0, HexDigits(k));
  }
}
