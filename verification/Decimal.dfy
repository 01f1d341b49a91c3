/** The decimal conversions of printf (%u, %d) and scanf (%u, %d) that the library uses. */
module Decimal {
  import opened Basics

  predicate IsDigit(c: char) {
    '0' <= c <= '9'
  }

  function DigitValue(c: char): (v: nat)
    requires IsDigit(c)
    ensures v < 10
  {
    c as int - '0' as int
  }

  function DigitChar(v: nat): (c: char)
    requires v < 10
    ensures IsDigit(c) && DigitValue(c) == v
  {
    ('0' as int + v) as char
  }

  predicate AllDigits(s: string) {
    forall c | c in s :: IsDigit(c)
  }

  /** %u */
  function Print(n: nat): (s: string)
    ensures s != "" && AllDigits(s)
    decreases n
  {
    if n < 10 then [DigitChar(n)] else Print(n / 10) + [DigitChar(n % 10)]
  }

  /** %d */
  function PrintInt(v: int): string {
    if v < 0 then "-" + Print(-v) else Print(v)
  }

  /** The number a digit string denotes. */
  function Value(s: string): nat
    requires AllDigits(s)
  {
    if s == "" then 0 else Value(s[..|s| - 1]) * 10 + DigitValue(s[|s| - 1])
  }

  /** Length of the leading digit run. */
  function DigitRun(s: string): (k: nat)
    ensures k <= |s| && AllDigits(s[..k])
    ensures k < |s| ==> !IsDigit(s[k])
  {
    if s == "" || !IsDigit(s[0]) then 0 else
      var k := 1 + DigitRun(s[1..]);
      assert s[..k] == [s[0]] + s[1..][..k - 1];
      k
  }

  predicate IsWhite(c: char) {
    c == ' ' || '\t' <= c <= '\r'
  }

  function SkipWhite(s: string): (t: string)
    ensures |t| <= |s|
  {
    if s != "" && IsWhite(s[0]) then SkipWhite(s[1..]) else s
  }

  /** A nonempty digit run: its value and the unread text. */
  function ScanDigits(s: string): (r: Option<(nat, string)>)
    ensures r.Some? ==> |r.value.1| < |s|
  {
    var k := DigitRun(s);
    if k == 0 then None else Some((Value(s[..k]), s[k..]))
  }

  /** One scanf %u or %d conversion: the number read and the unread text. */
  function ScanInt(s: string): (r: Option<(int, string)>)
    ensures r.Some? ==> |r.value.1| < |s|
  {
    var t := SkipWhite(s);
    var signed := t != "" && (t[0] == '-' || t[0] == '+');
    match ScanDigits(if signed then t[1..] else t)
    case None => None
    case Some((n, rest)) =>
      var v: int := n;
      Some((if signed && t[0] == '-' then -v else v, rest))
  }

  /** scanf with a format of `k` integer conversions separated by commas: the converted values. */
  function ScanFields(s: string, k: nat): (values: seq<int>)
    ensures |values| <= k
    decreases k
  {
    if k == 0 then [] else
      match ScanInt(s)
      case None => []
      case Some((v, rest)) =>
        if rest != "" && rest[0] == ',' then [v] + ScanFields(rest[1..], k - 1) else [v]
  }

  lemma {:induction false} ValuePrint(n: nat)
    ensures Value(Print(n)) == n
    decreases n
  {
    if n >= 10 {
      ValuePrint(n / 10);
      var s := Print(n);
      assert s[..|s| - 1] == Print(n / 10);
    }
  }

  /** Numbers are written the usual way round. */
  lemma PrintedNumbers()
    ensures Print(1024) == "1024" && PrintInt(-65) == "-65"
  {
    assert Print(1) == "1" && Print(10) == "10" && Print(102) == "102" && Print(6) == "6";
  }

  lemma DigitRunUnique(s: string, k: nat)
    requires k <= |s| && AllDigits(s[..k])
    requires k < |s| ==> !IsDigit(s[k])
    ensures DigitRun(s) == k
  {
    assert k > 0 ==> s[0] in s[..k];
    if s != "" && IsDigit(s[0]) {
      assert forall c | c in s[1..][..k - 1] :: c in s[..k];
      DigitRunUnique(s[1..], k - 1);
    }
  }

  lemma DigitRunAtLeast(s: string, k: nat)
    requires k <= |s| && AllDigits(s[..k])
    ensures DigitRun(s) >= k
  {
    if k > 0 {
      assert s[0] in s[..k];
      assert forall c | c in s[1..][..k - 1] :: c in s[..k];
      DigitRunAtLeast(s[1..], k - 1);
    }
  }

  /** Scanning a printed number gives it back, whatever non-digit text follows. */
  lemma ScanPrint(n: nat, rest: string)
    requires rest != "" ==> !IsDigit(rest[0])
    ensures ScanDigits(Print(n) + rest) == Some((n, rest))
  {
    var digits := Print(n);
    var s := digits + rest;
    ValuePrint(n);
    assert s[..|digits|] == digits && s[|digits|..] == rest;
    DigitRunUnique(s, |digits|);
    hide Print, DigitRun, Value;
  }

  lemma ScanPrintInt(v: int, rest: string)
    requires rest != "" ==> !IsDigit(rest[0])
    ensures ScanInt(PrintInt(v) + rest) == Some((v, rest))
  {
    hide Print, ScanDigits, SkipWhite;
    var n: nat := if v < 0 then -v else v;
    var digits := Print(n);
    ScanPrint(n, rest);
    PrintStarts(n);
    SkipNoWhite(digits + rest);
    SkipNoWhite("-" + digits + rest);
    assert ("-" + digits + rest)[1..] == digits + rest;
  }

  lemma PrintStarts(n: nat)
    ensures IsDigit(Print(n)[0])
  {
    assert Print(n)[0] in Print(n);
  }

  lemma SkipNoWhite(s: string)
    requires s != "" && !IsWhite(s[0])
    ensures SkipWhite(s) == s
  {
  }

  /** One more field in front of a comma separated list is one more value read. */
  lemma ScanFieldsCons(v: int, tail: string, k: nat)
    requires k > 1
    ensures ScanFields(PrintInt(v) + "," + tail, k) == [v] + ScanFields(tail, k - 1)
  {
    var rest := "," + tail;
    assert PrintInt(v) + "," + tail == PrintInt(v) + rest;
    ScanPrintInt(v, rest);
    assert rest[1..] == tail;
  }

  /** The last field is read to the end of the text. */
  lemma ScanFieldsLast(v: int, k: nat)
    requires k > 0
    ensures ScanFields(PrintInt(v), k) == [v]
  {
    ScanPrintInt(v, "");
    assert PrintInt(v) + "" == PrintInt(v);
  }

  function TenTo(k: nat): nat {
    if k == 0 then 1 else 10 * TenTo(k - 1)
  }

  lemma {:induction false} ValueBelow(s: string)
    requires AllDigits(s)
    ensures Value(s) < TenTo(|s|)
  {
    if s != "" {
      ValueBelow(s[..|s| - 1]);
    }
  }

  lemma {:induction false} PrintLength(n: nat, k: nat)
    requires k > 0
    ensures |Print(n)| <= k <==> n < TenTo(k)
    decreases k
  {
    if k > 1 && n >= 10 {
      PrintLength(n / 10, k - 1);
    } else if n >= 10 {
      assert |Print(n / 10)| >= 1;
    } else {
      assert TenTo(k) >= 10 by { TenToGrows(k); }
    }
  }

  lemma {:induction false} TenToGrows(k: nat)
    requires k > 0
    ensures TenTo(k) >= 10
  {
    if k > 1 {
      TenToGrows(k - 1);
    }
  }
}
