/** The JavaScript string operations the extension relies on, on `seq<char>`:
    `trim`, `startsWith`/`endsWith`/`includes`/`indexOf`, `split`, ASCII case
    changes, and decimal printing and parsing of integers. */
module Text {
  import opened Options

  /** JavaScript's WhiteSpace and LineTerminator code points: what `trim`,
      `parseInt` and the regular-expression class `\s` skip. */
  predicate IsSpace(c: char) {
    || c == ' ' || c == '\t' || c == '\n' || c == '\r'
    || c == '\U{000B}' || c == '\U{000C}' || c == '\U{00A0}' || c == '\U{1680}'
    || ('\U{2000}' <= c <= '\U{200A}')
    || c == '\U{2028}' || c == '\U{2029}' || c == '\U{202F}' || c == '\U{205F}'
    || c == '\U{3000}' || c == '\U{FEFF}'
  }

  predicate AllSpace(s: string) {
    forall i :: 0 <= i < |s| ==> IsSpace(s[i])
  }

  /** `s.trimStart()`: drops the leading white space and nothing else. */
  function TrimStart(s: string): (r: string)
    ensures |r| <= |s| && r == s[|s| - |r|..]
    ensures r == [] || !IsSpace(r[0])
    decreases |s|
  {
    if |s| > 0 && IsSpace(s[0]) then TrimStart(s[1..]) else s
  }

  /** What `trimStart` drops is white space. */
  lemma {:induction false} TrimStartDrops(s: string)
    ensures AllSpace(s[..|s| - |TrimStart(s)|])
    decreases |s|
  {
    if |s| > 0 && IsSpace(s[0]) {
      var r := TrimStart(s[1..]);
      assert TrimStart(s) == r;
      TrimStartDrops(s[1..]);
      var n := |s| - |r|;
      forall i | 0 <= i < n
        ensures IsSpace(s[..n][i])
      {
        if i > 0 {
          assert s[..n][i] == s[1..][..n - 1][i - 1];
        }
      }
    }
  }

  /** `s.trimEnd()`: drops the trailing white space and nothing else. */
  function TrimEnd(s: string): (r: string)
    ensures |r| <= |s| && r == s[..|r|]
    ensures r == [] || !IsSpace(r[|r| - 1])
    decreases |s|
  {
    if |s| > 0 && IsSpace(s[|s| - 1]) then TrimEnd(s[..|s| - 1]) else s
  }

  /** What `trimEnd` drops is white space. */
  lemma {:induction false} TrimEndDrops(s: string)
    ensures AllSpace(s[|TrimEnd(s)|..])
    decreases |s|
  {
    if |s| > 0 && IsSpace(s[|s| - 1]) {
      var r := TrimEnd(s[..|s| - 1]);
      TrimEndDrops(s[..|s| - 1]);
      assert s[|r|..] == s[..|s| - 1][|r|..] + [s[|s| - 1]];
    }
  }

  /** `s.trim()`. */
  function Trim(s: string): (r: string)
    ensures |r| <= |s| && Trimmed(r)
  {
    var t := TrimStart(s);
    var r := TrimEnd(t);
    assert r != [] ==> r[0] == t[0];
    r
  }

  /** `s` neither starts nor ends with white space. */
  predicate Trimmed(s: string) {
    s == [] || (!IsSpace(s[0]) && !IsSpace(s[|s| - 1]))
  }

  /** The source's test `s.trim() === ""`, stated as "every character is
      white space"; `BlankIffTrimEmpty` shows the two agree. */
  predicate IsBlank(s: string) {
    AllSpace(s)
  }

  /** Trimming a trimmed string changes nothing. */
  lemma TrimIdempotent(s: string)
    ensures Trim(Trim(s)) == Trim(s)
  {
    var r := Trim(s);
    if r != [] {
      assert TrimStart(r) == r;
      assert TrimEnd(r) == r;
    }
  }

  /** A string that neither starts nor ends with white space trims to
      itself. */
  lemma TrimOfTrimmed(s: string)
    requires Trimmed(s)
    ensures Trim(s) == s
  {
    TrimStartUnchanged(s);
    TrimEndUnchanged(s);
  }

  lemma TrimEndUnchanged(s: string)
    requires s == [] || !IsSpace(s[|s| - 1])
    ensures TrimEnd(s) == s
  {
  }

  /** A string trims to nothing exactly when every character of it is white
      space. */
  lemma {:induction false} BlankIffTrimEmpty(s: string)
    ensures IsBlank(s) <==> Trim(s) == ""
  {
    var t := TrimStart(s);
    TrimStartDrops(s);
    TrimEndDrops(t);
    if !AllSpace(s) {
      assert t != [];
      assert t[|TrimEnd(t)|..] == t[0..] || TrimEnd(t) != [];
    }
  }

  predicate StartsWith(s: string, p: string) {
    |p| <= |s| && s[..|p|] == p
  }

  predicate EndsWith(s: string, p: string) {
    |p| <= |s| && s[|s| - |p|..] == p
  }

  /** `p` occurs in `s` starting at index `i`. */
  predicate OccursAt(s: string, p: string, i: int) {
    0 <= i && i + |p| <= |s| && s[i..i + |p|] == p
  }

  /** `s.indexOf(p, from)`: the first occurrence of `p` at or after `from`. */
  function IndexOf(s: string, p: string, from: nat): (r: Option<nat>)
    ensures r.Some? ==> from <= r.value && OccursAt(s, p, r.value)
    ensures r.Some? ==> forall j :: from <= j < r.value ==> !OccursAt(s, p, j)
    ensures r.None? ==> forall j :: from <= j ==> !OccursAt(s, p, j)
    decreases |s| - from
  {
    if from + |p| > |s| then None
    else if OccursAt(s, p, from) then Some(from)
    else IndexOf(s, p, from + 1)
  }

  /** `s.includes(p)`. */
  predicate Contains(s: string, p: string) {
    IndexOf(s, p, 0).Some?
  }

  /** `s.split(sep)[1]`: the text between the first occurrence of `sep` and the
      next one, or the end of `s`. */
  function SecondPiece(s: string, sep: string): (r: string)
    requires |sep| > 0 && Contains(s, sep)
    ensures exists i :: OccursAt(s, r, i)
    ensures !Contains(r, sep)
  {
    var start := IndexOf(s, sep, 0).value + |sep|;
    var r := match IndexOf(s, sep, start)
      case Some(j) => s[start..j]
      case None => s[start..];
    var e := start + |r|;
    assert e <= |s| && r == s[start..e];
    assert OccursAt(s, r, start);
    forall k | 0 <= k
      ensures OccursAt(r, sep, k) ==> OccursAt(s, sep, start + k)
    {
      PieceOccurrence(s, start, e, sep, k);
    }
    r
  }

  /** An occurrence in a slice is an occurrence in the whole string. */
  lemma PieceOccurrence(s: string, a: nat, b: nat, p: string, k: nat)
    requires a <= b <= |s|
    ensures OccursAt(s[a..b], p, k) ==> OccursAt(s, p, a + k)
  {
    if OccursAt(s[a..b], p, k) {
      var piece, whole := s[a..b][k..k + |p|], s[a + k..a + k + |p|];
      assert |piece| == |whole|;
      forall i | 0 <= i < |piece|
        ensures piece[i] == whole[i]
      {
        assert piece[i] == s[a..b][k + i] == s[a + k + i];
      }
      assert piece == whole;
    }
  }

  /** `s.split('/')` followed by taking the last piece: the text after the last
      slash, or all of `s` when it has none. */
  function AfterLastSlash(s: string): (r: string)
    ensures '/' !in r && EndsWith(s, r)
    ensures |r| < |s| ==> s[|s| - |r| - 1] == '/'
    decreases |s|
  {
    if |s| == 0 || s[|s| - 1] == '/' then ""
    else
      var r := AfterLastSlash(s[..|s| - 1]) + [s[|s| - 1]];
      assert s[|s| - |r|..] == s[..|s| - 1][|s| - |r|..] + [s[|s| - 1]];
      r
  }

  function UpperChar(c: char): char {
    if 'a' <= c <= 'z' then (c as int - 32) as char else c
  }

  function LowerChar(c: char): char {
    if 'A' <= c <= 'Z' then (c as int + 32) as char else c
  }

  /** `toUpperCase` on the ASCII letters. */
  function Upper(s: string): (r: string)
    ensures |r| == |s| && forall i :: 0 <= i < |s| ==> r[i] == UpperChar(s[i])
  {
    seq(|s|, i requires 0 <= i < |s| => UpperChar(s[i]))
  }

  /** `toLowerCase` on the ASCII letters. */
  function Lower(s: string): (r: string)
    ensures |r| == |s| && forall i :: 0 <= i < |s| ==> r[i] == LowerChar(s[i])
  {
    seq(|s|, i requires 0 <= i < |s| => LowerChar(s[i]))
  }

  predicate IsDigit(c: char) {
    '0' <= c <= '9'
  }

  predicate AllDigits(s: string) {
    forall i :: 0 <= i < |s| ==> IsDigit(s[i])
  }

  function DigitChar(d: nat): (c: char)
    requires d < 10
    ensures IsDigit(c) && c as int - '0' as int == d
  {
    ('0' as int + d) as char
  }

  /** The value of a run of decimal digits, read left to right. */
  function DecValue(s: string): nat
    requires AllDigits(s)
    decreases |s|
  {
    if |s| == 0 then 0
    else DecValue(s[..|s| - 1]) * 10 + (s[|s| - 1] as int - '0' as int)
  }

  /** `String(n)` for a natural number: its shortest decimal form, which reads
      back as `n`. */
  function Dec(n: nat): (r: string)
    ensures |r| > 0 && AllDigits(r) && DecValue(r) == n
    ensures |r| > 1 ==> r[0] != '0'
  {
    if n < 10 then [DigitChar(n)]
    else
      var r := Dec(n / 10) + [DigitChar(n % 10)];
      assert r[..|r| - 1] == Dec(n / 10);
      r
  }

  /** `String(n)` for an integer. */
  function DecInt(n: int): (r: string)
    ensures |r| > 0 && (r[0] == '-' || IsDigit(r[0]))
  {
    if n < 0 then "-" + Dec(-n) else Dec(n)
  }

  /** Character classes of the regular expressions the source uses. */
  datatype CharClass = Digits | Spaces | DigitsOrDots

  predicate InClass(c: char, k: CharClass) {
    match k
    case Digits => IsDigit(c)
    case Spaces => IsSpace(c)
    case DigitsOrDots => IsDigit(c) || c == '.'
  }

  /** The end of the longest run of characters of class `k` starting at `i`
      (a greedy `[..]*` in a regular expression). */
  function RunEnd(s: string, i: nat, k: CharClass): (e: nat)
    requires i <= |s|
    ensures i <= e <= |s|
    ensures forall j :: i <= j < e ==> InClass(s[j], k)
    ensures e == |s| || !InClass(s[e], k)
    decreases |s| - i
  {
    if i < |s| && InClass(s[i], k) then RunEnd(s, i + 1, k) else i
  }

  /** The run starting at `i` ends at `e` whenever `[i, e)` is in the class
      and `e` is not. */
  lemma RunEndIs(s: string, i: nat, e: nat, k: CharClass)
    requires i <= e <= |s|
    requires forall j :: i <= j < e ==> InClass(s[j], k)
    requires e == |s| || !InClass(s[e], k)
    ensures RunEnd(s, i, k) == e
  {
  }

  /** `parseInt(s, 10)`: leading white space, an optional sign, then the
      longest run of digits; `None` stands for `NaN`. */
  function ParseInt(s: string): Option<int> {
    ParseSigned(TrimStart(s))
  }

  /** `parseInt` once the leading white space is gone. */
  function ParseSigned(t: string): Option<int> {
    var start := if |t| > 0 && (t[0] == '-' || t[0] == '+') then 1 else 0;
    var e := RunEnd(t, start, Digits);
    if e == start then None
    else
      var v: int := DecValue(t[start..e]);
      Some(if t[0] == '-' then -v else v)
  }

  lemma TrimStartUnchanged(s: string)
    requires s == [] || !IsSpace(s[0])
    ensures TrimStart(s) == s
  {
  }

  /** The digits after an optional minus sign form one run. */
  lemma RunOfDigits(sign: string, d: string)
    requires sign == "" || sign == "-"
    requires |d| > 0 && AllDigits(d)
    ensures RunEnd(sign + d, |sign|, Digits) == |sign + d|
  {
    var s := sign + d;
    var start := |sign|;
    assert forall j :: start <= j < |s| ==> IsDigit(s[j]) by {
      forall j | start <= j < |s| ensures IsDigit(s[j]) {
        assert s[j] == d[j - start];
      }
    }
    RunEndIs(s, start, |s|, Digits);
  }

  lemma ParseUnsigned(d: string)
    requires |d| > 0 && AllDigits(d)
    requires RunEnd(d, 0, Digits) == |d|
    ensures ParseSigned(d) == Some(DecValue(d) as int)
  {
    assert d[0] != '-' && d[0] != '+';
    assert d[0..|d|] == d;
  }

  lemma ParseNegative(s: string, d: string)
    requires |d| > 0 && AllDigits(d)
    requires s == "-" + d
    requires RunEnd(s, 1, Digits) == |s|
    ensures ParseSigned(s) == Some(0 - DecValue(d))
  {
    assert s[0] == '-';
    assert s[1..|s|] == d;
  }

  /** Printing an integer and parsing it back gives the integer. */
  lemma ParseIntOfDecInt(n: int)
    ensures ParseInt(DecInt(n)) == Some(n)
  {
    if n < 0 {
      var d := Dec(-n);
      var s := "-" + d;
      TrimStartUnchanged(s);
      RunOfDigits("-", d);
      ParseNegative(s, d);
    } else {
      var d := Dec(n);
      TrimStartUnchanged(d);
      RunOfDigits("", d);
      assert "" + d == d;
      ParseUnsigned(d);
    }
  }
}
