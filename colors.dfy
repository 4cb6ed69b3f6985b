/** The colour helpers of the menu-style panel (events.js): hex to `rgba()`
    and back, the choice of a control's colour, and the normalisation that
    keeps a colour picker and its text box in step. */
module Colors {
  import opened Options
  import opened Text

  predicate IsHexDigit(c: char) {
    '0' <= c <= '9' || 'a' <= c <= 'f' || 'A' <= c <= 'F'
  }

  function HexDigitValue(c: char): (v: nat)
    requires IsHexDigit(c)
    ensures v < 16
  {
    if '0' <= c <= '9' then c as int - '0' as int
    else if 'a' <= c <= 'f' then c as int - 'a' as int + 10
    else c as int - 'A' as int + 10
  }

  /** The digit `toString(16)` prints for a value below 16. */
  function LowerHexDigit(v: nat): (c: char)
    requires v < 16
    ensures IsHexDigit(c) && HexDigitValue(c) == v && !('A' <= c <= 'Z')
  {
    if v < 10 then ('0' as int + v) as char else ('a' as int + v - 10) as char
  }

  /** `/^#[0-9A-F]{6}$/i`. */
  predicate IsHexColor(s: string) {
    |s| == 7 && s[0] == '#' && forall i :: 1 <= i < 7 ==> IsHexDigit(s[i])
  }

  /** `parseInt(pair, 16)` for two hex digits. */
  function PairValue(hi: char, lo: char): (v: nat)
    requires IsHexDigit(hi) && IsHexDigit(lo)
    ensures v < 256
  {
    16 * HexDigitValue(hi) + HexDigitValue(lo)
  }

  /** `v.toString(16).padStart(2, '0')` for a channel value. */
  function Hex2(v: nat): (r: string)
    requires v < 256
    ensures |r| == 2 && IsHexDigit(r[0]) && IsHexDigit(r[1]) && PairValue(r[0], r[1]) == v
  {
    [LowerHexDigit(v / 16), LowerHexDigit(v % 16)]
  }

  /** The colour `hexToRgba` falls back to. */
  const FallbackHex: string := "#3c3c3c"

  /** Each pair of the fallback colour is the value 60. */
  lemma FallbackChannels()
    ensures IsHexColor(FallbackHex)
    ensures Dec(PairValue(FallbackHex[1], FallbackHex[2])) == "60"
    ensures Dec(PairValue(FallbackHex[3], FallbackHex[4])) == "60"
    ensures Dec(PairValue(FallbackHex[5], FallbackHex[6])) == "60"
  {
    assert FallbackHex[1] == '3' && FallbackHex[2] == 'c';
    assert FallbackHex[3] == '3' && FallbackHex[4] == 'c';
    assert FallbackHex[5] == '3' && FallbackHex[6] == 'c';
    assert HexDigitValue('3') == 3 && HexDigitValue('c') == 12;
    assert PairValue('3', 'c') == 60;
    assert Dec(6) == "6";
    assert Dec(60) == Dec(6) + "0";
  }

  /** `hexToRgba(hex, opacity)`: any string that is not `#` and six hex digits
      is replaced by `#3c3c3c`; the channels are the values of the three hex
      pairs. `alpha` is the printed, already validated opacity. */
  function HexToRgba(hex: string, alpha: string): (r: string)
    ensures !IsHexColor(hex) ==> r == Printed("60", "60", "60", alpha)
  {
    FallbackChannels();
    var h := if IsHexColor(hex) then hex else FallbackHex;
    Printed(Dec(PairValue(h[1], h[2])), Dec(PairValue(h[3], h[4])), Dec(PairValue(h[5], h[6])), alpha)
  }

  /** The captures of `/rgba?\((\d+),\s*(\d+),\s*(\d+)(?:,\s*([0-9.]+))?\)/`. */
  datatype RgbMatch = RgbMatch(red: string, green: string, blue: string, alpha: Option<string>)

  predicate ValidMatch(m: RgbMatch) {
    |m.red| > 0 && AllDigits(m.red) && |m.green| > 0 && AllDigits(m.green)
    && |m.blue| > 0 && AllDigits(m.blue)
  }

  /** One channel followed by its comma: a non-empty run of digits from `j`,
      then `,`, then any spaces. Gives the digits and where the spaces end. */
  function Channel(s: string, j: nat): (r: Option<(string, nat)>)
    requires j <= |s|
    ensures r.Some? ==> |r.value.0| > 0 && AllDigits(r.value.0) && j < r.value.1 <= |s|
  {
    var e := RunEnd(s, j, Digits);
    if e == j || e == |s| || s[e] != ',' then None
    else Some((s[j..e], RunEnd(s, e + 1, Spaces)))
  }

  /** What may follow the third channel's digits, which end at `e`: `)`, or
      `,`, spaces, a run of digits and dots, and `)`. */
  function Tail(s: string, e: nat): (r: Option<Option<string>>)
    requires e <= |s|
  {
    if e == |s| then None
    else if s[e] == ')' then Some(None)
    else if s[e] == ',' then
      var w := RunEnd(s, e + 1, Spaces);
      var f := RunEnd(s, w, DigitsOrDots);
      if f == w || f == |s| || s[f] != ')' then None else Some(Some(s[w..f]))
    else None
  }

  /** The three channels and the tail, from just after the `(`. */
  function Channels(s: string, j: nat): (m: Option<RgbMatch>)
    requires j <= |s|
    ensures m.Some? ==> ValidMatch(m.value)
  {
    match Channel(s, j)
    case None => None
    case Some((red, j1)) =>
      match Channel(s, j1)
      case None => None
      case Some((green, j2)) =>
        var e := RunEnd(s, j2, Digits);
        if e == j2 then None
        else match Tail(s, e)
          case None => None
          case Some(alpha) => Some(RgbMatch(red, green, s[j2..e], alpha))
  }

  /** The regular expression tried at index `i`. Every quantifier in it is
      followed by a character its class excludes, so backtracking never finds
      a second way: one greedy pass decides the match. */
  function MatchAt(s: string, i: nat): (m: Option<RgbMatch>)
    requires i <= |s|
    ensures m.Some? ==> ValidMatch(m.value)
  {
    if !(i + 3 <= |s| && s[i..i + 3] == "rgb") then None
    else
      var p := if i + 3 < |s| && s[i + 3] == 'a' then i + 4 else i + 3;
      if !(p < |s| && s[p] == '(') then None else Channels(s, p + 1)
  }

  /** `String.prototype.match` without the `g` flag: the leftmost match at or
      after `i`. */
  function FirstMatch(s: string, i: nat): (m: Option<RgbMatch>)
    requires i <= |s|
    ensures m.Some? ==> ValidMatch(m.value)
    decreases |s| - i
  {
    match MatchAt(s, i)
    case Some(m) => Some(m)
    case None => if i == |s| then None else FirstMatch(s, i + 1)
  }

  /** `Math.max(0, Math.min(255, v))` for a parsed run of digits. */
  function Clamp(v: nat): nat {
    if v > 255 then 255 else v
  }

  /** `rgbaToHex(rgba)`. The empty string stands for a missing value. */
  function RgbaToHex(s: string): (r: string)
    ensures IsHexColor(r) && Upper(r) == r
  {
    if s == "" then "#000000"
    else match FirstMatch(s, 0)
      case None =>
        if IsHexColor(s) then
          UpperKeepsHexColor(s);
          Upper(s)
        else "#000000"
      case Some(m) =>
        var x, y, z := Hex2(Clamp(DecValue(m.red))), Hex2(Clamp(DecValue(m.green))), Hex2(Clamp(DecValue(m.blue)));
        HexOfPairs(x, y, z);
        UpperKeepsHexColor("#" + x + y + z);
        Upper("#" + x + y + z)
  }

  /** Three pairs of hex digits after a `#` make a colour. */
  lemma HexOfPairs(x: string, y: string, z: string)
    requires |x| == 2 && IsHexDigit(x[0]) && IsHexDigit(x[1])
    requires |y| == 2 && IsHexDigit(y[0]) && IsHexDigit(y[1])
    requires |z| == 2 && IsHexDigit(z[0]) && IsHexDigit(z[1])
    ensures IsHexColor("#" + x + y + z)
  {
    assert "#" + x + y + z == ['#', x[0], x[1], y[0], y[1], z[0], z[1]];
  }

  lemma UpperKeepsHexColor(s: string)
    requires IsHexColor(s)
    ensures IsHexColor(Upper(s)) && Upper(Upper(s)) == Upper(s)
  {
  }

  // ---------------------------------------------------------------------
  // Round trip
  // ---------------------------------------------------------------------

  /** A run of `d`'s class that ends where `d` ends. */
  lemma RunOver(s: string, i: nat, d: string, k: CharClass)
    requires i + |d| <= |s| && s[i..i + |d|] == d
    requires forall j :: 0 <= j < |d| ==> InClass(d[j], k)
    requires i + |d| == |s| || !InClass(s[i + |d|], k)
    ensures RunEnd(s, i, k) == i + |d|
  {
    forall j | i <= j < i + |d| ensures InClass(s[j], k) {
      assert s[j] == d[j - i];
    }
    RunEndIs(s, i, i + |d|, k);
  }

  /** A channel `d` at `i`, followed by `", "` and a character that is not a
      space, is read as that channel. */
  lemma ChannelOf(s: string, i: nat, d: string)
    requires i + |d| + 2 < |s| && s[i..i + |d|] == d
    requires |d| > 0 && AllDigits(d)
    requires s[i + |d|] == ',' && s[i + |d| + 1] == ' ' && !IsSpace(s[i + |d| + 2])
    ensures Channel(s, i) == Some((d, i + |d| + 2))
  {
    RunOver(s, i, d, Digits);
    assert s[i + |d| + 1..i + |d| + 2] == " ";
    RunOver(s, i + |d| + 1, " ", Spaces);
  }

  /** The tail `", " + alpha + ")"` at `e`. */
  lemma TailOf(s: string, e: nat, alpha: string)
    requires e + |alpha| + 3 == |s| && s[e + 2..e + 2 + |alpha|] == alpha
    requires s[e] == ',' && s[e + 1] == ' ' && s[e + 2 + |alpha|] == ')'
    requires |alpha| > 0 && forall j :: 0 <= j < |alpha| ==> InClass(alpha[j], DigitsOrDots)
    ensures Tail(s, e) == Some(Some(alpha))
  {
    assert s[e + 2] == alpha[0];
    assert s[e + 1..e + 2] == " ";
    RunOver(s, e + 1, " ", Spaces);
    RunOver(s, e + 2, alpha, DigitsOrDots);
  }

  /** A text starting with `rgba(` is matched from just after the `(`. */
  lemma MatchAfterPrefix(s: string)
    requires |s| >= 5 && s[..5] == "rgba("
    ensures MatchAt(s, 0) == Channels(s, 5)
  {
    assert s[0..3] == s[..5][0..3];
    assert s[3] == s[..5][3] && s[4] == s[..5][4];
  }

  /** `Channels` assembled from its parts. */
  lemma ChannelsFrom(s: string, j: nat, j1: nat, j2: nat, e: nat, m: RgbMatch)
    requires j <= |s| && j2 < e <= |s|
    requires Channel(s, j) == Some((m.red, j1)) && Channel(s, j1) == Some((m.green, j2))
    requires RunEnd(s, j2, Digits) == e && s[j2..e] == m.blue && Tail(s, e) == Some(m.alpha)
    ensures Channels(s, j) == Some(m)
  {
  }

  /** The text `hexToRgba` prints for the given channels and alpha. */
  function Printed(d1: string, d2: string, d3: string, alpha: string): string {
    "rgba(" + d1 + ", " + d2 + ", " + d3 + ", " + alpha + ")"
  }

  lemma PrintedFirst(d1: string, d2: string, d3: string, alpha: string)
    requires |d2| > 0
    ensures var s := Printed(d1, d2, d3, alpha);
      |s| == |d1| + |d2| + |d3| + |alpha| + 12 && s[..5] == "rgba(" && s[5..5 + |d1|] == d1
      && s[5 + |d1|] == ',' && s[6 + |d1|] == ' ' && s[7 + |d1|] == d2[0]
  {
  }

  lemma PrintedSecond(d1: string, d2: string, d3: string, alpha: string)
    requires |d3| > 0
    ensures var s := Printed(d1, d2, d3, alpha); var i := 7 + |d1|;
      |s| == |d1| + |d2| + |d3| + |alpha| + 12 && s[i..i + |d2|] == d2
      && s[i + |d2|] == ',' && s[i + |d2| + 1] == ' ' && s[i + |d2| + 2] == d3[0]
  {
  }

  lemma PrintedThird(d1: string, d2: string, d3: string, alpha: string)
    ensures var s := Printed(d1, d2, d3, alpha); var i := 9 + |d1| + |d2|; var e := i + |d3|;
      |s| == |d1| + |d2| + |d3| + |alpha| + 12 && s[i..e] == d3
      && s[e] == ',' && s[e + 1] == ' ' && s[e + 2..e + 2 + |alpha|] == alpha
      && s[e + 2 + |alpha|] == ')'
  {
  }

  /** The text laid out as `rgba(d1, d2, d3, alpha)` is matched with those
      captures. */
  lemma ChannelsOfLaidOut(s: string, d1: string, d2: string, d3: string, alpha: string)
    requires |d1| > 0 && AllDigits(d1) && |d2| > 0 && AllDigits(d2) && |d3| > 0 && AllDigits(d3)
    requires |alpha| > 0 && forall j :: 0 <= j < |alpha| ==> InClass(alpha[j], DigitsOrDots)
    requires |s| == |d1| + |d2| + |d3| + |alpha| + 12 && s[..5] == "rgba(" && s[5..5 + |d1|] == d1
    requires s[5 + |d1|] == ',' && s[6 + |d1|] == ' ' && s[7 + |d1|] == d2[0]
    requires var i := 7 + |d1|;
      s[i..i + |d2|] == d2 && s[i + |d2|] == ',' && s[i + |d2| + 1] == ' ' && s[i + |d2| + 2] == d3[0]
    requires var i := 9 + |d1| + |d2|; var e := i + |d3|;
      s[i..e] == d3 && s[e] == ',' && s[e + 1] == ' ' && s[e + 2..e + 2 + |alpha|] == alpha
      && s[e + 2 + |alpha|] == ')'
    ensures Channels(s, 5) == Some(RgbMatch(d1, d2, d3, Some(alpha)))
  {
    var i2 := 7 + |d1|;
    var i3 := 9 + |d1| + |d2|;
    var e := i3 + |d3|;
    ChannelOf(s, 5, d1);
    ChannelOf(s, i2, d2);
    RunOver(s, i3, d3, Digits);
    TailOf(s, e, alpha);
    ChannelsFrom(s, 5, i2, i3, e, RgbMatch(d1, d2, d3, Some(alpha)));
  }

  /** The same, read from the start of the text. */
  lemma MatchOfLaidOut(s: string, d1: string, d2: string, d3: string, alpha: string)
    requires |d1| > 0 && AllDigits(d1) && |d2| > 0 && AllDigits(d2) && |d3| > 0 && AllDigits(d3)
    requires |alpha| > 0 && forall j :: 0 <= j < |alpha| ==> InClass(alpha[j], DigitsOrDots)
    requires |s| == |d1| + |d2| + |d3| + |alpha| + 12 && s[..5] == "rgba(" && s[5..5 + |d1|] == d1
    requires s[5 + |d1|] == ',' && s[6 + |d1|] == ' ' && s[7 + |d1|] == d2[0]
    requires var i := 7 + |d1|;
      s[i..i + |d2|] == d2 && s[i + |d2|] == ',' && s[i + |d2| + 1] == ' ' && s[i + |d2| + 2] == d3[0]
    requires var i := 9 + |d1| + |d2|; var e := i + |d3|;
      s[i..e] == d3 && s[e] == ',' && s[e + 1] == ' ' && s[e + 2..e + 2 + |alpha|] == alpha
      && s[e + 2 + |alpha|] == ')'
    ensures MatchAt(s, 0) == Some(RgbMatch(d1, d2, d3, Some(alpha)))
  {
    ChannelsOfLaidOut(s, d1, d2, d3, alpha);
    MatchAfterPrefix(s);
  }

  /** The text `hexToRgba` prints, read back, has its three channels and its
      alpha as the captures. */
  lemma MatchOfPrinted(d1: string, d2: string, d3: string, alpha: string)
    requires |d1| > 0 && AllDigits(d1) && |d2| > 0 && AllDigits(d2) && |d3| > 0 && AllDigits(d3)
    requires |alpha| > 0 && forall j :: 0 <= j < |alpha| ==> InClass(alpha[j], DigitsOrDots)
    ensures MatchAt(Printed(d1, d2, d3, alpha), 0) == Some(RgbMatch(d1, d2, d3, Some(alpha)))
  {
    PrintedFirst(d1, d2, d3, alpha);
    PrintedSecond(d1, d2, d3, alpha);
    PrintedThird(d1, d2, d3, alpha);
    MatchOfLaidOut(Printed(d1, d2, d3, alpha), d1, d2, d3, alpha);
  }

  /** Two hex digits of the same value print the same in upper case. */
  lemma SameDigitUpper(a: char, b: char)
    requires IsHexDigit(a) && IsHexDigit(b) && HexDigitValue(a) == HexDigitValue(b)
    ensures UpperChar(a) == UpperChar(b)
  {
  }

  /** Reprinting a pair's value gives the pair, up to case. */
  lemma PairReprint(hi: char, lo: char)
    requires IsHexDigit(hi) && IsHexDigit(lo)
    ensures var r := Reprinted(hi, lo);
      UpperChar(r[0]) == UpperChar(hi) && UpperChar(r[1]) == UpperChar(lo)
  {
    var v := PairValue(hi, lo);
    var r := Hex2(v);
    assert HexDigitValue(r[0]) == HexDigitValue(hi) && HexDigitValue(r[1]) == HexDigitValue(lo);
    SameDigitUpper(r[0], hi);
    SameDigitUpper(r[1], lo);
  }

  /** `rgbaToHex` of a text with a match anywhere in it: the leftmost match's
      three channels, clamped, as upper-case hex. */
  lemma RgbaToHexOfMatch(s: string, m: RgbMatch)
    requires FirstMatch(s, 0) == Some(m)
    ensures RgbaToHex(s) == Upper("#" + Hex2(Clamp(DecValue(m.red))) + Hex2(Clamp(DecValue(m.green)))
      + Hex2(Clamp(DecValue(m.blue))))
  {
    assert s != "";
  }

  /** Text with no match that is not a hex colour, the empty text included,
      gives black. */
  lemma RgbaToHexFallback(s: string)
    requires FirstMatch(s, 0) == None && !IsHexColor(s)
    ensures RgbaToHex(s) == "#000000"
  {
  }

  /** `Hex2` of a reparsed pair. */
  function Reprinted(hi: char, lo: char): string
    requires IsHexDigit(hi) && IsHexDigit(lo)
  {
    Hex2(Clamp(DecValue(Dec(PairValue(hi, lo)))))
  }

  /** Two seven-character texts with the same `#` and the same letters up to
      case are equal once upper-cased. */
  lemma UpperSameColor(h: string, hex: string)
    requires |h| == 7 && |hex| == 7 && h[0] == hex[0]
    requires forall i :: 1 <= i < 7 ==> UpperChar(h[i]) == UpperChar(hex[i])
    ensures Upper(h) == Upper(hex)
  {
  }

  /** Reprinting the three pairs of a valid colour gives the colour, up to
      case. */
  lemma ReprintColor(hex: string)
    requires IsHexColor(hex)
    ensures Upper("#" + Reprinted(hex[1], hex[2]) + Reprinted(hex[3], hex[4])
      + Reprinted(hex[5], hex[6])) == Upper(hex)
  {
    var r1, r2, r3 := Reprinted(hex[1], hex[2]), Reprinted(hex[3], hex[4]), Reprinted(hex[5], hex[6]);
    PairReprint(hex[1], hex[2]);
    PairReprint(hex[3], hex[4]);
    PairReprint(hex[5], hex[6]);
    UpperOfPairs(hex, r1, r2, r3);
  }

  /** Three pairs that match a colour's pairs up to case make that colour,
      once upper-cased. */
  lemma UpperOfPairs(hex: string, r1: string, r2: string, r3: string)
    requires IsHexColor(hex) && |r1| == 2 && |r2| == 2 && |r3| == 2
    requires UpperChar(r1[0]) == UpperChar(hex[1]) && UpperChar(r1[1]) == UpperChar(hex[2])
    requires UpperChar(r2[0]) == UpperChar(hex[3]) && UpperChar(r2[1]) == UpperChar(hex[4])
    requires UpperChar(r3[0]) == UpperChar(hex[5]) && UpperChar(r3[1]) == UpperChar(hex[6])
    ensures Upper("#" + r1 + r2 + r3) == Upper(hex)
  {
    var h := "#" + r1 + r2 + r3;
    assert h == ['#', r1[0], r1[1], r2[0], r2[1], r3[0], r3[1]];
    UpperSameColor(h, hex);
  }

  /** Printing a valid hex colour as `rgba()` and reading it back gives the
      colour in upper case, whenever the alpha prints as digits and dots. */
  lemma HexRoundTrip(hex: string, alpha: string)
    requires IsHexColor(hex)
    requires |alpha| > 0 && forall j :: 0 <= j < |alpha| ==> InClass(alpha[j], DigitsOrDots)
    ensures RgbaToHex(HexToRgba(hex, alpha)) == Upper(hex)
  {
    var d1, d2, d3 := Dec(PairValue(hex[1], hex[2])), Dec(PairValue(hex[3], hex[4])), Dec(PairValue(hex[5], hex[6]));
    MatchOfPrinted(d1, d2, d3, alpha);
    assert FirstMatch(HexToRgba(hex, alpha), 0) == Some(RgbMatch(d1, d2, d3, Some(alpha)));
    RgbaToHexOfMatch(HexToRgba(hex, alpha), RgbMatch(d1, d2, d3, Some(alpha)));
    ReprintColor(hex);
  }

  /** Any text that is not a hex colour is printed as the fallback grey, and
      reads back as it. */
  lemma HexFallbackReadsBack(hex: string, alpha: string)
    requires !IsHexColor(hex)
    requires |alpha| > 0 && forall j :: 0 <= j < |alpha| ==> InClass(alpha[j], DigitsOrDots)
    ensures HexToRgba(hex, alpha) == HexToRgba(FallbackHex, alpha)
    ensures RgbaToHex(HexToRgba(hex, alpha)) == "#3C3C3C"
  {
    FallbackChannels();
    assert HexToRgba(hex, alpha) == HexToRgba(FallbackHex, alpha);
    HexRoundTrip(FallbackHex, alpha);
    UpperFallback();
  }

  /** The fallback colour in upper case. */
  lemma UpperFallback()
    ensures Upper(FallbackHex) == "#3C3C3C"
  {
    var u := Upper(FallbackHex);
    assert u[0] == '#' && u[1] == '3' && u[2] == 'C' && u[3] == '3' && u[4] == 'C' && u[5] == '3' && u[6] == 'C';
  }

  /** No match is possible in a text without an `r`. */
  lemma {:induction false} NoMatchWithoutR(s: string, i: nat)
    requires i <= |s|
    requires forall j :: i <= j < |s| ==> s[j] != 'r'
    ensures FirstMatch(s, i) == None
    decreases |s| - i
  {
    if i + 3 <= |s| {
      assert s[i..i + 3][0] == s[i];
    }
    if i < |s| {
      NoMatchWithoutR(s, i + 1);
    }
  }

  /** A valid hex colour is returned upper-cased. */
  lemma HexPassesThrough(hex: string)
    requires IsHexColor(hex)
    ensures RgbaToHex(hex) == Upper(hex)
  {
    NoMatchWithoutR(hex, 0);
  }

  // ---------------------------------------------------------------------
  // Colour controls
  // ---------------------------------------------------------------------

  /** `getColorValue(pickerId, default)`: a valid hex from the text box wins,
      then the picker's non-empty value, then the default. `None` stands for
      a missing element. */
  function GetColorValue(text: Option<string>, picker: Option<string>, default: string): (r: string)
    ensures text.Some? && IsHexColor(text.value) ==> r == text.value
    ensures !(text.Some? && IsHexColor(text.value)) && picker.Some? && picker.value != "" ==> r == picker.value
    ensures !(text.Some? && IsHexColor(text.value)) && !(picker.Some? && picker.value != "") ==> r == default
  {
    if text.Some? && IsHexColor(text.value) then text.value
    else if picker.Some? && picker.value != "" then picker.value
    else default
  }

  /** The result is a valid colour when the picker holds one (or nothing) and
      the default is one. */
  lemma GetColorValueValid(text: Option<string>, picker: Option<string>, default: string)
    requires picker.None? || IsHexColor(picker.value)
    requires IsHexColor(default)
    ensures IsHexColor(GetColorValue(text, picker, default))
  {
  }

  /** The text-box rule of the colour-picker sync: trimmed text of six hex
      digits, with or without a leading `#`, gives the colour with the `#`;
      anything else gives `None`. */
  function NormalizeColorText(value: string): (r: Option<string>)
    ensures r.Some? ==> IsHexColor(r.value)
    ensures r.Some? ==> r.value == Trim(value) || r.value == "#" + Trim(value)
    ensures r.None? ==> !IsHexColor(Trim(value)) && !IsHexColor("#" + Trim(value))
  {
    var v := Trim(value);
    HashedHexColor(v);
    if |v| == 7 && v[0] == '#' && (forall i :: 1 <= i < 7 ==> IsHexDigit(v[i])) then Some(v)
    else if |v| == 6 && (forall i :: 0 <= i < 6 ==> IsHexDigit(v[i])) then Some("#" + v)
    else None
  }

  /** Six hex digits are exactly what a `#` turns into a colour. */
  lemma HashedHexColor(v: string)
    ensures IsHexColor("#" + v) <==> |v| == 6 && forall i :: 0 <= i < 6 ==> IsHexDigit(v[i])
  {
    if |v| == 6 {
      forall i | 0 <= i < 6
        ensures ("#" + v)[i + 1] == v[i]
      {
      }
    }
  }

  /** Normalising accepts every valid colour as it is, with or without its
      `#`, and is idempotent. */
  lemma NormalizeAcceptsColors(hex: string)
    requires IsHexColor(hex)
    ensures NormalizeColorText(hex) == Some(hex)
    ensures NormalizeColorText(hex[1..]) == Some(hex)
  {
    NormalizeAcceptsHashed(hex);
    NormalizeAcceptsBare(hex);
  }

  /** A valid colour is accepted as it is. */
  lemma NormalizeAcceptsHashed(hex: string)
    requires IsHexColor(hex)
    ensures NormalizeColorText(hex) == Some(hex)
  {
    TrimStartUnchanged(hex);
    assert TrimEnd(hex) == hex;
    assert Trim(hex) == hex;
  }

  /** A valid colour without its `#` is accepted and gets the `#` back. */
  lemma NormalizeAcceptsBare(hex: string)
    requires IsHexColor(hex)
    ensures NormalizeColorText(hex[1..]) == Some(hex)
  {
    var t := hex[1..];
    forall i | 0 <= i < 6 ensures IsHexDigit(t[i]) {
      assert t[i] == hex[i + 1];
    }
    TrimStartUnchanged(t);
    assert TrimEnd(t) == t;
    assert Trim(t) == t;
    assert "#" + t == hex;
  }

  lemma NormalizeIdempotent(value: string)
    requires NormalizeColorText(value).Some?
    ensures NormalizeColorText(NormalizeColorText(value).value) == NormalizeColorText(value)
  {
    NormalizeAcceptsColors(NormalizeColorText(value).value);
  }

  /** A colour picker and its text box. */
  class ColorSync {
    var picker: string
    var text: string

    /** The text box shows the picker's colour in upper case. */
    predicate Agree()
      reads this
    {
      text == Upper(picker)
    }

    /** Setting up the pair copies the picker into the text box. */
    constructor (pickerValue: string)
      ensures picker == pickerValue && Agree()
    {
      picker := pickerValue;
      text := Upper(pickerValue);
    }

    /** The picker's `input` event. */
    method OnPickerInput(v: string)
      modifies this
      ensures picker == v && Agree()
    {
      picker := v;
      text := Upper(v);
    }

    /** The text box's `input` event after the user typed `typed`: a valid
        colour moves the picker and is shown normalised; anything else stays
        as typed. */
    method OnTextInput(typed: string)
      modifies this
      ensures NormalizeColorText(typed).Some? ==>
        picker == NormalizeColorText(typed).value && Agree()
      ensures NormalizeColorText(typed).None? ==> picker == old(picker) && text == typed
    {
      text := typed;
      var normal := NormalizeColorText(text);
      if normal.Some? {
        picker := normal.value;
        text := Upper(normal.value);
      }
    }

    /** The text box's `change` event: like `input`, except that invalid text
        reverts to the picker's colour. Either way the pair agrees after. */
    method OnTextChange()
      modifies this
      ensures Agree()
      ensures picker == (match NormalizeColorText(old(text))
                         case Some(c) => c
                         case None => old(picker))
    {
      var normal := NormalizeColorText(text);
      if normal.Some? {
        picker := normal.value;
        text := Upper(normal.value);
      } else {
        text := Upper(picker);
      }
    }
  }

  /** Once the pair agrees and the picker holds a valid colour, the colour
      chosen for the control is the picker's, up to case. */
  lemma AgreeingControlGivesPicker(picker: string, default: string)
    requires IsHexColor(picker)
    ensures Upper(GetColorValue(Some(Upper(picker)), Some(picker), default)) == Upper(picker)
  {
    UpperKeepsHexColor(picker);
  }
}
