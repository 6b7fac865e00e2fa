/** The string library functions the text codecs rest on: splitting, decimal and hexadecimal numbers. */
module Text {
  import opened Prelude

  // ------------------------------------------------------------------ splitting

  /** strings.Split(s, sep) for a one-character separator. */
  function Split(s: string, sep: char): (parts: seq<string>)
    ensures |parts| >= 1
  {
    if s == "" then [""]
    else
      var rest := Split(s[1..], sep);
      if s[0] == sep then [""] + rest else [[s[0]] + rest[0]] + rest[1..]
  }

  lemma {:induction false} SplitWhole(p: string, sep: char)
    requires sep !in p
    ensures Split(p, sep) == [p]
  {
    if p != "" {
      SplitWhole(p[1..], sep);
      assert p == [p[0]] + p[1..];
    }
  }

  lemma {:induction false} SplitFirst(p: string, sep: char, rest: string)
    requires sep !in p
    ensures Split(p + [sep] + rest, sep) == [p] + Split(rest, sep)
  {
    var s := p + [sep] + rest;
    if p == "" {
      assert s[1..] == rest;
    } else {
      SplitFirst(p[1..], sep, rest);
      assert s[1..] == p[1..] + [sep] + rest;
      assert s[0] == p[0] && p == [p[0]] + p[1..];
    }
  }

  /** unicode.IsSpace */
  predicate IsSpace(c: char) {
    var n := c as int;
    || c == ' ' || '\t' <= c <= '\r' || n == 0x85 || n == 0xA0
    || n == 0x1680 || 0x2000 <= n <= 0x200A || n == 0x2028 || n == 0x2029 || n == 0x202F || n == 0x205F || n == 0x3000
  }

  /** strings.TrimSpace */
  function TrimSpace(s: string): string {
    if s != "" && IsSpace(s[0]) then TrimSpace(s[1..])
    else if s != "" && IsSpace(s[|s| - 1]) then TrimSpace(s[..|s| - 1])
    else s
  }

  predicate Blank(s: string) { forall c :: c in s ==> IsSpace(c) }

  /** Trimming takes off all white space at both ends and nothing else. */
  lemma {:induction false} TrimSpaceIs(before: string, core: string, after: string)
    requires Blank(before) && Blank(after) && (core != "" ==> !IsSpace(core[0]) && !IsSpace(core[|core| - 1]))
    ensures TrimSpace(before + core + after) == core
    decreases |before| + |after|
  {
    hide IsSpace;
    var s := before + core + after;
    if before != "" {
      assert s[1..] == before[1..] + core + after;
      TrimSpaceIs(before[1..], core, after);
    } else if after == "" {
      assert s == core;
    } else if core == "" {
      assert s == after && s[1..] == "" + core + after[1..];
      TrimSpaceIs("", core, after[1..]);
    } else {
      assert s[0] == core[0] && s[..|s| - 1] == "" + core + after[..|after| - 1];
      TrimSpaceIs("", core, after[..|after| - 1]);
    }
  }

  // -------------------------------------------------------------------- decimal

  predicate IsDigit(c: char) { '0' <= c <= '9' }

  function Digit(d: nat): (c: char)
    requires d < 10
    ensures IsDigit(c)
  {
    '0' + d as char
  }

  /** strconv.FormatInt(n, 10) for n >= 0 */
  function FormatNat(n: nat): (s: string)
    ensures s != "" && forall c :: c in s ==> IsDigit(c)
  {
    if n < 10 then [Digit(n)] else FormatNat(n / 10) + [Digit(n % 10)]
  }

  /** strconv.FormatInt(n, 10) */
  function FormatInt(n: int): string {
    if n < 0 then "-" + FormatNat(-n) else FormatNat(n)
  }

  function ParseDigits(s: string): Option<nat> {
    if s == "" then None
    else if !IsDigit(s[|s| - 1]) then None
    else
      var d := (s[|s| - 1] - '0') as nat;
      if |s| == 1 then Some(d)
      else match ParseDigits(s[..|s| - 1])
        case None => None
        case Some(hi) => Some(10 * hi + d)
  }

  /** strconv.ParseInt(s, 10, 64) */
  function ParseInt(s: string): Option<int> {
    if s == "" then None
    else
      var negative := s[0] == '-';
      match ParseDigits(if s[0] == '+' || s[0] == '-' then s[1..] else s)
      case None => None
      case Some(n) =>
        var v: int := if negative then 0 - n else n;
        if -MAX_INT64 - 1 <= v <= MAX_INT64 then Some(v) else None
  }

  lemma {:induction false} ParseFormat(n: nat)
    ensures ParseDigits(FormatNat(n)) == Some(n)
  {
    var s := FormatNat(n);
    if n >= 10 {
      ParseFormat(n / 10);
      assert s[..|s| - 1] == FormatNat(n / 10);
    }
  }

  lemma ParseIntFormat(n: nat)
    requires n <= MAX_INT64
    ensures ParseInt(FormatInt(n)) == Some(n)
    ensures forall c :: c in FormatInt(n) ==> IsDigit(c)
  {
    ParseFormat(n);
    assert IsDigit(FormatNat(n)[0]);
  }

  predicate AllDigits(s: string) { s != "" && forall c :: c in s ==> IsDigit(c) }

  function Pow10(n: nat): nat { if n == 0 then 1 else 10 * Pow10(n - 1) }

  function DigitValue(c: char): nat
    requires IsDigit(c)
  {
    c as int - 48
  }

  /** The number digits spell, by their places. */
  function Decimal(s: string): nat
    requires forall c :: c in s ==> IsDigit(c)
  {
    if s == "" then 0 else DigitValue(s[0]) * Pow10(|s| - 1) + Decimal(s[1..])
  }

  lemma {:induction false} DecimalLast(s: string, c: char)
    requires IsDigit(c) && forall x :: x in s ==> IsDigit(x)
    ensures Decimal(s + [c]) == 10 * Decimal(s) + DigitValue(c)
  {
    if s == "" {
      assert s + [c] == [c] && Decimal([c]) == DigitValue(c) * Pow10(0) + Decimal("");
    } else {
      hide DigitValue;
      var t := s + [c];
      assert t[1..] == s[1..] + [c] && t[0] == s[0];
      DecimalLast(s[1..], c);
      TimesTen(DigitValue(s[0]), Pow10(|s| - 1));
    }
  }

  lemma TimesTen(d: nat, p: nat)
    ensures d * (10 * p) == 10 * (d * p)
  {
  }

  lemma {:induction false} ParseDigitsIs(s: string)
    ensures ParseDigits(s).Some? <==> AllDigits(s)
    ensures AllDigits(s) ==> ParseDigits(s) == Some(Decimal(s))
  {
    if s != "" {
      var init, last := s[..|s| - 1], s[|s| - 1];
      assert s == init + [last];
      assert AllDigits(s) <==> IsDigit(last) && (init == "" || AllDigits(init));
      ParseDigitsIs(init);
      if AllDigits(s) {
        DecimalLast(init, last);
      }
    }
  }

  /** A number is digits behind at most one sign, and stands for their decimal value if that fits into 64 bits. */
  lemma ParseIntIs(sign: string, digits: string)
    requires sign in {"", "+", "-"} && AllDigits(digits)
    ensures var v: int := if sign == "-" then 0 - Decimal(digits) else Decimal(digits);
            ParseInt(sign + digits) == if -0x8000_0000_0000_0000 <= v < 0x8000_0000_0000_0000 then Some(v) else None
  {
    hide Decimal;
    ParseDigitsIs(digits);
    var s := sign + digits;
    if sign == "" {
      assert s == digits && IsDigit(s[0]);
    } else {
      assert s[1..] == digits && s[0] == sign[0];
    }
  }

  /** Nothing else is a number. */
  lemma ParseIntOnly(s: string) returns (sign: string, digits: string)
    requires ParseInt(s).Some?
    ensures s == sign + digits && sign in {"", "+", "-"} && AllDigits(digits)
  {
    if s[0] == '+' || s[0] == '-' {
      sign, digits := [s[0]], s[1..];
    } else {
      sign, digits := "", s;
    }
    ParseDigitsIs(digits);
  }

  // ---------------------------------------------------------------- hexadecimal

  function HexDigit(d: nat): (c: char)
    requires d < 16
    ensures IsDigit(c) || 'a' <= c <= 'f'
  {
    if d < 10 then '0' + d as char else 'a' + (d - 10) as char
  }

  function HexValue(c: char): Option<nat> {
    if IsDigit(c) then Some((c - '0') as nat)
    else if 'a' <= c <= 'f' then Some((c - 'a') as nat + 10)
    else if 'A' <= c <= 'F' then Some((c - 'A') as nat + 10)
    else None
  }

  function HexPair(b: byte): (s: string)
    ensures |s| == 2
  {
    [HexDigit(b / 16), HexDigit(b % 16)]
  }

  /** hex.Encode */
  function HexEncode(bs: seq<byte>): (s: string)
    ensures |s| == 2 * |bs|
  {
    if bs == [] then "" else HexPair(bs[0]) + HexEncode(bs[1..])
  }

  lemma {:induction false} HexEncodeDigits(bs: seq<byte>)
    ensures forall c :: c in HexEncode(bs) ==> IsDigit(c) || 'a' <= c <= 'f'
  {
    if bs != [] {
      HexEncodeDigits(bs[1..]);
    }
  }

  /** hex.Decode: pairs of digits of either case; None is its error return. */
  function HexDecode(s: string): Option<seq<byte>> {
    if s == "" then Some([])
    else if |s| == 1 then None
    else match (HexValue(s[0]), HexValue(s[1]), HexDecode(s[2..]))
      case (Some(hi), Some(lo), Some(rest)) => if hi < 16 && lo < 16 then Some([16 * hi + lo] + rest) else None
      case _ => None
  }

  lemma {:induction false} HexRoundTrip(bs: seq<byte>)
    ensures HexDecode(HexEncode(bs)) == Some(bs)
  {
    if bs != [] {
      HexRoundTrip(bs[1..]);
      assert HexEncode(bs)[2..] == HexEncode(bs[1..]);
      assert bs == [bs[0]] + bs[1..];
    }
  }

  lemma {:induction false} HexEncodeAppend(a: seq<byte>, b: seq<byte>)
    ensures HexEncode(a + b) == HexEncode(a) + HexEncode(b)
  {
    if a == [] {
      EmptyParts(b);
      EmptyParts(HexEncode(b));
    } else {
      hide HexPair;
      HexEncodeAppend(a[1..], b);
      assert (a + b)[1..] == a[1..] + b;
      Associative(HexPair(a[0]), HexEncode(a[1..]), HexEncode(b));
    }
  }

  function LowerHex(c: char): char { if 'A' <= c <= 'F' then c - 'A' + 'a' else c }

  function LowerCase(s: string): (t: string)
    ensures |t| == |s| && forall i :: 0 <= i < |s| ==> t[i] == LowerHex(s[i])
  {
    if s == "" then "" else [LowerHex(s[0])] + LowerCase(s[1..])
  }

  lemma HexDigitValue(c: char, d: nat)
    requires d < 16
    ensures HexValue(c) == Some(d) <==> LowerHex(c) == "0123456789abcdef"[d]
    ensures HexDigit(d) == "0123456789abcdef"[d]
  {
  }

  lemma HexPairRead(s: string, b: byte)
    requires |s| >= 2
    ensures HexValue(s[0]) == Some(b / 16) && HexValue(s[1]) == Some(b % 16)
       <==> [LowerHex(s[0]), LowerHex(s[1])] == HexPair(b)
  {
    hide HexValue, LowerHex, HexDigit;
    HexDigitValue(s[0], b / 16);
    HexDigitValue(s[1], b % 16);
  }

  lemma LowerCaseTwo(s: string)
    requires |s| >= 2
    ensures LowerCase(s) == [LowerHex(s[0]), LowerHex(s[1])] + LowerCase(s[2..])
  {
  }

  lemma HexDecodeTwo(s: string, b: byte, rest: seq<byte>)
    requires |s| >= 2
    ensures HexDecode(s) == Some([b] + rest)
       <==> HexDecode(s[2..]) == Some(rest) && HexValue(s[0]) == Some(b / 16) && HexValue(s[1]) == Some(b % 16)
  {
    hide HexValue;
    if HexDecode(s) == Some([b] + rest) {
      assert ([b] + rest)[1..] == rest;
      assert HexDecode(s).value[1..] == HexDecode(s[2..]).value;
      assert HexDecode(s).value[0] == 16 * HexValue(s[0]).value + HexValue(s[1]).value;
    }
  }

  lemma HexDecodeLength(s: string)
    ensures HexDecode(s).Some? ==> |s| == 2 * |HexDecode(s).value|
  {
  }

  /** Decoding reads the digits encoding writes, and their upper-case forms, and no others. */
  lemma {:induction false} HexDecodeIs(s: string, bs: seq<byte>)
    ensures HexDecode(s) == Some(bs) <==> LowerCase(s) == HexEncode(bs)
    decreases |bs|
  {
    HexDecodeLength(s);
    if |s| == 2 * |bs| && bs != [] {
      hide HexDecode, HexPair, HexValue, LowerHex;
      var b, rest := bs[0], bs[1..];
      assert bs == [b] + rest;
      HexDecodeIs(s[2..], rest);
      HexPairRead(s, b);
      HexDecodeTwo(s, b, rest);
      LowerCaseTwo(s);
      var x, y := [LowerHex(s[0]), LowerHex(s[1])], LowerCase(s[2..]);
      assert (x + y)[..2] == x && (x + y)[2..] == y;
      var h, hs := HexPair(b), HexEncode(rest);
      assert (h + hs)[..2] == h && (h + hs)[2..] == hs;
    }
  }
}
