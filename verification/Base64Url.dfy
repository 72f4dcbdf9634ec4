/**
 * URL-safe base64 without padding: section 5 of RFC 4648, with the '=' characters left out as
 * section 3.2 permits.  Decoding puts them back and then reads as leniently as Python's base64
 * module does by default: characters outside the alphabet are skipped, and '+' and '/' are read too.
 */
module Base64Url {
  import opened Wrappers

  type byte = b: int | 0 <= b < 256
  type sextet = x: int | 0 <= x < 64

  function Symbol(x: sextet): char {
    if x < 26 then ('A' as int + x) as char
    else if x < 52 then ('a' as int + x - 26) as char
    else if x < 62 then ('0' as int + x - 52) as char
    else if x == 62 then '-'
    else '_'
  }

  function Value(c: char): Option<sextet> {
    if 'A' <= c <= 'Z' then Some(c as int - 'A' as int)
    else if 'a' <= c <= 'z' then Some(c as int - 'a' as int + 26)
    else if '0' <= c <= '9' then Some(c as int - '0' as int + 52)
    else if c == '-' || c == '+' then Some(62)
    else if c == '_' || c == '/' then Some(63)
    else None
  }

  function Group(b0: byte, b1: byte, b2: byte): string {
    [Symbol(b0 / 4), Symbol(b0 % 4 * 16 + b1 / 16), Symbol(b1 % 16 * 4 + b2 / 64), Symbol(b2 % 64)]
  }

  /** The symbols of a byte string, without padding. */
  function Symbols(b: seq<byte>): string {
    if |b| == 0 then ""
    else if |b| == 1 then [Symbol(b[0] / 4), Symbol(b[0] % 4 * 16)]
    else if |b| == 2 then [Symbol(b[0] / 4), Symbol(b[0] % 4 * 16 + b[1] / 16), Symbol(b[1] % 16 * 4)]
    else Group(b[0], b[1], b[2]) + Symbols(b[3..])
  }

  function Padding(n: nat): string {
    if n == 0 then "" else "=" + Padding(n - 1)
  }

  function EncodePadded(b: seq<byte>): string {
    Symbols(b) + Padding((3 - |b| % 3) % 3)
  }

  function WithoutPadding(s: string): string {
    if s != "" && s[|s| - 1] == '=' then WithoutPadding(s[..|s| - 1]) else s
  }

  function Encode(b: seq<byte>): string {
    WithoutPadding(EncodePadded(b))
  }

  function Prepend(b: byte, rest: Option<seq<byte>>): Option<seq<byte>> {
    if rest.None? then None else Some([b] + rest.value)
  }

  /** `quad` symbols of the current group are read, `left` holds the bits of the last not yet used. */
  function Scan(s: string, quad: nat, left: nat, pads: nat): Option<seq<byte>>
    requires quad < 4 && left < [1, 64, 16, 4][quad]
  {
    if s == "" then
      if quad == 0 then Some([]) else None
    else if s[0] == '=' then
      if quad >= 2 && quad + pads + 1 >= 4 then Some([])
      else Scan(s[1..], quad, left, if quad >= 2 then pads + 1 else pads)
    else
      match Value(s[0])
      case None => Scan(s[1..], quad, left, pads)
      case Some(v) =>
        if quad == 0 then Scan(s[1..], 1, v, 0)
        else if quad == 1 then Prepend(left * 4 + v / 16, Scan(s[1..], 2, v % 16, 0))
        else if quad == 2 then Prepend(left * 16 + v / 4, Scan(s[1..], 3, v % 4, 0))
        else Prepend(left * 64 + v, Scan(s[1..], 0, 0, 0))
  }

  /** None when Python raises: a character outside ASCII, or an incomplete last group. */
  function Decode(s: string): Option<seq<byte>> {
    if exists i :: 0 <= i < |s| && s[i] >= 128 as char then None
    else Scan(s + Padding((4 - |s| % 4) % 4), 0, 0, 0)
  }

  // ---------------------------------------------------------------- round trip

  lemma SymbolHasItsValue(x: sextet)
    ensures Value(Symbol(x)) == Some(x)
    ensures Symbol(x) != '=' && Symbol(x) != '.' && Symbol(x) < 128 as char
  {
  }

  lemma {:induction false} SymbolsAreSymbols(b: seq<byte>, i: nat)
    requires i < |Symbols(b)|
    ensures Symbols(b)[i] != '=' && Symbols(b)[i] != '.' && Symbols(b)[i] < 128 as char
  {
    if |b| >= 3 && i >= 4 {
      SymbolsAreSymbols(b[3..], i - 4);
    }
  }

  lemma {:induction false} SymbolCount(b: seq<byte>)
    ensures |Symbols(b)| == |b| / 3 * 4 + if |b| % 3 == 0 then 0 else |b| % 3 + 1
  {
    if |b| >= 3 {
      SymbolCount(b[3..]);
    }
  }

  lemma {:induction false} PaddingLength(n: nat)
    ensures |Padding(n)| == n && forall i :: 0 <= i < n ==> Padding(n)[i] == '='
  {
    if n > 0 {
      PaddingLength(n - 1);
    }
  }

  lemma {:induction false} PaddingComesOff(s: string, n: nat)
    requires s == "" || s[|s| - 1] != '='
    ensures WithoutPadding(s + Padding(n)) == s
  {
    PaddingLength(n);
    if n == 0 {
      assert s + Padding(0) == s;
    } else {
      PaddingLength(n - 1);
      assert (s + Padding(n))[..|s| + n - 1] == s + Padding(n - 1);
      PaddingComesOff(s, n - 1);
    }
  }

  /** Encoding leaves just the symbols. */
  lemma EncodeIsSymbols(b: seq<byte>)
    ensures Encode(b) == Symbols(b)
  {
    var s := Symbols(b);
    if s != "" {
      SymbolsAreSymbols(b, |s| - 1);
    }
    PaddingComesOff(s, (3 - |b| % 3) % 3);
  }

  /** Four symbols give back their three bytes. */
  lemma GroupRoundTrip(b0: byte, b1: byte, b2: byte)
    ensures var x0, x1, x2, x3 := b0 / 4, b0 % 4 * 16 + b1 / 16, b1 % 16 * 4 + b2 / 64, b2 % 64;
      x0 * 4 + x1 / 16 == b0 && x1 % 16 * 16 + x2 / 4 == b1 && x2 % 4 * 64 + x3 == b2
  {
  }

  lemma ScanReads(s: string, x: sextet, quad: nat, left: nat)
    requires s != "" && s[0] == Symbol(x) && quad < 4 && left < [1, 64, 16, 4][quad]
    ensures Scan(s, quad, left, 0) ==
      if quad == 0 then Scan(s[1..], 1, x, 0)
      else if quad == 1 then Prepend(left * 4 + x / 16, Scan(s[1..], 2, x % 16, 0))
      else if quad == 2 then Prepend(left * 16 + x / 4, Scan(s[1..], 3, x % 4, 0))
      else Prepend(left * 64 + x, Scan(s[1..], 0, 0, 0))
  {
    SymbolHasItsValue(x);
  }

  lemma ScanGroup(b0: byte, b1: byte, b2: byte, rest: string)
    ensures Scan(Group(b0, b1, b2) + rest, 0, 0, 0) == Prepend(b0, Prepend(b1, Prepend(b2, Scan(rest, 0, 0, 0))))
  {
    var x0, x1, x2, x3 := b0 / 4, b0 % 4 * 16 + b1 / 16, b1 % 16 * 4 + b2 / 64, b2 % 64;
    GroupRoundTrip(b0, b1, b2);
    var s := Group(b0, b1, b2) + rest;
    var s1, s2, s3 := s[1..], s[2..], s[3..];
    assert s1[1..] == s2 && s2[1..] == s3 && s3[1..] == rest;
    ScanReads(s, x0, 0, 0);
    ScanReads(s1, x1, 1, x0);
    ScanReads(s2, x2, 2, x1 % 16);
    ScanReads(s3, x3, 3, x2 % 4);
  }

  /** The padding of a short last group ends the scan. */
  lemma ScanEnds(left: nat)
    requires left < 4
    ensures Scan("=", 3, left, 0) == Some([])
    ensures Scan("==", 2, left * 4, 0) == Some([])
  {
    assert "=="[1..] == "=";
  }

  lemma ScanPair(b0: byte, b1: byte)
    ensures Scan(Symbols([b0, b1]) + "=", 0, 0, 0) == Some([b0, b1])
  {
    GroupRoundTrip(b0, b1, 0);
    var x0, x1, x2 := b0 / 4, b0 % 4 * 16 + b1 / 16, b1 % 16 * 4;
    var s := [Symbol(x0), Symbol(x1), Symbol(x2), '='];
    assert Symbols([b0, b1]) + "=" == s;
    var s1, s2, s3 := s[1..], s[2..], s[3..];
    assert s1[1..] == s2 && s2[1..] == s3;
    ScanReads(s, x0, 0, 0);
    ScanReads(s1, x1, 1, x0);
    ScanReads(s2, x2, 2, x1 % 16);
    assert s3 == "=";
    ScanEnds(x2 % 4);
    assert [b0] + ([b1] + []) == [b0, b1];
  }

  lemma ScanSingle(b0: byte)
    ensures Scan(Symbols([b0]) + "==", 0, 0, 0) == Some([b0])
  {
    GroupRoundTrip(b0, 0, 0);
    var x0, x1 := b0 / 4, b0 % 4 * 16;
    var s := [Symbol(x0), Symbol(x1), '=', '='];
    assert Symbols([b0]) + "==" == s;
    var s1, s2 := s[1..], s[2..];
    assert s1[1..] == s2;
    ScanReads(s, x0, 0, 0);
    ScanReads(s1, x1, 1, x0);
    assert s2 == "==" && x1 % 16 == 0;
    ScanEnds(0);
    assert [b0] + [] == [b0];
  }

  lemma EncodeStep(b: seq<byte>)
    requires |b| >= 3
    ensures EncodePadded(b) == Group(b[0], b[1], b[2]) + EncodePadded(b[3..])
  {
    var head, rest, tail := Group(b[0], b[1], b[2]), Symbols(b[3..]), Padding((3 - |b| % 3) % 3);
    assert Symbols(b) == head + rest;
    assert |b[3..]| % 3 == |b| % 3;
    assert (head + rest) + tail == head + (rest + tail);
  }

  lemma PrependThree(b: seq<byte>)
    requires |b| >= 3
    ensures Prepend(b[0], Prepend(b[1], Prepend(b[2], Some(b[3..])))) == Some(b)
  {
    assert [b[0]] + ([b[1]] + ([b[2]] + b[3..])) == b;
  }

  lemma {:induction false} ScanRoundTrip(b: seq<byte>)
    ensures Scan(EncodePadded(b), 0, 0, 0) == Some(b)
  {
    if |b| == 0 {
      assert EncodePadded(b) == "";
    } else if |b| == 1 {
      assert b == [b[0]] && EncodePadded([b[0]]) == Symbols([b[0]]) + "==" by {
        assert Padding(2) == "=" + Padding(1) == "==";
      }
      ScanSingle(b[0]);
    } else if |b| == 2 {
      assert b == [b[0], b[1]] && EncodePadded([b[0], b[1]]) == Symbols([b[0], b[1]]) + "=" by {
        assert Padding(1) == "=" + Padding(0) == "=";
      }
      ScanPair(b[0], b[1]);
    } else {
      ScanRoundTrip(b[3..]);
      EncodeStep(b);
      ScanGroup(b[0], b[1], b[2], EncodePadded(b[3..]));
      PrependThree(b);
    }
  }

  lemma AllSymbols(b: seq<byte>)
    ensures forall i :: 0 <= i < |Symbols(b)| ==> Symbols(b)[i] != '.' && Symbols(b)[i] < 128 as char
  {
    forall i | 0 <= i < |Symbols(b)| ensures Symbols(b)[i] != '.' && Symbols(b)[i] < 128 as char {
      SymbolsAreSymbols(b, i);
    }
  }

  lemma PaddingArithmetic(bytes: nat, symbols: nat)
    requires symbols == bytes / 3 * 4 + if bytes % 3 == 0 then 0 else bytes % 3 + 1
    ensures (4 - symbols % 4) % 4 == (3 - bytes % 3) % 3
  {
  }

  /** The length of the symbols alone tells how much padding was left out. */
  lemma PaddingIsRecovered(b: seq<byte>)
    ensures (4 - |Symbols(b)| % 4) % 4 == (3 - |b| % 3) % 3
  {
    SymbolCount(b);
    PaddingArithmetic(|b|, |Symbols(b)|);
  }

  /** Decoding an encoded byte string gives it back. */
  lemma RoundTrip(b: seq<byte>)
    ensures Decode(Encode(b)) == Some(b)
  {
    EncodeIsSymbols(b);
    var s := Encode(b);
    AllSymbols(b);
    PaddingIsRecovered(b);
    assert s + Padding((4 - |s| % 4) % 4) == EncodePadded(b);
    ScanRoundTrip(b);
  }

  lemma EncodeIsInjective(a: seq<byte>, b: seq<byte>)
    requires Encode(a) == Encode(b)
    ensures a == b
  {
    RoundTrip(a);
    RoundTrip(b);
  }

  /** An encoded string never contains the token separator, and 32 bytes become 43 characters. */
  lemma EncodedShape(b: seq<byte>)
    ensures forall i :: 0 <= i < |Encode(b)| ==> Encode(b)[i] != '.'
    ensures |b| == 32 ==> |Encode(b)| == 43
  {
    EncodeIsSymbols(b);
    SymbolCount(b);
    AllSymbols(b);
  }

  // ---------------------------------------------------------------- the alphabet

  /** The symbols are table 2 of RFC 4648: A to Z, a to z, 0 to 9, each in order, then '-' and '_'. */
  lemma SymbolsAreTheAlphabet(x: sextet)
    ensures Symbol(0) == 'A' && Symbol(25) == 'Z' && Symbol(26) == 'a' && Symbol(51) == 'z'
    ensures Symbol(52) == '0' && Symbol(61) == '9' && Symbol(62) == '-' && Symbol(63) == '_'
    ensures x !in {25, 51, 61, 62, 63} ==> Symbol(x + 1) as int == Symbol(x) as int + 1
  {
  }

  /** A character is read as the number whose symbol it is; '+' and '/' stand for '-' and '_'. */
  lemma ValuesAreOfSymbols(c: char, x: sextet)
    ensures Value(c) == Some(x) <==> c == Symbol(x) || (c == '+' && x == 62) || (c == '/' && x == 63)
  {
  }

  // ---------------------------------------------------------------- the bits

  /** Bit p of a number, counted from the last. */
  function Bit(v: nat, p: nat): nat {
    if p == 0 then v % 2 else Bit(v / 2, p - 1)
  }

  /** `a` followed by the last w bits of c. */
  function Append(a: nat, c: nat, w: nat): nat {
    if w == 0 then a else 2 * Append(a, c / 2, w - 1) + c % 2
  }

  lemma {:induction false} BitsOfAppend(a: nat, c: nat, w: nat, p: nat)
    ensures Bit(Append(a, c, w), p) == if p < w then Bit(c, p) else Bit(a, p - w)
  {
    if w > 0 && p > 0 {
      BitsOfAppend(a, c / 2, w - 1, p - 1);
    }
  }

  lemma AppendTwo(a: nat, c: nat)
    requires c < 4
    ensures Append(a, c, 2) == a * 4 + c
  {
    assert Append(a, c / 4, 0) == a;
    assert Append(a, c / 2, 1) == 2 * a + c / 2 % 2;
  }

  lemma AppendFour(a: nat, c: nat)
    requires c < 16
    ensures Append(a, c, 4) == a * 16 + c
  {
    AppendTwo(a, c / 4);
    assert Append(a, c / 2, 3) == 2 * Append(a, c / 4, 2) + c / 2 % 2;
  }

  lemma AppendSix(a: nat, c: nat)
    requires c < 64
    ensures Append(a, c, 6) == a * 64 + c
  {
    AppendFour(a, c / 4);
    assert Append(a, c / 2, 5) == 2 * Append(a, c / 4, 4) + c / 2 % 2;
  }

  lemma BitsOfByte(b: byte, p: nat)
    ensures Bit(b, p) == if p < 2 then Bit(b % 4, p) else Bit(b / 4, p - 2)
    ensures Bit(b, p) == if p < 4 then Bit(b % 16, p) else Bit(b / 16, p - 4)
    ensures Bit(b, p) == if p < 6 then Bit(b % 64, p) else Bit(b / 64, p - 6)
  {
    AppendTwo(b / 4, b % 4);
    BitsOfAppend(b / 4, b % 4, 2, p);
    AppendFour(b / 16, b % 16);
    BitsOfAppend(b / 16, b % 16, 4, p);
    AppendSix(b / 64, b % 64);
    BitsOfAppend(b / 64, b % 64, 6, p);
  }

  lemma GroupBits(b0: byte, b1: byte, b2: byte, n: nat)
    requires n < 24
    ensures Bit([b0 / 4, b0 % 4 * 16 + b1 / 16, b1 % 16 * 4 + b2 / 64, b2 % 64][n / 6], 5 - n % 6) ==
      Bit([b0, b1, b2][n / 8], 7 - n % 8)
  {
    hide Bit, Append;
    BitsOfByte([b0, b1, b2][n / 8], 7 - n % 8);
    if 6 <= n < 12 {
      AppendFour(b0 % 4, b1 / 16);
      BitsOfAppend(b0 % 4, b1 / 16, 4, 11 - n);
    } else if 12 <= n < 18 {
      AppendTwo(b1 % 16, b2 / 64);
      BitsOfAppend(b1 % 16, b2 / 64, 2, 17 - n);
    }
  }

  lemma {:induction false} NoBitsInZero(p: nat)
    ensures Bit(0, p) == 0
  {
    if p > 0 {
      NoBitsInZero(p - 1);
    }
  }

  /** Bit n of a byte string, the most significant of each byte first; zeros follow the last. */
  function StreamBit(b: seq<byte>, n: nat): nat {
    if n < 8 * |b| then Bit(b[n / 8], 7 - n % 8) else 0
  }

  lemma StreamAfterGroup(b: seq<byte>, n: nat)
    requires |b| >= 3
    ensures StreamBit(b, n + 24) == StreamBit(b[3..], n)
  {
    hide Bit;
    assert (n + 24) / 8 == n / 8 + 3 && (n + 24) % 8 == n % 8;
  }

  lemma SymbolsAfterGroup(b: seq<byte>, i: nat)
    requires i + 4 < |Symbols(b)|
    ensures |b| >= 3 && i < |Symbols(b[3..])| && Symbols(b)[i + 4] == Symbols(b[3..])[i]
  {
  }

  lemma FirstGroupBits(b: seq<byte>, i: nat, k: nat)
    requires i < |Symbols(b)| && i < 4 && k < 6
    ensures Value(Symbols(b)[i]).Some? && Bit(Value(Symbols(b)[i]).value, 5 - k) == StreamBit(b, 6 * i + k)
  {
    hide Bit;
    var b1: byte, b2: byte := if |b| > 1 then b[1] else 0, if |b| > 2 then b[2] else 0;
    var xs: seq<sextet> := [b[0] / 4, b[0] % 4 * 16 + b1 / 16, b1 % 16 * 4 + b2 / 64, b2 % 64];
    GroupBits(b[0], b1, b2, 6 * i + k);
    NoBitsInZero(7 - (6 * i + k) % 8);
    SymbolHasItsValue(xs[i]);
    assert Symbols(b)[i] == Symbol(xs[i]);
  }

  /** Bit k of symbol i is bit 6 i + k of the bytes: they are kept in order, six at a time, and zeros follow. */
  lemma {:induction false} EncodingKeepsTheBits(b: seq<byte>, i: nat, k: nat)
    requires i < |Symbols(b)| && k < 6
    ensures Value(Symbols(b)[i]).Some? && Bit(Value(Symbols(b)[i]).value, 5 - k) == StreamBit(b, 6 * i + k)
    decreases i
  {
    hide Bit, Value, Symbols, StreamBit;
    if i < 4 {
      FirstGroupBits(b, i, k);
    } else {
      SymbolsAfterGroup(b, i - 4);
      EncodingKeepsTheBits(b[3..], i - 4, k);
      StreamAfterGroup(b, 6 * (i - 4) + k);
    }
  }

  // ---------------------------------------------------------------- lenient reading

  /** Characters that are neither symbols nor padding are passed over. */
  lemma {:induction false} ForeignCharactersAreSkipped(s: string, c: char, t: string, quad: nat, left: nat, pads: nat)
    requires quad < 4 && left < [1, 64, 16, 4][quad] && Value(c).None? && c != '='
    ensures Scan(s + [c] + t, quad, left, pads) == Scan(s + t, quad, left, pads)
  {
    if s == "" {
      assert (s + [c] + t)[1..] == t && s + t == t;
    } else {
      assert (s + [c] + t)[1..] == s[1..] + [c] + t && (s + t)[1..] == s[1..] + t;
      if s[0] == '=' {
        if !(quad >= 2 && quad + pads + 1 >= 4) {
          ForeignCharactersAreSkipped(s[1..], c, t, quad, left, if quad >= 2 then pads + 1 else pads);
        }
      } else {
        match Value(s[0])
        case None => ForeignCharactersAreSkipped(s[1..], c, t, quad, left, pads);
        case Some(v) =>
          var rest := if quad == 0 then v else if quad == 1 then v % 16 else if quad == 2 then v % 4 else 0;
          ForeignCharactersAreSkipped(s[1..], c, t, if quad == 3 then 0 else quad + 1, rest, 0);
      }
    }
  }
}
