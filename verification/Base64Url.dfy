/** Unpadded base64url, as license files carry it (section 5 of RFC 4648). The decoder is the
    lenient one of the Python library: it skips ASCII characters outside the alphabet and also takes
    the standard alphabet's `+` and `/`. A text with any other character is refused. */
module Base64Url {
  import opened Prelude

  predicate UrlChar(c: char) {
    'A' <= c <= 'Z' || 'a' <= c <= 'z' || '0' <= c <= '9' || c == '-' || c == '_'
  }

  function Digit(v: int): (c: char)
    requires 0 <= v < 64
    ensures UrlChar(c)
    ensures Value(c) == Some(v)
  {
    if v < 26 then (v + 'A' as int) as char
    else if v < 52 then (v - 26 + 'a' as int) as char
    else if v < 62 then (v - 52 + '0' as int) as char
    else if v == 62 then '-' else '_'
  }

  function Value(c: char): (v: Option<int>)
    ensures v.Some? ==> 0 <= v.value < 64
  {
    if 'A' <= c <= 'Z' then Some(c as int - 'A' as int)
    else if 'a' <= c <= 'z' then Some(c as int - 'a' as int + 26)
    else if '0' <= c <= '9' then Some(c as int - '0' as int + 52)
    else if c == '-' || c == '+' then Some(62)
    else if c == '_' || c == '/' then Some(63)
    else None
  }

  /** `base64.urlsafe_b64encode`. */
  function EncodePadded(data: seq<byte>): string {
    if data == [] then []
    else if |data| == 1 then
      var a := data[0] as int;
      [Digit(a / 4), Digit(a % 4 * 16), '=', '=']
    else if |data| == 2 then
      var a, b := data[0] as int, data[1] as int;
      [Digit(a / 4), Digit(a % 4 * 16 + b / 16), Digit(b % 16 * 4), '=']
    else
      var a, b, c := data[0] as int, data[1] as int, data[2] as int;
      [Digit(a / 4), Digit(a % 4 * 16 + b / 16), Digit(b % 16 * 4 + c / 64), Digit(c % 64)] + EncodePadded(data[3..])
  }

  function RStrip(text: string): string {
    if text != [] && text[|text| - 1] == '=' then RStrip(text[..|text| - 1]) else text
  }

  function Encode(data: seq<byte>): string {
    RStrip(EncodePadded(data))
  }

  function Pads(n: nat): (p: string)
    ensures |p| == n && forall i :: 0 <= i < n ==> p[i] == '='
  {
    seq(n, _ => '=')
  }

  /** The library's decoding loop: `quad` characters of the current group are read, `left` holds
      their unused bits, `pads` counts padding in this group. None: the input ends inside a group. */
  function Decoded(text: string, quad: nat, left: int, pads: nat): Option<seq<byte>>
    requires quad < 4 && 0 <= left
    requires (quad == 0 ==> left == 0) && (quad == 1 ==> left < 64)
    requires (quad == 2 ==> left < 16) && (quad == 3 ==> left < 4)
  {
    if text == [] then
      if quad == 0 then Some([]) else None
    else if text[0] == '=' then
      if quad >= 2 && quad + pads + 1 >= 4 then Some([])
      else Decoded(text[1..], quad, left, if quad >= 2 then pads + 1 else pads)
    else
      match Value(text[0])
      case None => Decoded(text[1..], quad, left, pads)
      case Some(v) =>
        if quad == 0 then Decoded(text[1..], 1, v, 0)
        else if quad == 1 then Emit(left * 4 + v / 16, Decoded(text[1..], 2, v % 16, 0))
        else if quad == 2 then Emit(left * 16 + v / 4, Decoded(text[1..], 3, v % 4, 0))
        else Emit(left * 64 + v, Decoded(text[1..], 0, 0, 0))
  }

  function Emit(b: int, rest: Option<seq<byte>>): Option<seq<byte>>
    requires 0 <= b < 256
  {
    match rest
    case None => None
    case Some(data) => Some([b as byte] + data)
  }

  predicate IsAscii(text: string) {
    forall i :: 0 <= i < |text| ==> text[i] < '\U{80}'
  }

  /** `_b64decode`: put the padding back, then decode. */
  function Decode(text: string): Option<seq<byte>> {
    if !IsAscii(text) then None else Decoded(text + Pads((4 - |text| % 4) % 4), 0, 0, 0)
  }

  // --- round trip ---

  predicate Clean(text: string) {
    forall c :: c in text ==> UrlChar(c)
  }

  /** The digits alone. */
  function Digits(data: seq<byte>): string {
    if data == [] then []
    else if |data| == 1 then EncodePadded(data)[..2]
    else if |data| == 2 then EncodePadded(data)[..3]
    else EncodePadded(data)[..4] + Digits(data[3..])
  }

  function Missing(data: seq<byte>): nat {
    if |data| >= 3 then Missing(data[3..]) else if data == [] then 0 else 3 - |data|
  }

  lemma AddFour(n: nat)
    ensures (n + 4) % 4 == n % 4
  {
  }

  lemma FirstQuad(data: seq<byte>)
    requires |data| >= 3
    ensures EncodePadded(data) == EncodePadded(data)[..4] + EncodePadded(data[3..])
    ensures Clean(EncodePadded(data)[..4])
  {
  }

  lemma {:induction false} DigitsAndPads(data: seq<byte>)
    ensures EncodePadded(data) == Digits(data) + Pads(Missing(data))
    ensures Clean(Digits(data))
  {
    if |data| >= 3 {
      DigitsAndPads(data[3..]);
      FirstQuad(data);
    }
  }

  /** Digits and padding fill whole groups. */
  lemma {:induction false} WholeGroups(data: seq<byte>)
    ensures Missing(data) < 3 && (|Digits(data)| + Missing(data)) % 4 == 0
  {
    if |data| >= 3 {
      WholeGroups(data[3..]);
      assert |Digits(data)| == 4 + |Digits(data[3..])|;
      AddFour(|Digits(data[3..])| + Missing(data));
    }
  }

  lemma {:induction false} StripsPads(text: string, n: nat)
    requires Clean(text)
    ensures RStrip(text + Pads(n)) == text
  {
    if n == 0 {
      assert text + Pads(0) == text;
      assert text != [] ==> text[|text| - 1] in text;
    } else {
      StripsPads(text, n - 1);
      assert (text + Pads(n))[..|text| + n - 1] == text + Pads(n - 1);
    }
  }

  lemma EncodeIsDigits(data: seq<byte>)
    ensures Encode(data) == Digits(data)
  {
    DigitsAndPads(data);
    StripsPads(Digits(data), Missing(data));
  }

  lemma PadCount(length: nat, missing: nat)
    requires missing < 3 && (length + missing) % 4 == 0
    ensures (4 - length % 4) % 4 == missing
  {
  }

  lemma Repadded(data: seq<byte>, text: string)
    requires text == Digits(data)
    ensures text + Pads((4 - |text| % 4) % 4) == EncodePadded(data) && Clean(text)
  {
    DigitsAndPads(data);
    WholeGroups(data);
    PadCount(|text|, Missing(data));
  }

  /** The padding that was taken off is the padding that is put back. */
  lemma PaddingRestored(data: seq<byte>)
    ensures Encode(data) + Pads((4 - |Encode(data)| % 4) % 4) == EncodePadded(data)
    ensures Clean(Encode(data))
  {
    EncodeIsDigits(data);
    Repadded(data, Encode(data));
  }

  function Group(a: int, b: int, c: int): string
    requires 0 <= a < 256 && 0 <= b < 256 && 0 <= c < 256
  {
    [Digit(a / 4), Digit(a % 4 * 16 + b / 16), Digit(b % 16 * 4 + c / 64), Digit(c % 64)]
  }

  /** What the loop does with one digit. */
  lemma DigitStep(v: int, tail: string, quad: nat, left: int)
    requires 0 <= v < 64 && quad < 4 && 0 <= left
    requires (quad == 0 ==> left == 0) && (quad == 1 ==> left < 64)
    requires (quad == 2 ==> left < 16) && (quad == 3 ==> left < 4)
    ensures Decoded([Digit(v)] + tail, quad, left, 0) ==
            if quad == 0 then Decoded(tail, 1, v, 0)
            else if quad == 1 then Emit(left * 4 + v / 16, Decoded(tail, 2, v % 16, 0))
            else if quad == 2 then Emit(left * 16 + v / 4, Decoded(tail, 3, v % 4, 0))
            else Emit(left * 64 + v, Decoded(tail, 0, 0, 0))
  {
    assert ([Digit(v)] + tail)[1..] == tail;
  }

  /** Six bits and six bits put eight together again. */
  lemma Bits(a: int, b: int, c: int)
    requires 0 <= a < 256 && 0 <= b < 256 && 0 <= c < 256
    ensures var w, x, y, z := a / 4, a % 4 * 16 + b / 16, b % 16 * 4 + c / 64, c % 64;
            && w < 64 && x < 64 && y < 64 && w * 4 + x / 16 == a
            && x % 16 * 16 + y / 4 == b && y % 4 * 64 + z == c
  {
    var x, y := a % 4 * 16 + b / 16, b % 16 * 4 + c / 64;
    assert x / 16 == a % 4 && x % 16 == b / 16;
    assert y / 4 == b % 16 && y % 4 == c / 64;
  }

  lemma FourDigits(w: int, x: int, y: int, z: int, rest: string)
    requires 0 <= w < 64 && 0 <= x < 64 && 0 <= y < 64 && 0 <= z < 64
    ensures Decoded([Digit(w)] + ([Digit(x)] + ([Digit(y)] + ([Digit(z)] + rest))), 0, 0, 0) ==
            Emit(w * 4 + x / 16, Emit(x % 16 * 16 + y / 4, Emit(y % 4 * 64 + z, Decoded(rest, 0, 0, 0))))
  {
    var last := [Digit(z)] + rest;
    var third := [Digit(y)] + last;
    DigitStep(z, rest, 3, y % 4);
    DigitStep(y, last, 2, x % 16);
    DigitStep(x, third, 1, w);
    DigitStep(w, [Digit(x)] + third, 0, 0);
  }

  lemma FourThen(a: char, b: char, c: char, d: char, rest: string)
    ensures [a, b, c, d] + rest == [a] + ([b] + ([c] + ([d] + rest)))
  {
  }

  lemma FullGroup(a: int, b: int, c: int, rest: string, text: string)
    requires 0 <= a < 256 && 0 <= b < 256 && 0 <= c < 256 && text == Group(a, b, c) + rest
    ensures Decoded(text, 0, 0, 0) == Emit(a, Emit(b, Emit(c, Decoded(rest, 0, 0, 0))))
  {
    var w, x, y, z := a / 4, a % 4 * 16 + b / 16, b % 16 * 4 + c / 64, c % 64;
    Bits(a, b, c);
    FourThen(Digit(w), Digit(x), Digit(y), Digit(z), rest);
    FourDigits(w, x, y, z, rest);
  }

  lemma EmitThree(a: byte, b: byte, c: byte, rest: seq<byte>)
    ensures Emit(a as int, Emit(b as int, Emit(c as int, Some(rest)))) == Some([a, b, c] + rest)
  {
    assert [a] + ([b] + ([c] + rest)) == [a, b, c] + rest;
  }

  lemma LastPad(left: int)
    requires 0 <= left < 4
    ensures Decoded("=", 3, left, 0) == Some([])
  {
  }

  lemma TwoBytes(a: int, b: int)
    requires 0 <= a < 256 && 0 <= b < 256
    ensures Decoded([Digit(a / 4), Digit(a % 4 * 16 + b / 16), Digit(b % 16 * 4), '='], 0, 0, 0)
         == Emit(a, Emit(b, Some([])))
  {
    var w, x, y := a / 4, a % 4 * 16 + b / 16, b % 16 * 4;
    Bits(a, b, 0);
    var third := [Digit(y)] + "=";
    LastPad(y % 4);
    DigitStep(y, "=", 2, x % 16);
    DigitStep(x, third, 1, w);
    DigitStep(w, [Digit(x)] + third, 0, 0);
    assert [Digit(w), Digit(x), Digit(y), '='] == [Digit(w)] + ([Digit(x)] + third);
  }

  lemma OneByte(a: int)
    requires 0 <= a < 256
    ensures Decoded([Digit(a / 4), Digit(a % 4 * 16), '=', '='], 0, 0, 0) == Emit(a, Some([]))
  {
    var w, x := a / 4, a % 4 * 16;
    var t := [Digit(w), Digit(x), '=', '='];
    assert t[1..] == [Digit(x), '=', '='] && t[1..][1..] == "==" && t[1..][1..][1..] == "=";
    assert Decoded("=", 2, x % 16, 1) == Some([]);
    assert Decoded("==", 2, x % 16, 0) == Some([]);
    assert Decoded(t[1..], 1, w, 0) == Emit(a, Some([]));
  }

  lemma EncodesGroup(data: seq<byte>)
    requires |data| >= 3
    ensures EncodePadded(data) == Group(data[0] as int, data[1] as int, data[2] as int) + EncodePadded(data[3..])
  {
  }

  lemma DecodesGroup(a: byte, b: byte, c: byte, rest: seq<byte>, text: string)
    requires Decoded(text, 0, 0, 0) == Some(rest)
    ensures Decoded(Group(a as int, b as int, c as int) + text, 0, 0, 0) == Some([a, b, c] + rest)
  {
    FullGroup(a as int, b as int, c as int, text, Group(a as int, b as int, c as int) + text);
    EmitThree(a, b, c, rest);
  }

  lemma {:induction false} DecodesPadded(data: seq<byte>)
    ensures Decoded(EncodePadded(data), 0, 0, 0) == Some(data)
  {
    if |data| >= 3 {
      DecodesPadded(data[3..]);
      EncodesGroup(data);
      DecodesGroup(data[0], data[1], data[2], data[3..], EncodePadded(data[3..]));
      assert data == [data[0], data[1], data[2]] + data[3..];
    } else if |data| == 2 {
      TwoBytes(data[0] as int, data[1] as int);
      assert data == [data[0]] + ([data[1]] + []);
    } else if |data| == 1 {
      OneByte(data[0] as int);
      assert data == [data[0]] + [];
    }
  }

  /** Decoding undoes encoding for every byte string; the text holds only letters, digits, `-`, `_`. */
  lemma RoundTrip(data: seq<byte>)
    ensures Decode(Encode(data)) == Some(data)
    ensures Clean(Encode(data))
  {
    PaddingRestored(data);
    DecodesPadded(data);
    CleanIsAscii(Encode(data));
  }

  lemma CleanIsAscii(text: string)
    requires Clean(text)
    ensures IsAscii(text)
  {
    forall i | 0 <= i < |text|
      ensures text[i] < '\U{80}'
    {
      assert text[i] in text;
    }
  }

  /** A character outside ASCII is never skipped, wherever it stands. */
  lemma NonAsciiIsRefused(a: string, c: char, b: string)
    requires c >= '\U{80}'
    ensures Decode(a + [c] + b) == None
  {
    assert (a + [c] + b)[|a|] == c;
  }

  /** The lenient decoder is not injective: a changed text can decode to the same bytes, which is why
      the signature covers the text and not the bytes. */
  lemma DecoderIsNotInjective()
    ensures Decode("AA") == Decode("AB") == Some([0])
  {
    assert "AA" + Pads(2) == "AA==" && "AB" + Pads(2) == "AB==";
    assert "AA=="[1..] == "A==" && "AB=="[1..] == "B==" && "A=="[1..] == "==" && "B=="[1..] == "==" && "=="[1..] == "=";
    assert Decoded("=", 2, 0, 1) == Some([]) && Decoded("=", 2, 1, 1) == Some([]);
    assert Decoded("==", 2, 0, 0) == Some([]) && Decoded("==", 2, 1, 0) == Some([]);
    assert [0 as byte] + [] == [0];
    assert Decoded("A==", 1, 0, 0) == Emit(0, Some([])) && Decoded("B==", 1, 0, 0) == Emit(0, Some([]));
  }
}
