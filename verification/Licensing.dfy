/** Per-server licenses: the signed text file, installing it, and the licensing state from day to day.
    JSON and Ed25519 are parameters: a printer and parser that undo each other, and a key that
    accepts exactly what its holder signs. Dates are day numbers. */
module Licensing {
  import opened Prelude
  import Base64Url

  type Bytes = seq<byte>

  const PREFIX := "HBYL1"
  const TRIAL_DAYS := 30
  const GRACE_DAYS := 14
  const WARN_DAYS := 30

  /** The last date there is, 9999-12-31, counting days from 0001-01-01 as 1. */
  const MAX_DAY := 3652059

  type Day = d: int | 1 <= d <= MAX_DAY witness 1

  // --- payloads ---

  datatype Expiry = Never | On(day: Day) | BadDate

  datatype Limit = Unlimited | AtMost(n: int) | BadLimit

  /** A parsed payload before its checks. A field that is missing or of the wrong type is None. */
  datatype Payload = Payload(version: Option<int>, id: Option<string>, customer: Option<string>,
                             serverId: Option<string>, issued: Option<int>, expires: Expiry, limit: Limit,
                             featuresOk: bool)

  datatype Error =
    NotALicense | Damaged | BadSignature | OtherVersion | MissingField | InvalidDate | InvalidLimit | InvalidFeatures
    | OtherServer | Expired | DateOverflow | LicensingOff

  predicate Present(field: Option<string>) {
    field.Some? && field.value != []
  }

  function CheckPayload(p: Payload): Result<Payload, Error> {
    if p.version != Some(1) then Err(OtherVersion)
    else if !Present(p.id) || !Present(p.customer) || !Present(p.serverId) then Err(MissingField)
    else if p.issued.None? || p.expires.BadDate? then Err(InvalidDate)
    else if p.limit.BadLimit? || (p.limit.AtMost? && p.limit.n < 1) then Err(InvalidLimit)
    else if !p.featuresOk then Err(InvalidFeatures)
    else Ok(p)
  }

  // --- license texts ---

  /** Where `str.splitlines` ends a line. "\r\n" counts twice here; the extra empty line changes nothing. */
  predicate IsBreak(c: char) {
    c in {'\n', '\r', '\U{0B}', '\U{0C}', '\U{1C}', '\U{1D}', '\U{1E}', '\U{85}', '\U{2028}', '\U{2029}'}
  }

  /** What `str.strip` removes. */
  predicate IsSpace(c: char) {
    IsBreak(c) || c in {' ', '\t', '\U{1F}', '\U{A0}', '\U{1680}', '\U{202F}', '\U{205F}', '\U{3000}'}
    || '\U{2000}' <= c <= '\U{200A}'
  }

  function LStrip(s: string): string {
    if s != [] && IsSpace(s[0]) then LStrip(s[1..]) else s
  }

  function RStrip(s: string): string {
    if s != [] && IsSpace(s[|s| - 1]) then RStrip(s[..|s| - 1]) else s
  }

  function Strip(s: string): string {
    RStrip(LStrip(s))
  }

  /** A line's share of the license: nothing for a blank line or a comment. */
  function LineToken(line: string): string {
    var t := Strip(line);
    if t == [] || t[0] == '#' then [] else t
  }

  function FirstBreak(text: string): (k: nat)
    ensures k <= |text|
    ensures forall i :: 0 <= i < k ==> !IsBreak(text[i])
    ensures k < |text| ==> IsBreak(text[k])
  {
    if text == [] || IsBreak(text[0]) then 0 else 1 + FirstBreak(text[1..])
  }

  function Token(text: string): string
    decreases |text|
  {
    var k := FirstBreak(text);
    if k == |text| then LineToken(text) else LineToken(text[..k]) + Token(text[k + 1..])
  }

  /** `text.split(".")`. */
  function Split(text: string): (parts: seq<string>)
    ensures parts != []
  {
    if text == [] then [[]]
    else
      var rest := Split(text[1..]);
      if text[0] == '.' then [[]] + rest else [[text[0]] + rest[0]] + rest[1..]
  }

  // --- signing and checking ---

  /** JSON for payloads. */
  datatype Json = Json(dump: Payload -> Bytes, parse: Bytes -> Option<Payload>)

  ghost predicate Lossless(json: Json) {
    forall p :: json.parse(json.dump(p)) == Some(p)
  }

  /** The signature a key holder makes for a text; verification accepts that signature only. */
  type Key = string -> Bytes

  predicate Verifies(keys: seq<Option<Key>>, signature: Bytes, signed: string) {
    exists i | 0 <= i < |keys| :: keys[i].Some? && keys[i].value(signed) == signature
  }

  function Body(json: Json, p: Payload): string {
    PREFIX + "." + Base64Url.Encode(json.dump(p))
  }

  function Sign(key: Key, json: Json, p: Payload): Result<string, Error> {
    match CheckPayload(p)
    case Err(e) => Err(e)
    case Ok(_) => Ok(Body(json, p) + "." + Base64Url.Encode(key(Body(json, p))))
  }

  /** A built-in key that is not a key is None and is skipped. */
  function Decode(keys: seq<Option<Key>>, json: Json, text: string): Result<Payload, Error> {
    var parts := Split(Token(text));
    if |parts| != 3 || parts[0] != PREFIX then Err(NotALicense)
    else
      match (Base64Url.Decode(parts[2]), Base64Url.Decode(parts[1]))
      case (Some(signature), Some(body)) =>
        (match json.parse(body)
         case None => Err(Damaged)
         case Some(p) =>
           if Verifies(keys, signature, PREFIX + "." + parts[1]) then CheckPayload(p) else Err(BadSignature))
      case _ => Err(Damaged)
  }

  // --- tokens ---

  /** A text that is already a token: one line, trimmed, no comment. */
  predicate Bare(t: string) {
    (forall i :: 0 <= i < |t| ==> !IsBreak(t[i])) && (t != [] ==> !IsSpace(t[0]) && t[0] != '#' && !IsSpace(t[|t| - 1]))
  }

  lemma {:induction false} LStripSlice(s: string)
    ensures exists k :: 0 <= k <= |s| && LStrip(s) == s[k..]
    ensures LStrip(s) != [] ==> !IsSpace(LStrip(s)[0])
  {
    if s != [] && IsSpace(s[0]) {
      LStripSlice(s[1..]);
      var k :| 0 <= k <= |s[1..]| && LStrip(s[1..]) == s[1..][k..];
      assert s[1..][k..] == s[k + 1..];
    } else {
      assert s[0..] == s;
    }
  }

  lemma {:induction false} RStripSlice(s: string)
    ensures exists k :: 0 <= k <= |s| && RStrip(s) == s[..k]
    ensures RStrip(s) != [] ==> !IsSpace(RStrip(s)[|RStrip(s)| - 1])
  {
    if s != [] && IsSpace(s[|s| - 1]) {
      RStripSlice(s[..|s| - 1]);
      var k :| 0 <= k <= |s[..|s| - 1]| && RStrip(s[..|s| - 1]) == s[..|s| - 1][..k];
      assert s[..|s| - 1][..k] == s[..k];
    } else {
      assert s[..|s|] == s;
    }
  }

  lemma LineTokenIsBare(line: string)
    requires forall i :: 0 <= i < |line| ==> !IsBreak(line[i])
    ensures Bare(LineToken(line))
  {
    LStripSlice(line);
    RStripSlice(LStrip(line));
  }

  lemma {:induction false} TokenIsBare(text: string)
    ensures Bare(Token(text))
    decreases |text|
  {
    var k := FirstBreak(text);
    if k == |text| {
      LineTokenIsBare(text);
    } else {
      LineTokenIsBare(text[..k]);
      TokenIsBare(text[k + 1..]);
      TokenStep(text, k, Token(text));
      BareConcat(LineToken(text[..k]), Token(text[k + 1..]));
    }
  }

  lemma BareConcat(a: string, b: string)
    requires Bare(a) && Bare(b)
    ensures Bare(a + b)
  {
    if a == [] {
      assert a + b == b;
    } else if b == [] {
      assert a + b == a;
    }
  }

  lemma NoBreak(t: string)
    requires forall i :: 0 <= i < |t| ==> !IsBreak(t[i])
    ensures FirstBreak(t) == |t|
  {
  }

  /** A token read again is itself. */
  lemma TokenOfBare(t: string)
    requires Bare(t)
    ensures Token(t) == t
  {
    NoBreak(t);
  }

  lemma FirstBreakBefore(a: string, c: char, b: string)
    requires IsBreak(c)
    ensures FirstBreak(a + [c] + b) == FirstBreak(a)
  {
    var text, k := a + [c] + b, FirstBreak(a);
    assert forall i :: 0 <= i < |a| ==> text[i] == a[i];
    assert text[|a|] == c;
    FirstBreakIs(text, k);
  }

  lemma {:induction false} FirstBreakIs(text: string, k: nat)
    requires k < |text| && IsBreak(text[k]) && forall i :: 0 <= i < k ==> !IsBreak(text[i])
    ensures FirstBreak(text) == k
  {
    if k > 0 {
      FirstBreakIs(text[1..], k - 1);
    }
  }

  lemma TokenStep(text: string, k: nat, token: string)
    requires k == FirstBreak(text) < |text| && token == Token(text)
    ensures token == LineToken(text[..k]) + Token(text[k + 1..])
  {
  }

  lemma LastLine(a: string, c: char, b: string)
    requires IsBreak(c) && FirstBreak(a) == |a|
    ensures Token(a + [c] + b) == Token(a) + Token(b)
  {
    var text := a + [c] + b;
    FirstBreakBefore(a, c, b);
    TokenStep(text, |a|, Token(text));
    assert text[..|a|] == a && text[|a| + 1..] == b;
  }

  lemma Regroup(a: string, b: string, c: string)
    ensures a + (b + c) == a + b + c
  {
  }

  /** Lines contribute one after the other. */
  lemma {:induction false} TokenOfLines(a: string, c: char, b: string)
    requires IsBreak(c)
    ensures Token(a + [c] + b) == Token(a) + Token(b)
    decreases |a|
  {
    var text, k := a + [c] + b, FirstBreak(a);
    if k == |a| {
      LastLine(a, c, b);
    } else {
      FirstBreakBefore(a, c, b);
      assert text[..k] == a[..k] && text[k + 1..] == a[k + 1..] + [c] + b;
      TokenStep(text, k, Token(text));
      TokenStep(a, k, Token(a));
      TokenOfLines(a[k + 1..], c, b);
      Regroup(LineToken(a[..k]), Token(a[k + 1..]), Token(b));
    }
  }

  // --- splitting at dots ---

  lemma {:induction false} SplitNoDot(a: string)
    requires '.' !in a
    ensures Split(a) == [a]
  {
    if a != [] {
      SplitNoDot(a[1..]);
      assert [a[0]] + a[1..] == a;
    }
  }

  lemma {:induction false} SplitAtDot(a: string, b: string)
    requires '.' !in a
    ensures Split(a + "." + b) == [a] + Split(b)
  {
    var t := a + "." + b;
    if a == [] {
      assert t[1..] == b;
    } else {
      assert t[1..] == a[1..] + "." + b;
      SplitAtDot(a[1..], b);
      assert ([a[1..]] + Split(b))[1..] == Split(b);
      assert [a[0]] + a[1..] == a;
    }
  }

  /** Text put in front lands in the first part, or adds parts. */
  lemma {:induction false} SplitPrefixed(x: string, t: string)
    ensures |Split(x + t)| >= |Split(t)|
    ensures |Split(x + t)| == |Split(t)| ==> Split(x + t)[0] == x + Split(t)[0]
  {
    if x == [] {
      assert x + t == t;
    } else {
      assert (x + t)[1..] == x[1..] + t;
      SplitPrefixed(x[1..], t);
      if |Split(x + t)| == |Split(t)| {
        assert [x[0]] + (x[1..] + Split(t)[0]) == x + Split(t)[0];
      }
    }
  }

  // --- round trips ---

  lemma CleanIsPlain(s: string)
    requires Base64Url.Clean(s)
    ensures '.' !in s && forall i :: 0 <= i < |s| ==> !IsSpace(s[i])
  {
    forall i | 0 <= i < |s|
      ensures !IsSpace(s[i]) && s[i] != '.'
    {
      assert s[i] in s;
    }
  }

  /** Three dot-free, space-free parts make a text that is its own token and splits into them. */
  lemma ThreeParts(token: string, a: string, b: string, c: string)
    requires token == a + "." + b + "." + c && '.' !in a && '.' !in b && '.' !in c
    ensures Split(token) == [a, b, c]
  {
    assert token == a + "." + (b + "." + c);
    SplitAtDot(a, b + "." + c);
    SplitAtDot(b, c);
    SplitNoDot(c);
  }

  lemma TextIsBare(body: string, signature: string)
    requires Base64Url.Clean(body) && Base64Url.Clean(signature)
    ensures Bare(PREFIX + "." + body + "." + signature)
  {
    CleanIsPlain(body);
    CleanIsPlain(signature);
    var text := PREFIX + "." + body + "." + signature;
    forall i | 0 <= i < |text|
      ensures !IsSpace(text[i])
    {
      if i < 6 {
        assert text[i] == (PREFIX + ".")[i];
      } else if i < 6 + |body| {
        assert text[i] == body[i - 6];
      } else if i > 6 + |body| {
        assert text[i] == signature[i - 7 - |body|];
      }
    }
    assert text[0] == 'H';
  }

  lemma LicenseTextParts(body: string, signature: string)
    requires Base64Url.Clean(body) && Base64Url.Clean(signature)
    ensures Split(Token(PREFIX + "." + body + "." + signature)) == [PREFIX, body, signature]
  {
    TextIsBare(body, signature);
    TokenOfBare(PREFIX + "." + body + "." + signature);
    CleanIsPlain(body);
    CleanIsPlain(signature);
    ThreeParts(PREFIX + "." + body + "." + signature, PREFIX, body, signature);
  }

  lemma KeyVerifies(key: Key, keys: seq<Option<Key>>, signed: string)
    requires Some(key) in keys
    ensures Verifies(keys, key(signed), signed)
  {
    var i :| 0 <= i < |keys| && keys[i] == Some(key);
  }

  lemma DecodeSigned(keys: seq<Option<Key>>, json: Json, p: Payload, signature: Bytes, text: string)
    requires Lossless(json) && CheckPayload(p).Ok? && Verifies(keys, signature, Body(json, p))
    requires text == Body(json, p) + "." + Base64Url.Encode(signature)
    ensures Decode(keys, json, text) == Ok(p)
  {
    var body := Base64Url.Encode(json.dump(p));
    Base64Url.RoundTrip(json.dump(p));
    Base64Url.RoundTrip(signature);
    LicenseTextParts(body, Base64Url.Encode(signature));
    assert text == PREFIX + "." + body + "." + Base64Url.Encode(signature);
  }

  /** With any key list that holds the vendor's key, checking a signed license gives the payload back. */
  lemma SignDecodeRoundTrip(key: Key, keys: seq<Option<Key>>, json: Json, p: Payload)
    requires Lossless(json) && Some(key) in keys
    ensures Sign(key, json, p).Ok? <==> CheckPayload(p).Ok?
    ensures Sign(key, json, p).Ok? ==> Decode(keys, json, Sign(key, json, p).value) == Ok(p)
  {
    if CheckPayload(p).Ok? {
      KeyVerifies(key, keys, Body(json, p));
      DecodeSigned(keys, json, p, key(Body(json, p)), Sign(key, json, p).value);
    }
  }

  /** What a payload must have. */
  predicate WellFormed(p: Payload) {
    && p.version == Some(1) && p.issued.Some? && !p.expires.BadDate? && p.featuresOk
    && (forall field :: field in [p.id, p.customer, p.serverId] ==> field.Some? && field.value != [])
    && (match p.limit
        case Unlimited => true
        case AtMost(n) => n >= 1
        case BadLimit => false)
  }

  /** `token` is a license for `p`: three parts between two dots, of which the last is what the holder of one
      of the keys, and nobody else, makes for the text of the first two. */
  ghost predicate Licenses(keys: seq<Option<Key>>, json: Json, token: string, p: Payload) {
    WellFormed(p) && exists body, signature :: Signed(keys, json, token, body, signature, p)
  }

  ghost predicate Signed(keys: seq<Option<Key>>, json: Json, token: string, body: string, signature: string,
                         p: Payload)
  {
    && token == PREFIX + "." + body + "." + signature && '.' !in body && '.' !in signature
    && (exists key :: Some(key) in keys && Base64Url.Decode(signature) == Some(key(PREFIX + "." + body)))
    && Base64Url.Decode(body).Some? && json.parse(Base64Url.Decode(body).value) == Some(p)
  }

  function Joined(parts: seq<string>): string
    requires parts != []
  {
    if |parts| == 1 then parts[0] else parts[0] + "." + Joined(parts[1..])
  }

  lemma JoinedDot(rest: seq<string>)
    requires rest != []
    ensures Joined([[]] + rest) == "." + Joined(rest)
  {
    assert ([[]] + rest)[1..] == rest && ([[]] + rest)[0] == [];
  }

  lemma DotRegroup(c: char, x: string, y: string)
    ensures [c] + x + "." + y == [c] + (x + "." + y)
  {
  }

  lemma JoinedChar(c: char, rest: seq<string>)
    requires rest != []
    ensures Joined([[c] + rest[0]] + rest[1..]) == [c] + Joined(rest)
  {
    var parts := [[c] + rest[0]] + rest[1..];
    assert parts[0] == [c] + rest[0] && parts[1..] == rest[1..];
    if |rest| > 1 {
      DotRegroup(c, rest[0], Joined(rest[1..]));
    }
  }

  lemma {:induction false} SplitJoins(text: string)
    ensures Joined(Split(text)) == text && forall part :: part in Split(text) ==> '.' !in part
  {
    if text != [] {
      SplitJoins(text[1..]);
      if text[0] == '.' {
        JoinedDot(Split(text[1..]));
      } else {
        JoinedChar(text[0], Split(text[1..]));
      }
      assert text == [text[0]] + text[1..];
    }
  }

  lemma JoinedThree(parts: seq<string>)
    requires |parts| == 3
    ensures Joined(parts) == parts[0] + "." + parts[1] + "." + parts[2]
  {
    assert Joined(parts[1..]) == parts[1] + "." + parts[2];
    assert parts[0] + "." + (parts[1] + "." + parts[2]) == parts[0] + "." + parts[1] + "." + parts[2];
  }

  lemma CheckIsWellFormed(p: Payload)
    ensures CheckPayload(p).Ok? <==> WellFormed(p)
    ensures CheckPayload(p).Ok? ==> CheckPayload(p) == Ok(p)
  {
    if WellFormed(p) {
      assert p.id in [p.id, p.customer, p.serverId] && p.customer in [p.id, p.customer, p.serverId];
      assert p.serverId in [p.id, p.customer, p.serverId];
    }
  }

  lemma VerifiesIsOwn(keys: seq<Option<Key>>, signature: Bytes, signed: string)
    ensures Verifies(keys, signature, signed) <==> exists key :: Some(key) in keys && signature == key(signed)
  {
    if Verifies(keys, signature, signed) {
      var i :| 0 <= i < |keys| && keys[i].Some? && keys[i].value(signed) == signature;
      assert Some(keys[i].value) in keys;
    }
    forall key | Some(key) in keys && signature == key(signed)
      ensures Verifies(keys, signature, signed)
    {
      KeyVerifies(key, keys, signed);
    }
  }

  /** A text is accepted with a payload if and only if its token is a license for it: signed, as it stands,
      with one of the built-in keys. */
  lemma DecodesExactlyLicenses(keys: seq<Option<Key>>, json: Json, text: string, p: Payload)
    ensures Decode(keys, json, text) == Ok(p) <==> Licenses(keys, json, Token(text), p)
  {
    var token := Token(text);
    var parts := Split(token);
    SplitJoins(token);
    CheckIsWellFormed(p);
    if |parts| == 3 && parts[0] == PREFIX {
      JoinedThree(parts);
      assert parts[1] in parts && parts[2] in parts;
      var body, signature := Base64Url.Decode(parts[1]), Base64Url.Decode(parts[2]);
      if body.Some? && signature.Some? && json.parse(body.value).Some? {
        CheckIsWellFormed(json.parse(body.value).value);
        VerifiesIsOwn(keys, signature.value, PREFIX + "." + parts[1]);
        assert Decode(keys, json, text) == Ok(p) ==> Signed(keys, json, token, parts[1], parts[2], p);
      }
    }
    forall b, s | Signed(keys, json, token, b, s, p)
      ensures parts == [PREFIX, b, s]
    {
      ThreeParts(token, PREFIX, b, s);
    }
  }

  /** Why a text is refused that has the three parts: a part that does not decode, or a signature that none of the
      keys makes for what stands before it. */
  lemma RefusedSignature(keys: seq<Option<Key>>, json: Json, text: string, body: string, signature: string)
    requires Token(text) == PREFIX + "." + body + "." + signature && '.' !in body && '.' !in signature
    ensures var b, s := Base64Url.Decode(body), Base64Url.Decode(signature);
            var damaged := b.None? || s.None? || json.parse(b.value).None?;
            && (Decode(keys, json, text) == Err(Damaged) <==> damaged)
            && (Decode(keys, json, text) == Err(BadSignature) <==>
                  !damaged && forall key :: Some(key) in keys ==> s.value != key(PREFIX + "." + body))
  {
    ThreeParts(Token(text), PREFIX, body, signature);
    if Base64Url.Decode(signature).Some? {
      VerifiesIsOwn(keys, Base64Url.Decode(signature).value, PREFIX + "." + body);
    }
  }

  function Comment(p: Payload): string
    requires p.id.Some? && p.customer.Some?
  {
    "# Habeny license " + p.id.value + " for " + p.customer.value
  }

  /** What `install` writes. */
  function LicenseFile(p: Payload, text: string): string
    requires p.id.Some? && p.customer.Some?
  {
    Comment(p) + "\n" + Token(text) + "\n"
  }

  lemma LinesAround(comment: string, token: string)
    requires Bare(token)
    ensures Token(comment + "\n" + (token + "\n")) == Token(comment) + token
  {
    TokenOfLines(comment, '\n', token + "\n");
    TokenOfLines(token, '\n', []);
    TokenOfBare(token);
    assert token + "\n" + [] == token + "\n";
  }

  lemma FileToken(p: Payload, text: string)
    requires p.id.Some? && p.customer.Some?
    ensures Token(LicenseFile(p, text)) == Token(Comment(p)) + Token(text)
  {
    TokenIsBare(text);
    LinesAround(Comment(p), Token(text));
    Regroup(Comment(p) + "\n", Token(text), "\n");
  }

  /** The installed file reads back as the license that was accepted if and only if the comment line
      adds nothing of its own; otherwise the file is no license at all. */
  lemma InstalledFileReadsBack(keys: seq<Option<Key>>, json: Json, text: string)
    requires Decode(keys, json, text).Ok?
    ensures var p := Decode(keys, json, text).value;
            Decode(keys, json, LicenseFile(p, text)) == if Token(Comment(p)) == [] then Ok(p) else Err(NotALicense)
  {
    var p := Decode(keys, json, text).value;
    FileToken(p, text);
    var x := Token(Comment(p));
    SplitPrefixed(x, Token(text));
    if x == [] {
      assert x + Token(text) == Token(text);
    } else if |Split(x + Token(text))| == 3 {
      assert |x + PREFIX| > |PREFIX|;
    }
  }

  /** No line break in the id and the customer is enough. */
  lemma PlainCommentAddsNothing(p: Payload)
    requires p.id.Some? && p.customer.Some?
    requires forall c :: c in p.id.value + p.customer.value ==> !IsBreak(c)
    ensures Token(Comment(p)) == []
  {
    var c := Comment(p);
    forall i | 0 <= i < |c|
      ensures !IsBreak(c[i])
    {
      assert c[i] in "# Habeny license " || c[i] in p.id.value || c[i] in " for " || c[i] in p.customer.value;
      if c[i] in p.id.value || c[i] in p.customer.value {
        assert c[i] in p.id.value + p.customer.value;
      }
    }
    CommentLine(c);
  }

  lemma CommentLine(c: string)
    requires c != [] && c[0] == '#' && forall i :: 0 <= i < |c| ==> !IsBreak(c[i])
    ensures Token(c) == []
  {
    NoBreak(c);
    FirstCharStays(c);
  }

  lemma {:induction false} FirstCharStays(s: string)
    requires s != [] && !IsSpace(s[0])
    ensures RStrip(s) != [] && RStrip(s)[0] == s[0]
  {
    if IsSpace(s[|s| - 1]) {
      FirstCharStays(s[..|s| - 1]);
    }
  }

  /** A customer name with a line break passes every payload check, and what follows the break lands
      in front of the license, unless that is blank or a comment itself. */
  lemma LineBreakLandsInTheToken(p: Payload, a: string, c: char, b: string)
    requires p.id.Some? && p.customer == Some(a + [c] + b) && IsBreak(c)
    requires forall x :: x in p.id.value + a ==> !IsBreak(x)
    ensures Token(Comment(p)) == Token(b)
  {
    var first := p.(customer := Some(a));
    PlainCommentAddsNothing(first);
    assert Comment(p) == Comment(first) + [c] + b;
    TokenOfLines(Comment(first), c, b);
  }

  lemma BareAfterBreak(p: Payload, a: string, c: char, b: string)
    requires p.id.Some? && p.customer == Some(a + [c] + b) && IsBreak(c) && Bare(b)
    requires forall x :: x in p.id.value + a ==> !IsBreak(x)
    ensures Token(Comment(p)) == b
  {
    LineBreakLandsInTheToken(p, a, c, b);
    TokenOfBare(b);
  }

  /** Such a payload exists: it is accepted, and the file written for it is no license. */
  lemma LineBreakSpoilsTheFile(p: Payload)
    requires CheckPayload(p) == Ok(p) && p.id == Some("L-1") && p.customer == Some("Acme" + ['\n'] + "Corp")
    ensures Token(Comment(p)) == "Corp"
  {
    BareAfterBreak(p, "Acme", '\n', "Corp");
  }

  // --- state ---

  datatype State = Off | Active | Expiring | Grace | Ended | Trial | TrialEnded | Invalid

  datatype Status = Status(state: State, license: Option<Payload>, daysLeft: Option<int>, allowsNewWork: bool)

  /** The installed license, if it is one for this server. */
  function Installed(keys: seq<Option<Key>>, json: Json, serverId: string, file: Option<string>):
    Result<Option<Payload>, Error>
  {
    match file
    case None => Ok(None)
    case Some(text) =>
      match Decode(keys, json, text)
      case Err(e) => Err(e)
      case Ok(p) => if p.serverId != Some(serverId) then Err(OtherServer) else Ok(Some(p))
  }

  function LicensedStatus(p: Payload, today: Day): Status {
    match p.expires
    case On(day) =>
      var left := day - today;
      if left < 0 then
        if GRACE_DAYS + left >= 0 then Status(Grace, Some(p), Some(left), true)
        else Status(Ended, Some(p), Some(left), false)
      else if left <= WARN_DAYS then Status(Expiring, Some(p), Some(left), true)
      else Status(Active, Some(p), Some(left), true)
    case _ => Status(Active, Some(p), None, true)
  }

  function TrialStatus(problem: bool, trialStart: Option<int>, today: int): Status {
    var start := if trialStart.Some? then trialStart.value else today;
    var left := start + TRIAL_DAYS - today;
    if left >= 0 then Status(if problem then Invalid else Trial, None, Some(left), true)
    else Status(if problem then Invalid else TrialEnded, None, Some(left), false)
  }

  /** The last day of grace is one of the calendar's. */
  predicate GraceIsADate(p: Payload) {
    p.expires.On? ==> p.expires.day + GRACE_DAYS <= MAX_DAY
  }

  /** What `install` asks of a genuine license for its server. */
  predicate Accepted(p: Payload, today: Day) {
    GraceIsADate(p) && (p.expires.On? ==> today <= p.expires.day + GRACE_DAYS)
  }

  lemma DecodeErrors(keys: seq<Option<Key>>, json: Json, text: string)
    ensures Decode(keys, json, text) != Err(DateOverflow)
  {
  }

  /** That `install` accepts a license exactly when, installed, it would allow new work that day holds if and
      only if its last day of grace is a date. */
  lemma AcceptedExactlyWhenAllowed(p: Payload, today: Day)
    ensures (Accepted(p, today) <==> LicensedStatus(p, today).allowsNewWork) <==> GraceIsADate(p)
  {
  }

  /** The state of a licensed server day by day: active, in the last thirty days expiring, fourteen more days of
      grace in which new work is still allowed, then ended. */
  lemma StateByDate(p: Payload, today: Day)
    ensures LicensedStatus(p, today).license == Some(p)
    ensures !p.expires.On? ==> LicensedStatus(p, today).state == Active && LicensedStatus(p, today).allowsNewWork
    ensures p.expires.On? ==>
      var s, last := LicensedStatus(p, today), p.expires.day;
      && s.daysLeft == Some(last - today) && (s.allowsNewWork <==> today <= last + 14)
      && (s.state == Active <==> today < last - 30) && (s.state == Expiring <==> last - 30 <= today <= last)
      && (s.state == Grace <==> last < today <= last + 14) && (s.state == Ended <==> last + 14 < today)
  {
  }

  /** Without a license a server is on trial for thirty days from its first account, and until there is one. */
  lemma TrialByDate(problem: bool, start: Option<int>, today: int)
    ensures var s := TrialStatus(problem, start, today);
            && s.license == None && (s.allowsNewWork <==> start.None? || today <= start.value + 30)
            && (s.state == Invalid <==> problem) && (s.state == Trial <==> !problem && s.allowsNewWork)
            && (s.state == TrialEnded <==> !problem && !s.allowsNewWork)
            && (start.Some? ==> s.daysLeft == Some(start.value + 30 - today))
  {
  }

  /** The containers there are and those asked for fit the limit; asking for none always does. */
  predicate Within(limit: Limit, adding: nat, existing: nat) {
    adding == 0 || !limit.AtMost? || existing + adding <= limit.n
  }

  /** One server's licensing: the keys built in, its ID, its license file and when its trial began. */
  class Server {
    const keys: seq<Option<Key>>
    const json: Json
    const id: string
    var file: Option<string>
    var trialStart: Option<int>

    constructor (keys: seq<Option<Key>>, json: Json, id: string, file: Option<string>, trialStart: Option<int>)
      ensures this.keys == keys && this.json == json && this.id == id
      ensures this.file == file && this.trialStart == trialStart
    {
      this.keys, this.json, this.id, this.file, this.trialStart := keys, json, id, file, trialStart;
    }

    function StatusInfo(today: Day): (s: Status)
      reads this
    {
      if keys == [] then Status(Off, None, None, true)
      else
        match Installed(keys, json, id, file)
        case Ok(Some(p)) => LicensedStatus(p, today)
        case Ok(None) => TrialStatus(false, trialStart, today)
        case Err(_) => TrialStatus(true, trialStart, today)
    }

    /** `require`: may this much new work start? */
    function Permits(today: Day, adding: nat, existing: nat): bool
      reads this
    {
      keys == [] ||
      var s := StatusInfo(today);
      s.allowsNewWork
      && !(s.license.Some? && s.license.value.limit.AtMost?
           && adding > 0 && existing + adding > s.license.value.limit.n)
    }

    /** A license of the vendor's, made out to this server. */
    predicate Genuine(text: string) {
      keys != [] && Decode(keys, json, text).Ok? && Decode(keys, json, text).value.serverId == Some(id)
    }

    predicate Acceptable(text: string, today: Day) {
      Genuine(text) && Accepted(Decode(keys, json, text).value, today)
    }

    /** A license is acceptable only if it is genuine, for this server, and not past its grace, whose end
        must be a date. */
    method Check(text: string, today: Day) returns (r: Result<Payload, Error>)
      ensures r.Ok? ==> r == Decode(keys, json, text)
      ensures r.Ok? <==> Acceptable(text, today)
      ensures r == Err(DateOverflow) <==> Genuine(text) && !GraceIsADate(Decode(keys, json, text).value)
    {
      if keys == [] {
        return Err(LicensingOff);
      }
      var decoded := Decode(keys, json, text);
      DecodeErrors(keys, json, text);
      if decoded.Err? {
        return decoded;
      }
      var p := decoded.value;
      if p.serverId != Some(id) {
        return Err(OtherServer);
      }
      if p.expires.On? {
        if p.expires.day + GRACE_DAYS > MAX_DAY {
          return Err(DateOverflow);
        }
        if p.expires.day + GRACE_DAYS < today {
          return Err(Expired);
        }
      }
      return Ok(p);
    }

    /** Once taken (with a comment line that adds nothing) a license is what the server reports, and new work
        is allowed on every day the same license would still be accepted, and on no other. */
    method Install(text: string, today: Day) returns (r: Result<Payload, Error>)
      modifies this`file
      ensures r.Ok? <==> Acceptable(text, today)
      ensures r == Err(DateOverflow) <==> Genuine(text) && !GraceIsADate(Decode(keys, json, text).value)
      ensures forall p :: r == Ok(p) <==>
        && Licenses(keys, json, Token(text), p) && p.serverId == Some(id)
        && (p.expires.On? ==> today <= p.expires.day + 14 <= 3652059)
      ensures r.Err? ==> file == old(file)
      ensures r.Ok? ==> r == Decode(keys, json, text) && file == Some(LicenseFile(r.value, text))
      ensures r.Ok? && Token(Comment(r.value)) == [] ==>
        forall day: Day ::
          StatusInfo(day).license == Some(r.value) && (StatusInfo(day).allowsNewWork <==> Acceptable(text, day))
      ensures r.Ok? && Token(Comment(r.value)) == [] ==>
        forall day: Day, adding: nat, existing: nat ::
          Permits(day, adding, existing) <==> Acceptable(text, day) && Within(r.value.limit, adding, existing)
      ensures r.Ok? && Token(Comment(r.value)) != [] ==> forall day: Day :: StatusInfo(day).license == None
    {
      r := Check(text, today);
      forall p
        ensures Decode(keys, json, text) == Ok(p) <==> Licenses(keys, json, Token(text), p)
        ensures Licenses(keys, json, Token(text), p) ==> keys != []
      {
        DecodesExactlyLicenses(keys, json, text, p);
      }
      if r.Ok? {
        file := Some(LicenseFile(r.value, text));
        forall day: Day
          ensures Token(Comment(r.value)) == [] ==>
            StatusInfo(day).license == Some(r.value) && (StatusInfo(day).allowsNewWork <==> Acceptable(text, day))
          ensures Token(Comment(r.value)) != [] ==> StatusInfo(day).license == None
        {
          StatusOnceInstalled(this, text, day);
        }
      }
    }
  }

  /** A server reports a license exactly when its file is one made out to it; with any other file, or none, it is
      on trial. */
  lemma ReportsItsLicense(server: Server, day: Day, p: Payload)
    ensures server.keys == [] ==> server.StatusInfo(day) == Status(Off, None, None, true)
    ensures server.keys != [] ==>
      (server.StatusInfo(day).license == Some(p) <==>
            && server.file.Some? && Licenses(server.keys, server.json, Token(server.file.value), p)
            && p.serverId == Some(server.id))
    ensures server.keys != [] && server.StatusInfo(day).license == None ==>
      exists problem :: server.StatusInfo(day) == TrialStatus(problem, server.trialStart, day)
  {
    if server.file.Some? {
      DecodesExactlyLicenses(server.keys, server.json, server.file.value, p);
    }
  }

  lemma StatusOnceInstalled(server: Server, text: string, day: Day)
    requires server.Genuine(text) && GraceIsADate(Decode(server.keys, server.json, text).value)
    requires server.file == Some(LicenseFile(Decode(server.keys, server.json, text).value, text))
    ensures var p := Decode(server.keys, server.json, text).value;
            if Token(Comment(p)) == []
            then server.StatusInfo(day) == LicensedStatus(p, day)
              && (server.StatusInfo(day).allowsNewWork <==> server.Acceptable(text, day))
            else server.StatusInfo(day) == TrialStatus(true, server.trialStart, day)
  {
    InstalledFileReadsBack(server.keys, server.json, text);
    AcceptedExactlyWhenAllowed(Decode(server.keys, server.json, text).value, day);
  }

  /** A license dated 9999-12-31 is refused by `install` on the day it was issued, while the status of a
      server that had it would be active. */
  method LastDayIsRefused(server: Server, text: string, today: Day) returns (r: Result<Payload, Error>)
    requires server.Genuine(text) && Decode(server.keys, server.json, text).value.expires == On(MAX_DAY)
    requires today < MAX_DAY - WARN_DAYS
    modifies server`file
    ensures r == Err(DateOverflow) && server.file == old(server.file)
    ensures LicensedStatus(Decode(server.keys, server.json, text).value, today).state == Active
  {
    r := server.Install(text, today);
  }

  /** With the license file and the accounts as they are, new work refused on one day is refused on
      every later one, at any size. */
  lemma RefusedStaysRefused(server: Server, day: Day, later: Day, adding: nat, existing: nat)
    requires day <= later && !server.Permits(day, adding, existing)
    ensures !server.Permits(later, adding, existing)
  {
    match Installed(server.keys, server.json, server.id, server.file)
    case Ok(Some(p)) =>
      assert LicensedStatus(p, later).allowsNewWork ==> LicensedStatus(p, day).allowsNewWork;
    case _ =>
  }
}
