/** The two quoting layers put around a simulated log message: a JSON string body inside a
    single-quoted shell word. The readers are written from their standards; the printers are the
    program's chains of global replacements. */
module Quoting {
  import opened Prelude
  import opened Escaping

  // --- printers ---

  const JSON_RULES := [Rule('\\', "\\\\"), Rule('\"', "\\\""), Rule('\n', "\\n"), Rule('\r', "\\r"), Rule('\t', "\\t")]

  const SHELL_RULES := [Rule('\'', "'\"'\"'")]

  function EscapeJsonString(value: string): string {
    ReplaceAll(value, JSON_RULES)
  }

  function EscapeBashSingleQuotes(value: string): string {
    ReplaceAll(value, SHELL_RULES)
  }

  /** The word written after `NAME=` in the generated script. */
  function ShellWord(value: string): string {
    "'" + EscapeBashSingleQuotes(value) + "'"
  }

  // --- readers ---

  datatype Mode = Bare | Single | Double

  /** Characters that end a bare word or start an expansion (POSIX Shell Command Language, section 2.2). */
  predicate Special(c: char) {
    c in {'|', '&', ';', '<', '>', '(', ')', '$', '`', ' ', '\t', '\n', '*', '?', '[', '#', '~'}
  }

  /** Quote removal for one shell word (sections 2.2.1 to 2.2.3); None when the text is not one
      complete word without expansions. */
  function Unquote(mode: Mode, s: string): Option<string>
    decreases |s|
  {
    if s == [] then
      if mode.Bare? then Some([]) else None
    else
      match mode
      case Single =>
        if s[0] == '\'' then Unquote(Bare, s[1..]) else Prepend(s[0], Unquote(Single, s[1..]))
      case Double =>
        if s[0] == '\"' then Unquote(Bare, s[1..])
        else if s[0] == '$' || s[0] == '`' then None
        else if s[0] == '\\' && |s| > 1 && s[1] in {'$', '`', '\"', '\\'} then Prepend(s[1], Unquote(Double, s[2..]))
        else if s[0] == '\\' && |s| > 1 && s[1] == '\n' then Unquote(Double, s[2..])
        else Prepend(s[0], Unquote(Double, s[1..]))
      case Bare =>
        if s[0] == '\'' then Unquote(Single, s[1..])
        else if s[0] == '\"' then Unquote(Double, s[1..])
        else if s[0] == '\\' && |s| > 1 then
          if s[1] == '\n' then Unquote(Bare, s[2..]) else Prepend(s[1], Unquote(Bare, s[2..]))
        else if s[0] == '\\' || Special(s[0]) then None
        else Prepend(s[0], Unquote(Bare, s[1..]))
  }

  function Prepend(c: char, rest: Option<string>): Option<string> {
    match rest
    case None => None
    case Some(text) => Some([c] + text)
  }

  predicate IsControl(c: char) {
    (c as int) < 0x20
  }

  function HexDigit(c: char): Option<int> {
    if '0' <= c <= '9' then Some(c as int - '0' as int)
    else if 'a' <= c <= 'f' then Some(c as int - 'a' as int + 10)
    else if 'A' <= c <= 'F' then Some(c as int - 'A' as int + 10)
    else None
  }

  /** `\uXXXX` for one code unit outside the surrogate range. */
  function CodeUnit(s: string): Option<char>
    requires |s| >= 4
  {
    match (HexDigit(s[0]), HexDigit(s[1]), HexDigit(s[2]), HexDigit(s[3]))
    case (Some(a), Some(b), Some(c), Some(d)) =>
      var n := ((a * 16 + b) * 16 + c) * 16 + d;
      if 0 <= n < 0xD800 || 0xE000 <= n < 0x10000 then Some(n as char) else None
    case _ => None
  }

  function ShortEscape(c: char): Option<char> {
    match c
    case '\"' => Some('\"')
    case '\\' => Some('\\')
    case '/' => Some('/')
    case 'b' => Some(8 as char)
    case 'f' => Some(12 as char)
    case 'n' => Some('\n')
    case 'r' => Some('\r')
    case 't' => Some('\t')
    case _ => None
  }

  /** The text a JSON string body stands for (section 7 of RFC 8259); None when `s` is not one. */
  function JsonDecode(s: string): Option<string> {
    if s == [] then Some([])
    else if s[0] == '\"' || IsControl(s[0]) then None
    else if s[0] != '\\' then Prepend(s[0], JsonDecode(s[1..]))
    else if |s| >= 6 && s[1] == 'u' then
      match CodeUnit(s[2..6])
      case None => None
      case Some(c) => Prepend(c, JsonDecode(s[6..]))
    else if |s| >= 2 then
      match ShortEscape(s[1])
      case None => None
      case Some(c) => Prepend(c, JsonDecode(s[2..]))
    else None
  }

  // --- round trips ---

  /** Quote removal gives back any text at all from the word built for it. */
  lemma ShellWordRoundTrip(value: string)
    ensures Unquote(Bare, ShellWord(value)) == Some(value)
  {
    SingleQuotedTail(value);
    assert ShellWord(value)[1..] == EscapeBashSingleQuotes(value) + "'";
  }

  lemma {:induction false} SingleQuotedTail(value: string)
    ensures Unquote(Single, EscapeBashSingleQuotes(value) + "'") == Some(value)
  {
    ReplaceAllIsPerCharacter(value, SHELL_RULES);
    if value == [] {
      assert EscapeBashSingleQuotes(value) + "'" == "'";
    } else {
      SingleQuotedTail(value[1..]);
      assert value == [value[0]] + value[1..];
      var tail := EscapeBashSingleQuotes(value[1..]) + "'";
      assert EscapeBashSingleQuotes(value) + "'" == Image(value[0], SHELL_RULES) + tail;
      if value[0] == '\'' {
        assert Image(value[0], SHELL_RULES) == "'\"'\"'";
        ReopenedQuote(tail);
      } else {
        ImageCases(value[0], SHELL_RULES);
        assert EscapeBashSingleQuotes(value) + "'" == [value[0]] + tail;
        assert ([value[0]] + tail)[1..] == tail;
      }
    }
  }

  /** Close the quote, a double-quoted apostrophe, open it again. */
  lemma ReopenedQuote(tail: string)
    ensures Unquote(Single, "'\"'\"'" + tail) == Prepend('\'', Unquote(Single, tail))
  {
    var s := "'\"'\"'" + tail;
    assert s[1..] == "\"'\"'" + tail;
    assert s[1..][1..] == "'\"'" + tail;
    assert s[1..][1..][1..] == "\"'" + tail;
    assert s[1..][1..][1..][1..] == "'" + tail;
    assert ("'" + tail)[1..] == tail;
    assert Unquote(Bare, "'" + tail) == Unquote(Single, tail);
    assert Unquote(Double, "\"'" + tail) == Unquote(Bare, "'" + tail);
    assert Unquote(Double, "'\"'" + tail) == Prepend('\'', Unquote(Double, "\"'" + tail));
  }

  /** Every character but the control characters the JSON escape does not know. */
  predicate Allowed(c: char) {
    !IsControl(c) || c in {'\n', '\r', '\t'}
  }

  predicate Printable(message: string) {
    forall c :: c in message ==> Allowed(c)
  }

  /** What the decoder does with the image of one character. */
  lemma JsonStep(c: char, tail: string)
    ensures JsonDecode(Image(c, JSON_RULES) + tail) == if Allowed(c) then Prepend(c, JsonDecode(tail)) else None
  {
    var s := Image(c, JSON_RULES) + tail;
    if c in {'\\', '\"', '\n', '\r', '\t'} {
      JsonImage(c);
      assert s[2..] == tail;
      assert s[0] == '\\' && s[1] == Image(c, JSON_RULES)[1];
    } else {
      ImageCases(c, JSON_RULES);
      assert s == [c] + tail;
      assert s[1..] == tail;
    }
  }

  lemma JsonImage(c: char)
    requires c in {'\\', '\"', '\n', '\r', '\t'}
    ensures var image := Image(c, JSON_RULES);
            |image| == 2 && image[0] == '\\' && image[1] != 'u' && ShortEscape(image[1]) == Some(c)
  {
  }

  lemma JsonRulesIndependent()
    ensures Independent(JSON_RULES)
  {
  }

  lemma EscapedFirst(message: string)
    ensures message == [] ==> EscapeJsonString(message) == []
    ensures message != [] ==>
      EscapeJsonString(message) == Image(message[0], JSON_RULES) + EscapeJsonString(message[1..])
  {
    JsonRulesIndependent();
    ReplaceAllIsPerCharacter(message, JSON_RULES);
  }

  lemma PrintableFirst(message: string)
    requires message != []
    ensures Printable(message) <==> Allowed(message[0]) && Printable(message[1..])
  {
    assert message == [message[0]] + message[1..];
  }

  /** JSON decoding undoes the escape for exactly the messages whose only control characters are
      newline, carriage return and tab; on any other message the output is not JSON. */
  lemma {:induction false} JsonRoundTrip(message: string)
    ensures JsonDecode(EscapeJsonString(message)) == if Printable(message) then Some(message) else None
  {
    EscapedFirst(message);
    if message != [] {
      JsonRoundTrip(message[1..]);
      JsonStep(message[0], EscapeJsonString(message[1..]));
      PrintableFirst(message);
      assert message == [message[0]] + message[1..];
    }
  }

  /** Both layers together: what the shell hands to `printf` is a JSON string body for the message,
      if and only if the message has no other control character. */
  lemma QuotingRoundTrip(message: string)
    ensures var word := Unquote(Bare, ShellWord(EscapeJsonString(message)));
            word.Some? && (JsonDecode(word.value) == Some(message) <==> Printable(message))
  {
    ShellWordRoundTrip(EscapeJsonString(message));
    JsonRoundTrip(message);
  }

  /** The order of the replacements matters: doubling backslashes last breaks a one-newline message. */
  lemma BackslashMustComeFirst()
    ensures JsonDecode(ReplaceAll("\n", [Rule('\n', "\\n"), Rule('\\', "\\\\")])) == Some("\\n")
  {
    assert Replace("\n", '\n', "\\n") == "\\n" + Replace([], '\n', "\\n") == "\\n";
    ReplaceConcat("\\", "n", '\\', "\\\\");
    assert "\\n" == "\\" + "n";
    assert Replace("\\", '\\', "\\\\") == "\\\\" + Replace([], '\\', "\\\\") == "\\\\";
    assert Replace("n", '\\', "\\\\") == "n" + Replace([], '\\', "\\\\") == "n";
    assert "\\\\n"[2..] == "n" && "n"[1..] == [];
  }
}
