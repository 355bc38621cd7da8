/**
  The session payload `JSON.stringify({ email, exp })` and the part of
  `JSON.parse` that reads it back: a string member escaped as the JSON
  standard (RFC 8259, section 7) and ECMAScript's serializer require, then
  an integer member.
 */
module SessionPayload {
  import opened Wrappers
  import opened Text
  import opened Encoding

  /** The two claims a session carries. */
  datatype Claims = Claims(email: string, exp: int)

  /** How `JSON.stringify` writes one character inside a string literal. */
  function EscapeChar(c: char): (r: string)
    ensures |r| >= 1
    ensures ('.' in r) <==> c == '.'
  {
    if c == '"' then "\\\""
    else if c == '\\' then "\\\\"
    else if c == '\U{8}' then "\\b"
    else if c == '\t' then "\\t"
    else if c == '\n' then "\\n"
    else if c == '\U{C}' then "\\f"
    else if c == '\r' then "\\r"
    else if c < ' ' then "\\u00" + [HexDigit(c as int / 16), HexDigit(c as int % 16)]
    else [c]
  }

  /** The body of the string literal for `s` (without its quotes). */
  function Escape(s: string): string {
    if |s| == 0 then "" else EscapeChar(s[0]) + Escape(s[1..])
  }

  const EmailKey := "{\"email\":\""
  const ExpKey := ",\"exp\":"

  /** The `exp` member and the closing brace. */
  function ExpTail(exp: int): string {
    ExpKey + IntToString(exp) + "}"
  }

  /** What follows the email in the payload: the closing quote and the `exp` member. */
  function Closing(exp: int): string {
    "\"" + ExpTail(exp)
  }

  /** `JSON.stringify({ email, exp })` for an integral `exp`. */
  function Stringify(c: Claims): string {
    EmailKey + Escape(c.email) + Closing(c.exp)
  }

  function Prepend(c: char, r: Option<(string, string)>): Option<(string, string)> {
    match r
    case None => None
    case Some((body, rest)) => Some(([c] + body, rest))
  }

  /** The character a two-character escape `\x` stands for. */
  function ShortEscape(x: char): Option<char> {
    if x == '"' then Some('"')
    else if x == '\\' then Some('\\')
    else if x == '/' then Some('/')
    else if x == 'b' then Some('\U{8}')
    else if x == 'f' then Some('\U{C}')
    else if x == 'n' then Some('\n')
    else if x == 'r' then Some('\r')
    else if x == 't' then Some('\t')
    else None
  }

  /** The value of four hex digits. */
  function Hex4(s: string): (r: Option<int>)
    requires |s| == 4
    ensures r.Some? ==> 0 <= r.value < 0x10000
  {
    if HexValue(s[0]).Some? && HexValue(s[1]).Some? && HexValue(s[2]).Some? && HexValue(s[3]).Some?
    then Some(((HexValue(s[0]).value * 16 + HexValue(s[1]).value) * 16 + HexValue(s[2]).value) * 16 + HexValue(s[3]).value)
    else None
  }

  /**
    The character at the head of a literal's body and how many characters
    it takes: itself, a two-character escape, or `\\u` and four hex digits
    naming a non-surrogate code unit; `None` for any other escape.
   */
  function Unescape(s: string): (r: Option<(char, nat)>)
    requires |s| > 0
    ensures r.Some? ==> 1 <= r.value.1 <= |s|
  {
    if s[0] != '\\' then Some((s[0], 1))
    else if |s| >= 2 && ShortEscape(s[1]).Some? then Some((ShortEscape(s[1]).value, 2))
    else if |s| >= 6 && s[1] == 'u' && Hex4(s[2..6]).Some? then
      var v := Hex4(s[2..6]).value;
      if 0xD800 <= v < 0xE000 then None else Some((v as char, 6))
    else None
  }

  /**
    Reads the rest of a string literal whose opening quote is already
    consumed: its decoded content and the text after the closing quote, or
    `None` when the literal is malformed, holds a raw control character, or
    is never closed.
   */
  function ReadString(s: string): Option<(string, string)>
    decreases |s|
  {
    if |s| == 0 then None
    else if s[0] == '"' then Some(("", s[1..]))
    else if s[0] < ' ' then None
    else
      match Unescape(s)
      case None => None
      case Some((ch, k)) => Prepend(ch, ReadString(s[k..]))
  }

  predicate AllDigits(s: string) {
    forall i :: 0 <= i < |s| ==> '0' <= s[i] <= '9'
  }

  /** The value of a string of decimal digits. */
  function DigitsValue(s: string): nat
    requires AllDigits(s)
  {
    if |s| == 0 then 0 else 10 * DigitsValue(s[..|s| - 1]) + (s[|s| - 1] as int - '0' as int)
  }

  /** An optionally signed run of decimal digits. */
  function ParseInt(s: string): Option<int> {
    if |s| >= 2 && s[0] == '-' && AllDigits(s[1..]) then Some(0 - DigitsValue(s[1..]))
    else if |s| >= 1 && AllDigits(s) then Some(DigitsValue(s))
    else None
  }

  /** `JSON.parse(payload)` for the payload's own shape; `None` is a `SyntaxError`. */
  function Parse(p: string): Option<Claims> {
    if !StartsWith(p, EmailKey) then None
    else
      match ReadString(p[|EmailKey|..])
      case None => None
      case Some((email, rest)) =>
        if !StartsWith(rest, ExpKey) || |rest| < |ExpKey| + 1 || rest[|rest| - 1] != '}' then None
        else
          match ParseInt(rest[|ExpKey|..|rest| - 1])
          case None => None
          case Some(exp) => Some(Claims(email, exp))
  }

  // ---------------------------------------------------------------------
  // Lemmas

  /** A control character without a short escape is written `\\u00XX` and read back from it. */
  lemma UnescapeControl(c: char, t: string)
    requires c < ' ' && c != '\U{8}' && c != '\t' && c != '\n' && c != '\U{C}' && c != '\r'
    ensures Unescape(EscapeChar(c) + t) == Some((c, 6))
  {
    var s := EscapeChar(c) + t;
    var n := c as int;
    assert s[0] == '\\' && s[1] == 'u';
    assert s[2..6] == ['0', '0', HexDigit(n / 16), HexDigit(n % 16)];
    HexDigitValue(n / 16);
    HexDigitValue(n % 16);
    assert Hex4(s[2..6]) == Some(n);
  }

  /** Each escaped character reads back as itself, and takes exactly its own width. */
  lemma UnescapeEscaped(c: char, t: string)
    ensures var s := EscapeChar(c) + t;
      s[0] != '"' && s[0] >= ' ' && Unescape(s) == Some((c, |EscapeChar(c)|))
  {
    var s := EscapeChar(c) + t;
    if c < ' ' && c != '\U{8}' && c != '\t' && c != '\n' && c != '\U{C}' && c != '\r' {
      UnescapeControl(c, t);
      assert s[0] == '\\';
    } else if c == '"' || c == '\\' || c == '\U{8}' || c == '\t' || c == '\n' || c == '\U{C}' || c == '\r' {
      assert s[0] == '\\' && s[1] == EscapeChar(c)[1];
    } else {
      assert s[0] == c;
    }
  }

  lemma ReadEscapedChar(c: char, t: string)
    ensures ReadString(EscapeChar(c) + t) == Prepend(c, ReadString(t))
  {
    var s := EscapeChar(c) + t;
    UnescapeEscaped(c, t);
    assert s[|EscapeChar(c)|..] == t;
  }

  lemma {:induction false} EscapeConcat(a: string, b: string)
    ensures Escape(a + b) == Escape(a) + Escape(b)
  {
    if |a| == 0 {
      assert a + b == b;
    } else {
      assert (a + b)[0] == a[0] && (a + b)[1..] == a[1..] + b;
      EscapeConcat(a[1..], b);
    }
  }

  /** An escaped text followed by a quote reads back as that text, and reading stops right after the quote. */
  lemma {:induction false} ReadEscaped(u: string, rest: string)
    ensures ReadString(Escape(u) + "\"" + rest) == Some((u, rest))
  {
    if |u| == 0 {
      assert Escape(u) + "\"" + rest == "\"" + rest;
    } else {
      assert Escape(u) + "\"" + rest == EscapeChar(u[0]) + (Escape(u[1..]) + "\"" + rest);
      ReadEscapedChar(u[0], Escape(u[1..]) + "\"" + rest);
      ReadEscaped(u[1..], rest);
      assert [u[0]] + u[1..] == u;
    }
  }

  /** An escaped text on its own never closes the literal. */
  lemma {:induction false} ReadUnterminated(u: string)
    ensures ReadString(Escape(u)) == None
  {
    if |u| > 0 {
      ReadEscapedChar(u[0], Escape(u[1..]));
      ReadUnterminated(u[1..]);
    }
  }

  lemma {:induction false} DigitsOfNat(n: nat)
    ensures AllDigits(NatToString(n)) && DigitsValue(NatToString(n)) == n
  {
    var s := NatToString(n);
    if n >= 10 {
      DigitsOfNat(n / 10);
      assert s[..|s| - 1] == NatToString(n / 10);
    }
  }

  lemma ParseIntToString(i: int)
    ensures ParseInt(IntToString(i)) == Some(i)
  {
    DigitsOfNat(if i < 0 then -i else i);
    if i < 0 {
      assert IntToString(i)[1..] == NatToString(-i);
    }
  }

  lemma {:induction false} EscapeHasDotIff(s: string)
    ensures ('.' in Escape(s)) <==> '.' in s
  {
    if |s| > 0 {
      EscapeHasDotIff(s[1..]);
      assert s == [s[0]] + s[1..];
    }
  }

  /** Once the email literal is read, a tail `,"exp":<int>}` completes the claims. */
  lemma ParseAfterEmail(p: string, email: string, rest: string, exp: int)
    requires StartsWith(p, EmailKey) && ReadString(p[|EmailKey|..]) == Some((email, rest))
    requires StartsWith(rest, ExpKey) && |rest| >= |ExpKey| + 1 && rest[|rest| - 1] == '}'
    requires ParseInt(rest[|ExpKey|..|rest| - 1]) == Some(exp)
    ensures Parse(p) == Some(Claims(email, exp))
  {
  }

  /** The payload is the email key, the escaped email, a quote and the `exp` tail. */
  lemma StringifyParts(c: Claims)
    ensures StartsWith(Stringify(c), EmailKey)
    ensures Stringify(c)[|EmailKey|..] == Escape(c.email) + "\"" + ExpTail(c.exp)
  {
    var q := Escape(c.email) + Closing(c.exp);
    assert Stringify(c) == EmailKey + q;
    assert q == Escape(c.email) + "\"" + ExpTail(c.exp);
  }

  /** The payload opens with the email key, and its string literal reads back as the email. */
  lemma ReadStringifiedEmail(c: Claims)
    ensures StartsWith(Stringify(c), EmailKey)
    ensures ReadString(Stringify(c)[|EmailKey|..]) == Some((c.email, ExpTail(c.exp)))
  {
    StringifyParts(c);
    ReadEscaped(c.email, ExpTail(c.exp));
  }

  /** The text after the email literal is the `exp` member and the closing brace. */
  lemma ExpTailParses(exp: int)
    ensures var rest := ExpTail(exp);
      StartsWith(rest, ExpKey) && |rest| >= |ExpKey| + 1 && rest[|rest| - 1] == '}'
      && ParseInt(rest[|ExpKey|..|rest| - 1]) == Some(exp)
  {
    var rest := ExpTail(exp);
    assert rest[..|ExpKey|] == ExpKey;
    assert rest[|ExpKey|..|rest| - 1] == IntToString(exp);
    ParseIntToString(exp);
  }

  /** What the serializer writes, the parser reads back. */
  lemma ParseStringify(c: Claims)
    ensures Parse(Stringify(c)) == Some(c)
  {
    ReadStringifiedEmail(c);
    ExpTailParses(c.exp);
    ParseAfterEmail(Stringify(c), c.email, ExpTail(c.exp), c.exp);
  }

  /** The payload holds a dot exactly when the email does; the rest of its text has none. */
  lemma StringifyDots(c: Claims)
    ensures ('.' in Stringify(c)) <==> '.' in c.email
  {
    EscapeHasDotIff(c.email);
    var num := IntToString(c.exp);
    assert '.' !in num;
    assert '.' !in Closing(c.exp);
    assert '.' !in EmailKey;
  }

  lemma EscapeAtDot(e: string, k: nat)
    requires k < |e| && e[k] == '.'
    ensures Escape(e) == Escape(e[..k]) + "." + Escape(e[k + 1..])
  {
    assert e == e[..k] + (['.'] + e[k + 1..]);
    EscapeConcat(e[..k], ['.'] + e[k + 1..]);
    EscapeConcat(['.'], e[k + 1..]);
    assert Escape(['.']) == ".";
  }

  /** The email key followed by an escaped text and no closing quote does not parse. */
  lemma ParseUnclosed(u: string)
    ensures Parse(EmailKey + Escape(u)) == None
  {
    var head := EmailKey + Escape(u);
    assert head[|EmailKey|..] == Escape(u);
    ReadUnterminated(u);
  }

  lemma StringifyAtDot(c: Claims, k: nat)
    requires k < |c.email| && c.email[k] == '.'
    ensures Stringify(c) == (EmailKey + Escape(c.email[..k])) + "." + (Escape(c.email[k + 1..]) + Closing(c.exp))
  {
    EscapeAtDot(c.email, k);
  }

  /**
    Cutting the payload at the first dot of the email leaves an unclosed
    string literal: the text before that dot never parses.
   */
  lemma CutPayload(c: Claims, k: nat) returns (head: string, tail: string)
    requires k < |c.email| && c.email[k] == '.' && '.' !in c.email[..k]
    ensures Stringify(c) == head + "." + tail
    ensures '.' !in head
    ensures Parse(head) == None
  {
    head := EmailKey + Escape(c.email[..k]);
    tail := Escape(c.email[k + 1..]) + Closing(c.exp);
    StringifyAtDot(c, k);
    EscapeHasDotIff(c.email[..k]);
    ParseUnclosed(c.email[..k]);
  }
}
