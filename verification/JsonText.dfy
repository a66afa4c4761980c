/** JSON text: strings as Go's encoder escapes them, and a reader for whole texts that takes space, members
    and elements as the decoder does. */
module JsonText {
  import opened Wrappers
  import opened Text
  import opened Json

  // ----- writing strings -----

  function HexDigit(n: nat): (c: char)
    requires n < 16
    ensures HexValue(c) == Some(n)
  {
    if n < 10 then '0' + n as char else 'a' + (n - 10) as char
  }

  function HexValue(c: char): (n: Option<nat>)
    ensures n.Some? ==> n.value < 16
  {
    if '0' <= c <= '9' then Some((c - '0') as nat)
    else if 'a' <= c <= 'f' then Some((c - 'a') as nat + 10)
    else if 'A' <= c <= 'F' then Some((c - 'A') as nat + 10)
    else None
  }

  function Hex4(n: nat): string
    requires n < 0x10000
  {
    [HexDigit(n / 0x1000), HexDigit(n / 0x100 % 16), HexDigit(n / 16 % 16), HexDigit(n % 16)]
  }

  predicate NeedsHex(c: char) {
    var n := c as int;
    n < 0x20 || c == '<' || c == '>' || c == '&' || n == 0x2028 || n == 0x2029
  }

  function EscapeChar(c: char): string {
    if c == '"' then "\\\""
    else if c == '\\' then "\\\\"
    else if c == '\n' then "\\n"
    else if c == '\r' then "\\r"
    else if c == '\t' then "\\t"
    else if c as int == 8 then "\\b"
    else if c as int == 12 then "\\f"
    else if NeedsHex(c) then "\\u" + Hex4(c as int)
    else [c]
  }

  function Escape(s: string): string {
    if s == "" then "" else EscapeChar(s[0]) + Escape(s[1..])
  }

  /** What must not stand in a text that may end up in a page or a log: markup, controls, line separators. */
  const UNSAFE: set<char> := {'<', '>', '&', '\U{2028}', '\U{2029}'}

  lemma {:induction false} EscapedIsSafe(s: string)
    ensures forall i :: 0 <= i < |Escape(s)| ==> Escape(s)[i] as int >= 0x20 && Escape(s)[i] !in UNSAFE
  {
    if s != "" {
      EscapedIsSafe(s[1..]);
      EscapedCharIsSafe(s[0]);
    }
  }

  lemma EscapedCharIsSafe(c: char)
    ensures forall i :: 0 <= i < |EscapeChar(c)| ==> EscapeChar(c)[i] as int >= 0x20 && EscapeChar(c)[i] !in UNSAFE
  {
    if |EscapeChar(c)| == 6 {
      var n := c as int;
      assert forall m: nat :: m < 16 ==> HexValue(HexDigit(m)).Some?;
      assert EscapeChar(c) == ['\\', 'u', HexDigit(n / 0x1000), HexDigit(n / 0x100 % 16), HexDigit(n / 16 % 16),
                               HexDigit(n % 16)];
    }
  }

  // ----- reading strings -----

  const REPLACEMENT: char := 0xFFFD as char

  function ParseHex4(t: string): (n: Option<nat>)
    ensures n.Some? ==> |t| >= 4 && n.value < 0x10000
  {
    if |t| < 4 then None
    else
      var a, b, c, d := HexValue(t[0]), HexValue(t[1]), HexValue(t[2]), HexValue(t[3]);
      if a.Some? && b.Some? && c.Some? && d.Some?
      then Some(a.value * 0x1000 + b.value * 0x100 + c.value * 16 + d.value) else None
  }

  /** The low surrogate that a text starts with. */
  function LowSurrogate(t: string): (n: Option<nat>)
    ensures n.Some? ==> |t| >= 6 && 0xDC00 <= n.value < 0xE000
  {
    if |t| < 6 || t[0] != '\\' || t[1] != 'u' then None
    else
      var n := ParseHex4(t[2..]);
      if n.Some? && 0xDC00 <= n.value < 0xE000 then n else None
  }

  /** The character that a code unit stands for, with what follows it: a surrogate pair is one character, a
      surrogate on its own is replaced. */
  function FromUnit(n: nat, rest: string): (r: (char, string))
    requires n < 0x10000
    ensures |r.1| <= |rest|
  {
    if n < 0xD800 || 0xE000 <= n then (n as char, rest)
    else
      var low := LowSurrogate(rest);
      if n < 0xDC00 && low.Some?
      then ((0x10000 + (n - 0xD800) * 0x400 + (low.value - 0xDC00)) as char, rest[6..])
      else (REPLACEMENT, rest)
  }

  function ParseEscape(t: string): (r: Option<(char, string)>)
    requires t != "" && t[0] == '\\'
    ensures r.Some? ==> |r.value.1| < |t|
  {
    if |t| < 2 then None
    else
      match t[1]
      case '"' => Some(('"', t[2..]))
      case '\\' => Some(('\\', t[2..]))
      case '/' => Some(('/', t[2..]))
      case 'n' => Some(('\n', t[2..]))
      case 'r' => Some(('\r', t[2..]))
      case 't' => Some(('\t', t[2..]))
      case 'b' => Some((8 as char, t[2..]))
      case 'f' => Some((12 as char, t[2..]))
      case 'u' =>
        var n := ParseHex4(t[2..]);
        if n.Some? then Some(FromUnit(n.value, t[6..])) else None
      case _ => None
  }

  /** The string up to its closing quote, and what follows. */
  function ParseString(t: string): (r: Option<(string, string)>)
    ensures r.Some? ==> |r.value.1| < |t|
    decreases |t|
  {
    if t == "" then None
    else if t[0] == '"' then Some(("", t[1..]))
    else
      var head := if t[0] == '\\' then ParseEscape(t)
                  else if t[0] as int < 0x20 then None
                  else Some((t[0], t[1..]));
      if head.None? then None
      else
        var tail := ParseString(head.value.1);
        if tail.None? then None else Some(([head.value.0] + tail.value.0, tail.value.1))
  }

  lemma HexDigitsRecombine(n: nat)
    requires n < 0x10000
    ensures n / 0x1000 < 16
    ensures n / 0x1000 * 0x1000 + n / 0x100 % 16 * 0x100 + n / 16 % 16 * 16 + n % 16 == n
  {
    assert n / 0x1000 == n / 0x100 / 16;
  }

  lemma Hex4RoundTrip(n: nat, rest: string)
    requires n < 0x10000
    ensures ParseHex4(Hex4(n) + rest) == Some(n)
  {
    var t := Hex4(n) + rest;
    HexDigitsRecombine(n);
    var a, b, c, d := n / 0x1000, n / 0x100 % 16, n / 16 % 16, n % 16;
    assert t[0] == HexDigit(a) && t[1] == HexDigit(b) && t[2] == HexDigit(c) && t[3] == HexDigit(d);
    ParseHexDigits(a, b, c, d, t);
  }

  lemma ParseHexDigits(a: nat, b: nat, c: nat, d: nat, t: string)
    requires a < 16 && b < 16 && c < 16 && d < 16 && |t| >= 4
    requires t[0] == HexDigit(a) && t[1] == HexDigit(b) && t[2] == HexDigit(c) && t[3] == HexDigit(d)
    ensures ParseHex4(t) == Some(a * 0x1000 + b * 0x100 + c * 16 + d)
  {
    assert HexValue(t[0]) == Some(a) && HexValue(t[1]) == Some(b);
    assert HexValue(t[2]) == Some(c) && HexValue(t[3]) == Some(d);
  }

  lemma HexEscapeRoundTrip(c: char, rest: string)
    requires NeedsHex(c)
    ensures var t := "\\u" + Hex4(c as int) + rest;
            t[0] == '\\' && ParseEscape(t) == Some((c, rest))
  {
    var t := "\\u" + Hex4(c as int) + rest;
    Hex4RoundTrip(c as int, rest);
    assert t[2..] == Hex4(c as int) + rest;
    assert t[6..] == rest;
  }

  lemma EscapeCharRoundTrip(c: char, rest: string)
    ensures var t := EscapeChar(c) + rest;
            && t[0] != '"'
            && (if t[0] == '\\' then ParseEscape(t) == Some((c, rest))
                else t[0] == c && c as int >= 0x20 && t[1..] == rest)
  {
    var t := EscapeChar(c) + rest;
    if |EscapeChar(c)| == 6 {
      HexEscapeRoundTrip(c, rest);
    } else if |EscapeChar(c)| == 2 {
      assert t[2..] == rest;
    }
  }

  /** Every string that is written reads back, whatever follows it. */
  lemma {:induction false} StringRoundTrip(s: string, rest: string)
    ensures ParseString(Escape(s) + ("\"" + rest)) == Some((s, rest))
  {
    if s == "" {
      assert Escape(s) + ("\"" + rest) == "\"" + rest;
    } else {
      var tail := Escape(s[1..]) + ("\"" + rest);
      StringRoundTrip(s[1..], rest);
      CharThenTail(s[0], s[1..], tail, rest);
      Assoc(EscapeChar(s[0]), Escape(s[1..]), "\"" + rest);
      assert [s[0]] + s[1..] == s;
    }
  }

  lemma CharThenTail(c: char, s: string, tail: string, rest: string)
    requires ParseString(tail) == Some((s, rest))
    ensures ParseString(EscapeChar(c) + tail) == Some(([c] + s, rest))
  {
    EscapeCharRoundTrip(c, tail);
  }

  predicate IsPlain(c: char) {
    c != '"' && c != '\\' && !NeedsHex(c)
  }

  lemma EscapePlainChar(c: char)
    requires IsPlain(c)
    ensures EscapeChar(c) == [c]
  {
    assert '\n' as int == 10 && '\r' as int == 13 && '\t' as int == 9;
  }

  lemma {:induction false} EscapePlain(s: string)
    requires forall c :: c in s ==> IsPlain(c)
    ensures Escape(s) == s
  {
    if s != "" {
      EscapePlain(s[1..]);
      EscapePlainChar(s[0]);
      assert s == [s[0]] + s[1..];
    }
  }

  // ----- reading values -----

  predicate IsJsonSpace(c: char) {
    c == ' ' || c == '\t' || c == '\n' || c == '\r'
  }

  function SkipSpace(t: string): (r: string)
    ensures |r| <= |t|
    ensures r != "" ==> !IsJsonSpace(r[0])
    ensures forall c :: c in r ==> c in t
  {
    if t != "" && IsJsonSpace(t[0]) then SkipSpace(t[1..]) else t
  }

  predicate IsDigit(c: char) {
    '0' <= c <= '9'
  }

  /** How many digits a text starts with. */
  function Digits(t: string): (n: nat)
    ensures n <= |t|
  {
    if t != "" && IsDigit(t[0]) then 1 + Digits(t[1..]) else 0
  }

  /** The length of the integer part that a text starts with, of its fraction, and of its exponent. */
  function IntegerPart(t: string): (n: Option<nat>)
    ensures n.Some? ==> 0 < n.value <= |t|
  {
    var sign := if t != "" && t[0] == '-' then 1 else 0;
    if |t| > sign && t[sign] == '0' then Some(sign + 1)
    else if Digits(t[sign..]) > 0 then Some(sign + Digits(t[sign..]))
    else None
  }

  function FractionPart(t: string): (n: Option<nat>)
    ensures n.Some? ==> n.value <= |t|
  {
    if t == "" || t[0] != '.' then Some(0)
    else if Digits(t[1..]) > 0 then Some(1 + Digits(t[1..]))
    else None
  }

  function ExponentPart(t: string): (n: Option<nat>)
    ensures n.Some? ==> n.value <= |t|
  {
    if t == "" || (t[0] != 'e' && t[0] != 'E') then Some(0)
    else
      var sign := if |t| > 1 && (t[1] == '+' || t[1] == '-') then 2 else 1;
      if Digits(t[sign..]) > 0 then Some(sign + Digits(t[sign..])) else None
  }

  function ReadNumber(t: string): (r: Option<(Json, string)>)
    ensures r.Some? ==> r.value.0.Num? && |r.value.1| < |t|
  {
    var i := IntegerPart(t);
    if i.None? then None
    else
      var f := FractionPart(t[i.value..]);
      if f.None? then None
      else
        var e := ExponentPart(t[i.value + f.value..]);
        if e.None? then None
        else
          var n := i.value + f.value + e.value;
          Some((Num(t[..n]), t[n..]))
  }

  function ReadWord(t: string, word: string, v: Json): (r: Option<(Json, string)>)
    requires word != ""
    ensures r.Some? ==> r.value.0 == v && |r.value.1| < |t|
  {
    if HasPrefix(t, word) then Some((v, t[|word|..])) else None
  }

  /** The value that a text starts with, and what follows. An object keeps its members in text order, with
      repeated keys. */
  function ReadValue(t: string): (r: Option<(Json, string)>)
    ensures r.Some? ==> |r.value.1| < |t|
    ensures r.Some? && r.value.0.Obj? ==> t[0] == '{'
    decreases |t|, 0
  {
    if t == "" then None
    else if t[0] == '"' then
      var s := ParseString(t[1..]);
      if s.None? then None else Some((Str(s.value.0), s.value.1))
    else if t[0] == '{' then
      var u := SkipSpace(t[1..]);
      if u != "" && u[0] == '}' then Some((Obj([]), u[1..]))
      else
        var r := ReadMembers(u);
        if r.None? then None else Some((Obj(r.value.0), r.value.1))
    else if t[0] == '[' then
      var u := SkipSpace(t[1..]);
      if u != "" && u[0] == ']' then Some((Arr([]), u[1..]))
      else
        var r := ReadElements(u);
        if r.None? then None else Some((Arr(r.value.0), r.value.1))
    else if t[0] == 't' then ReadWord(t, "true", Bool(true))
    else if t[0] == 'f' then ReadWord(t, "false", Bool(false))
    else if t[0] == 'n' then ReadWord(t, "null", Null)
    else ReadNumber(t)
  }

  function ReadMembers(t: string): (r: Option<(seq<Member>, string)>)
    ensures r.Some? ==> |r.value.1| < |t| && t[0] == '"'
    decreases |t|, 1
  {
    if t == "" || t[0] != '"' then None
    else
      var key := ParseString(t[1..]);
      if key.None? then None
      else
        var colon := SkipSpace(key.value.1);
        if colon == "" || colon[0] != ':' then None
        else
          var value := ReadValue(SkipSpace(colon[1..]));
          if value.None? then None
          else AfterMember(t, Member(key.value.0, value.value.0), value.value.1)
  }

  /** A member was read from `t`; `rest` follows it. */
  function AfterMember(t: string, member: Member, rest: string): (r: Option<(seq<Member>, string)>)
    requires |rest| < |t|
    ensures r.Some? ==> |r.value.1| < |t|
    decreases |t|, 0
  {
    var u := SkipSpace(rest);
    if u == "" then None
    else if u[0] == '}' then Some(([member], u[1..]))
    else if u[0] != ',' then None
    else
      var more := ReadMembers(SkipSpace(u[1..]));
      if more.None? then None else Some(([member] + more.value.0, more.value.1))
  }

  function ReadElements(t: string): (r: Option<(seq<Json>, string)>)
    ensures r.Some? ==> |r.value.1| < |t|
    decreases |t|, 1
  {
    var value := ReadValue(t);
    if value.None? then None
    else
      var u := SkipSpace(value.value.1);
      if u == "" then None
      else if u[0] == ']' then Some(([value.value.0], u[1..]))
      else if u[0] != ',' then None
      else
        var more := ReadElements(SkipSpace(u[1..]));
        if more.None? then None else Some(([value.value.0] + more.value.0, more.value.1))
  }

  /** A whole text: one value, with nothing but space around it. */
  function ReadText(t: string): Option<Json> {
    var v := ReadValue(SkipSpace(t));
    if v.Some? && SkipSpace(v.value.1) == "" then Some(v.value.0) else None
  }

  // ----- objects of strings -----

  /** A member with a plain name and a string value, and what follows it, as the encoder writes them. */
  function MemberText(name: string, s: string, rest: string): string {
    "\"" + (name + ("\":\"" + (Escape(s) + ("\"" + rest))))
  }

  lemma StringValueReads(s: string, rest: string)
    ensures ReadValue("\"" + (Escape(s) + ("\"" + rest))) == Some((Str(s), rest))
  {
    var body := Escape(s) + ("\"" + rest);
    StringRoundTrip(s, rest);
    assert ("\"" + body)[1..] == body;
  }

  lemma NameReads(name: string, rest: string)
    requires forall c :: c in name ==> IsPlain(c)
    ensures ParseString(name + ("\"" + rest)) == Some((name, rest))
  {
    EscapePlain(name);
    StringRoundTrip(name, rest);
  }

  lemma MemberStep(t: string, key: string, colon: string, v: Json, rest: string)
    requires t != "" && t[0] == '"' && ParseString(t[1..]) == Some((key, colon))
    requires colon != "" && colon[0] == ':' && colon[1..] != "" && !IsJsonSpace(colon[1])
    requires ReadValue(colon[1..]) == Some((v, rest))
    ensures |rest| < |t| && ReadMembers(t) == AfterMember(t, Member(key, v), rest)
  {
    assert SkipSpace(colon) == colon && SkipSpace(colon[1..]) == colon[1..];
  }

  lemma MemberReads(name: string, s: string, rest: string)
    requires forall c :: c in name ==> IsPlain(c)
    ensures |rest| < |MemberText(name, s, rest)|
    ensures ReadMembers(MemberText(name, s, rest)) == AfterMember(MemberText(name, s, rest), Member(name, Str(s)), rest)
  {
    var t := MemberText(name, s, rest);
    var value := "\"" + (Escape(s) + ("\"" + rest));
    var colon := ":" + value;
    Regroup(name, s, rest);
    NameReads(name, colon);
    assert colon[1..] == value;
    StringValueReads(s, rest);
    MemberStep(t, name, colon, Str(s), rest);
  }

  lemma Regroup(name: string, s: string, rest: string)
    ensures MemberText(name, s, rest)[1..] == name + ("\"" + (":" + ("\"" + (Escape(s) + ("\"" + rest)))))
  {
    var body := Escape(s) + ("\"" + rest);
    assert "\":\"" + body == "\"" + (":" + ("\"" + body));
  }

  /** No text without a brace and a quote reads as an object with members. */
  lemma MembersNeedBraceAndQuote(t: string)
    requires ReadText(t).Some? && ReadText(t).value.Obj? && ReadText(t).value.members != []
    ensures '{' in t && '"' in t
  {
    var u := SkipSpace(t);
    var v := SkipSpace(u[1..]);
    assert u[0] in u && v[0] in v;
    assert v[0] in u[1..] && v[0] in u;
  }
}
