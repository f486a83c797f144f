/** The JSON text that is hashed into the cache key, with a reader for it.

    Only the shapes the key uses appear: an object whose members are strings, lists of
    strings, booleans and unsigned integers. Strings are escaped as section 7 of RFC 8259
    requires, with the short escapes and lower-case hexadecimal the serializer picks. */
module CacheJson {
  import opened Wrappers
  import opened Text

  datatype Value =
    | JString(text: string)
    | JStrings(items: seq<string>)
    | JBool(flag: bool)
    | JNumber(number: nat)

  datatype Member = Member(name: string, value: Value)

  const QUOTE: char := '\"'
  const BACKSLASH: char := '\\'

  // ---- Writing --------------------------------------------------------------------

  function HexChar(d: nat): char
    requires d < 16
  {
    if d < 10 then DigitChar(d) else (87 + d) as char
  }

  function EscapeChar(c: char): string {
    var n := c as int;
    if c == '\"' then "\\\""
    else if c == '\\' then "\\\\"
    else if n == 0x08 then "\\b"
    else if n == 0x0C then "\\f"
    else if n == 0x0A then "\\n"
    else if n == 0x0D then "\\r"
    else if n == 0x09 then "\\t"
    else if n < 0x20 then "\\u00" + [HexChar(n / 16), HexChar(n % 16)]
    else [c]
  }

  function Escape(s: string): string {
    if s == "" then "" else EscapeChar(s[0]) + Escape(s[1..])
  }

  function WriteString(s: string): string {
    "\"" + Escape(s) + "\""
  }

  function WriteItems(items: seq<string>): string {
    if items == [] then "]"
    else WriteString(items[0]) + (if |items| == 1 then "]" else "," + WriteItems(items[1..]))
  }

  function WriteValue(v: Value): string {
    match v
    case JString(s) => WriteString(s)
    case JStrings(items) => "[" + WriteItems(items)
    case JBool(b) => if b then "true" else "false"
    case JNumber(n) => Decimal(n)
  }

  function WriteMember(m: Member): string {
    WriteString(m.name) + ":" + WriteValue(m.value)
  }

  function WriteMembers(ms: seq<Member>): string
    requires ms != []
  {
    WriteMember(ms[0]) + (if |ms| == 1 then "}" else "," + WriteMembers(ms[1..]))
  }

  function WriteObject(ms: seq<Member>): string {
    if ms == [] then "{}" else "{" + WriteMembers(ms)
  }

  // ---- Reading --------------------------------------------------------------------

  function HexValue(c: char): Option<nat> {
    if IsDigit(c) then Some(DigitValue(c))
    else if 'a' <= c <= 'f' then Some(c as int - 87)
    else if 'A' <= c <= 'F' then Some(c as int - 55)
    else None
  }

  /** The character named by the escape after a backslash, and the text after it. Escapes
      of surrogate halves are refused: they never name one character. */
  function ReadEscape(s: string): (r: Option<(char, string)>)
    ensures r.Some? ==> |r.value.1| < |s|
  {
    if s == "" then None
    else if s[0] == '\"' || s[0] == '\\' || s[0] == '/' then Some((s[0], s[1..]))
    else if s[0] == 'b' then Some((0x08 as char, s[1..]))
    else if s[0] == 'f' then Some((0x0C as char, s[1..]))
    else if s[0] == 'n' then Some((0x0A as char, s[1..]))
    else if s[0] == 'r' then Some((0x0D as char, s[1..]))
    else if s[0] == 't' then Some((0x09 as char, s[1..]))
    else if s[0] == 'u' && |s| >= 5 then
      match (HexValue(s[1]), HexValue(s[2]), HexValue(s[3]), HexValue(s[4]))
      case (Some(a), Some(b), Some(c), Some(d)) =>
        var n := 4096 * a + 256 * b + 16 * c + d;
        if n < 0xD800 || 0xE000 <= n < 0x10000 then Some((n as char, s[5..])) else None
      case _ => None
    else None
  }

  /** A string's characters up to its closing quote, and the text after that quote. */
  function ReadStringBody(s: string): (r: Option<(string, string)>)
    ensures r.Some? ==> |r.value.1| < |s|
    decreases |s|
  {
    if s == "" || (s[0] as int) < 0x20 then None
    else if s[0] == '\"' then Some(("", s[1..]))
    else
      var first := if s[0] == '\\' then ReadEscape(s[1..]) else Some((s[0], s[1..]));
      match first
      case None => None
      case Some((c, rest)) =>
        match ReadStringBody(rest)
        case None => None
        case Some((text, rest')) => Some(([c] + text, rest'))
  }

  function ReadString(s: string): (r: Option<(string, string)>)
    ensures r.Some? ==> |r.value.1| < |s|
  {
    if s != "" && s[0] == '\"' then ReadStringBody(s[1..]) else None
  }

  function ReadItems(s: string): (r: Option<(seq<string>, string)>)
    ensures r.Some? ==> |r.value.1| < |s|
    decreases |s|
  {
    if s != "" && s[0] == ']' then Some(([], s[1..]))
    else
      match ReadString(s)
      case None => None
      case Some((item, rest)) =>
        if rest != "" && rest[0] == ']' then Some(([item], rest[1..]))
        else if rest != "" && rest[0] == ',' then
          match ReadItems(rest[1..])
          case None => None
          case Some((items, rest')) => Some(([item] + items, rest'))
        else None
  }

  function LeadingDigits(s: string): (k: nat)
    ensures k <= |s| && forall c :: c in s[..k] ==> IsDigit(c)
  {
    if s == "" || !IsDigit(s[0]) then 0
    else
      var k := 1 + LeadingDigits(s[1..]);
      assert s[..k] == [s[0]] + s[1..][..k - 1];
      k
  }

  function ReadValue(s: string): (r: Option<(Value, string)>)
    ensures r.Some? ==> |r.value.1| < |s|
  {
    if s == "" then None
    else if s[0] == '\"' then
      match ReadString(s)
      case None => None
      case Some((text, rest)) => Some((JString(text), rest))
    else if s[0] == '[' then
      match ReadItems(s[1..])
      case None => None
      case Some((items, rest)) => Some((JStrings(items), rest))
    else if "true" <= s then Some((JBool(true), s[4..]))
    else if "false" <= s then Some((JBool(false), s[5..]))
    else
      var k := LeadingDigits(s);
      if k == 0 then None else Some((JNumber(DigitsValue(s[..k])), s[k..]))
  }

  function ReadMembers(s: string): (r: Option<(seq<Member>, string)>)
    ensures r.Some? ==> |r.value.1| < |s|
    decreases |s|
  {
    match ReadString(s)
    case None => None
    case Some((name, rest)) =>
      if rest == "" || rest[0] != ':' then None
      else
        match ReadValue(rest[1..])
        case None => None
        case Some((value, rest')) =>
          if rest' != "" && rest'[0] == '}' then Some(([Member(name, value)], rest'[1..]))
          else if rest' != "" && rest'[0] == ',' then
            match ReadMembers(rest'[1..])
            case None => None
            case Some((ms, rest'')) => Some(([Member(name, value)] + ms, rest''))
          else None
  }

  function ReadObject(s: string): Option<seq<Member>> {
    if s == "{}" then Some([])
    else if s == "" || s[0] != '{' then None
    else
      match ReadMembers(s[1..])
      case Some((ms, "")) => Some(ms)
      case _ => None
  }

  // ---- Reading undoes writing -----------------------------------------------------

  lemma ReadEscapedChar(c: char, rest: string)
    ensures var e := EscapeChar(c);
            if |e| == 1 then
              e == [c] && c != BACKSLASH && c != QUOTE && c as int >= 0x20
            else
              |e| >= 2 && e[0] == BACKSLASH && ReadEscape(e[1..] + rest) == Some((c, rest))
  {
  }

  lemma {:induction false} ReadWrittenBody(s: string, rest: string)
    ensures ReadStringBody(Escape(s) + [QUOTE] + rest) == Some((s, rest))
  {
    hide EscapeChar, ReadEscape;
    var all := Escape(s) + [QUOTE] + rest;
    if s == "" {
      assert all == [QUOTE] + rest && all[1..] == rest;
    } else {
      var e, tail := EscapeChar(s[0]), Escape(s[1..]) + [QUOTE] + rest;
      ReadWrittenBody(s[1..], rest);
      assert all == e + tail;
      ReadBodyStep(s[0], tail, s[1..], rest);
      assert [s[0]] + s[1..] == s;
    }
  }

  /** One escaped character is read off the front of a string body. */
  lemma ReadBodyStep(c: char, tail: string, text: string, rest: string)
    requires ReadStringBody(tail) == Some((text, rest))
    ensures ReadStringBody(EscapeChar(c) + tail) == Some(([c] + text, rest))
  {
    ReadEscapedChar(c, tail);
    var e := EscapeChar(c);
    hide EscapeChar, ReadEscape;
    assert (e + tail)[1..] == e[1..] + tail;
    assert (e + tail)[0] == e[0];
    if |e| == 1 {
      assert e[1..] + tail == tail;
    }
  }

  lemma ReadWrittenString(s: string, rest: string)
    ensures ReadString(WriteString(s) + rest) == Some((s, rest))
  {
    ReadWrittenBody(s, rest);
    assert (WriteString(s) + rest)[1..] == Escape(s) + [QUOTE] + rest;
  }

  lemma WrittenStringStart()
    ensures forall s :: |WriteString(s)| > 0 && WriteString(s)[0] == QUOTE
  {
  }

  lemma {:induction false} ReadWrittenItems(items: seq<string>, rest: string)
    ensures ReadItems(WriteItems(items) + rest) == Some((items, rest))
  {
    WrittenStringStart();
    hide WriteString, ReadString;
    var all := WriteItems(items) + rest;
    if items == [] {
      assert all[1..] == rest;
    } else if |items| == 1 {
      ReadWrittenString(items[0], "]" + rest);
      assert all == WriteString(items[0]) + ("]" + rest);
      assert ("]" + rest)[1..] == rest;
      assert items == [items[0]];
    } else {
      var tail := WriteItems(items[1..]) + rest;
      ReadWrittenString(items[0], "," + tail);
      assert all == WriteString(items[0]) + ("," + tail);
      assert ("," + tail)[1..] == tail;
      ReadWrittenItems(items[1..], rest);
      assert [items[0]] + items[1..] == items;
    }
  }

  lemma {:induction false} LeadingDigitsOfNumeral(s: string, rest: string)
    requires forall c :: c in s ==> IsDigit(c)
    requires rest != "" ==> !IsDigit(rest[0])
    ensures LeadingDigits(s + rest) == |s|
  {
    if s == "" {
      assert s + rest == rest;
    } else {
      assert s[0] in s;
      assert (s + rest)[1..] == s[1..] + rest;
      assert forall c :: c in s[1..] ==> c in s;
      LeadingDigitsOfNumeral(s[1..], rest);
    }
  }

  lemma ReadWrittenNumber(n: nat, rest: string)
    requires rest != "" ==> !IsDigit(rest[0])
    ensures ReadValue(Decimal(n) + rest) == Some((JNumber(n), rest))
  {
    var d := Decimal(n);
    var s := d + rest;
    LeadingDigitsOfNumeral(d, rest);
    DecimalValue(n);
    assert d[0] in d && s[0] == d[0];
    assert s[..|d|] == d && s[|d|..] == rest;
    assert "true"[0] == 't' && "false"[0] == 'f';
    assert !("true" <= s) && !("false" <= s);
  }

  lemma ReadWrittenBool(b: bool, rest: string)
    ensures ReadValue(WriteValue(JBool(b)) + rest) == Some((JBool(b), rest))
  {
  }

  lemma ReadWrittenText(text: string, rest: string)
    ensures ReadValue(WriteString(text) + rest) == Some((JString(text), rest))
  {
    ReadWrittenString(text, rest);
    WrittenStringStart();
    hide WriteString, ReadString;
    assert (WriteString(text) + rest)[0] == '\"';
  }

  lemma ReadWrittenList(items: seq<string>, rest: string)
    ensures ReadValue("[" + WriteItems(items) + rest) == Some((JStrings(items), rest))
  {
    hide WriteItems, ReadItems;
    ReadWrittenItems(items, rest);
    assert ("[" + WriteItems(items) + rest)[0] == '[';
    assert ("[" + WriteItems(items) + rest)[1..] == WriteItems(items) + rest;
  }

  lemma ReadWrittenValue(v: Value, rest: string)
    requires rest != "" ==> !IsDigit(rest[0])
    ensures ReadValue(WriteValue(v) + rest) == Some((v, rest))
  {
    hide ReadValue;
    match v
    case JString(text) =>
      ReadWrittenText(text, rest);
    case JStrings(items) =>
      ReadWrittenList(items, rest);
    case JBool(b) =>
      ReadWrittenBool(b, rest);
    case JNumber(n) =>
      ReadWrittenNumber(n, rest);
  }

  /** The name, the colon and the value of a member are read back in turn. */
  lemma ReadWrittenMember(m: Member, tail: string)
    requires tail != "" && !IsDigit(tail[0])
    ensures var name := ReadString(WriteMember(m) + tail);
            && name.Some? && name.value.0 == m.name
            && name.value.1 != "" && name.value.1[0] == ':'
            && ReadValue(name.value.1[1..]) == Some((m.value, tail))
  {
    var value := WriteValue(m.value) + tail;
    assert WriteMember(m) + tail == WriteString(m.name) + (":" + value);
    ReadWrittenString(m.name, ":" + value);
    assert (":" + value)[1..] == value;
    ReadWrittenValue(m.value, tail);
  }

  /** What follows a member's value in the text of an object. */
  function AfterMember(ms: seq<Member>, rest: string): (r: string)
    requires ms != []
    ensures r != "" && !IsDigit(r[0])
  {
    if |ms| == 1 then "}" + rest else "," + (WriteMembers(ms[1..]) + rest)
  }

  lemma {:induction false} ReadWrittenMembers(ms: seq<Member>, rest: string)
    requires ms != []
    ensures ReadMembers(WriteMembers(ms) + rest) == Some((ms, rest))
  {
    hide WriteString, ReadString, WriteValue, ReadValue, WriteMember;
    var tail := AfterMember(ms, rest);
    if |ms| == 1 {
      assert tail[1..] == rest;
      assert ms == [ms[0]];
      assert WriteMembers(ms) + rest == WriteMember(ms[0]) + tail;
    } else {
      var more := WriteMembers(ms[1..]);
      assert tail[1..] == more + rest;
      assert WriteMembers(ms) + rest == WriteMember(ms[0]) + tail;
      ReadWrittenMembers(ms[1..], rest);
      assert [ms[0]] + ms[1..] == ms;
    }
    ReadWrittenMember(ms[0], tail);
  }

  lemma ReadWrittenObject(ms: seq<Member>)
    ensures ReadObject(WriteObject(ms)) == Some(ms)
  {
    if ms != [] {
      var s := WriteObject(ms);
      assert s[1..] == WriteMembers(ms) + "";
      ReadWrittenMembers(ms, "");
      assert WriteMember(ms[0])[0] == '\"';
      assert WriteMembers(ms)[0] == '\"';
      assert s[1] == '\"' && "{}"[1] == '}';
    }
  }
}
