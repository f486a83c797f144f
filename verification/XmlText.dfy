/** The characters of a markup stream, for names, values and texts that need no escaping:
    start, end and empty tags as section 3.1 of XML 1.0 (Fifth Edition) spells them. */
module XmlText {
  import opened Wrappers
  import opened Xml

  // ---- Spelling -------------------------------------------------------------------

  /** The attributes, followed by `rest`. */
  function SpellAttrs(attrs: seq<Attr>, rest: string): string {
    if attrs == [] then rest
    else " " + (attrs[0].0 + ("=\"" + (attrs[0].1 + ("\"" + SpellAttrs(attrs[1..], rest)))))
  }

  /** The event, followed by `rest`. */
  function Spell(e: Event, rest: string): string {
    match e
    case Start(name, attrs) => "<" + (name + SpellAttrs(attrs, ">" + rest))
    case Empty(name, attrs) => "<" + (name + SpellAttrs(attrs, "/>" + rest))
    case End(name) => "</" + (name + (">" + rest))
    case Text(text) => text + rest
    case Other => rest
    case Malformed => rest
  }

  function SpellAll(events: seq<Event>): string {
    if events == [] then "" else Spell(events[0], SpellAll(events[1..]))
  }

  // ---- What needs no escaping -----------------------------------------------------

  predicate IsNameChar(c: char) {
    c !in {'<', '>', '/', '=', '"', '\'', '&'} && !IsSpace(c)
  }

  predicate IsName(s: string) {
    s != "" && forall c :: c in s ==> IsNameChar(c)
  }

  predicate IsPlain(s: string) {
    forall c :: c in s ==> c !in {'<', '>', '"', '\'', '&'}
  }

  predicate PlainAttrs(attrs: seq<Attr>) {
    forall a :: a in attrs ==> IsName(a.0) && IsPlain(a.1)
  }

  predicate PlainEvent(e: Event) {
    match e
    case Start(name, attrs) => IsName(name) && PlainAttrs(attrs)
    case Empty(name, attrs) => IsName(name) && PlainAttrs(attrs)
    case End(name) => IsName(name)
    case Text(text) => text != "" && IsPlain(text)
    case Other => false
    case Malformed => false
  }

  /** Every event is plain and no text follows another. */
  predicate PlainStream(events: seq<Event>) {
    && (forall e :: e in events ==> PlainEvent(e))
    && (forall i :: 0 <= i < |events| - 1 ==> !(events[i].Text? && events[i + 1].Text?))
  }

  // ---- Reading --------------------------------------------------------------------

  /** The longest run of name characters, and the rest. */
  function ReadName(s: string): (r: (string, string))
    ensures |r.1| <= |s| && |r.0| + |r.1| == |s|
  {
    if s != "" && IsNameChar(s[0]) then
      var (name, rest) := ReadName(s[1..]);
      ([s[0]] + name, rest)
    else ("", s)
  }

  /** Everything before the first `stop`, and the rest from there on. */
  function ReadUntil(s: string, stop: char): (r: (string, string))
    ensures |r.0| + |r.1| == |s| && (r.1 != "" ==> r.1[0] == stop)
  {
    if s == "" || s[0] == stop then ("", s)
    else
      var (before, rest) := ReadUntil(s[1..], stop);
      ([s[0]] + before, rest)
  }

  function SkipSpace(s: string): (r: string)
    ensures |r| <= |s|
  {
    if s != "" && IsSpace(s[0]) then SkipSpace(s[1..]) else s
  }

  /** The attributes of a tag, up to its closing bracket or slash. */
  function ReadAttrs(s: string): (r: Option<(seq<Attr>, string)>)
    ensures r.Some? ==> |r.value.1| <= |s|
    decreases |s|
  {
    var start := SkipSpace(s);
    if start == "" then None
    else if start[0] == '>' || start[0] == '/' then Some(([], start))
    else
      var (name, rest) := ReadName(start);
      if name == "" || !("=\"" <= rest) then None
      else
        var (value, after) := ReadUntil(rest[2..], '"');
        if after == "" then None
        else
          var others := ReadAttrs(after[1..]);
          if others.None? then None else Some(([(name, value)] + others.value.0, others.value.1))
  }

  /** One tag from its opening bracket on. */
  function ReadTag(s: string): (r: Option<(Event, string)>)
    requires s != "" && s[0] == '<'
    ensures r.Some? ==> |r.value.1| < |s|
  {
    if "</" <= s then
      var (name, rest) := ReadName(s[2..]);
      if name != "" && ">" <= rest then Some((End(name), rest[1..])) else None
    else
      var (name, rest) := ReadName(s[1..]);
      var attrs := ReadAttrs(rest);
      if name == "" || attrs.None? then None
      else if ">" <= attrs.value.1 then Some((Start(name, attrs.value.0), attrs.value.1[1..]))
      else if "/>" <= attrs.value.1 then Some((Empty(name, attrs.value.0), attrs.value.1[2..]))
      else None
  }

  /** The reader: text is trimmed, and dropped when nothing is left of it. */
  function Read(s: string): Option<seq<Event>>
    decreases |s|
  {
    if s == "" then Some([])
    else if s[0] == '<' then
      var tag := ReadTag(s);
      if tag.None? then None
      else
        var rest := Read(tag.value.1);
        if rest.None? then None else Some([tag.value.0] + rest.value)
    else
      var (text, after) := ReadUntil(s, '<');
      var rest := Read(after);
      if rest.None? then None else Some(Token(Text(text)) + rest.value)
  }

  // ---- Reading what was spelled ---------------------------------------------------

  lemma {:induction false} ReadNameOf(name: string, rest: string)
    requires forall c :: c in name ==> IsNameChar(c)
    requires rest != "" ==> !IsNameChar(rest[0])
    ensures ReadName(name + rest) == (name, rest)
  {
    if name == "" {
      assert name + rest == rest;
    } else {
      assert (name + rest)[1..] == name[1..] + rest;
      ReadNameOf(name[1..], rest);
      assert name == [name[0]] + name[1..];
    }
  }

  lemma {:induction false} ReadUntilOf(before: string, rest: string, stop: char)
    requires stop !in before && (rest != "" ==> rest[0] == stop)
    ensures ReadUntil(before + rest, stop) == (before, rest)
  {
    if before == "" {
      assert before + rest == rest;
    } else {
      assert (before + rest)[1..] == before[1..] + rest;
      ReadUntilOf(before[1..], rest, stop);
      assert before == [before[0]] + before[1..];
    }
  }

  lemma DropFront(a: string, b: string)
    ensures (a + b)[|a|..] == b && a <= a + b
  {
  }

  /** One attribute, as it is spelled, in front of whatever follows it. */
  lemma ReadAttr(name: string, value: string, rest: string)
    requires IsName(name) && IsPlain(value)
    ensures ReadAttrs(" " + (name + ("=\"" + (value + ("\"" + rest))))) ==
            if ReadAttrs(rest).None? then None
            else Some(([(name, value)] + ReadAttrs(rest).value.0, ReadAttrs(rest).value.1))
  {
    var quoted := value + ("\"" + rest);
    var start := name + ("=\"" + quoted);
    assert name[0] in name && start[0] == name[0];
    SkipOne(" " + start);
    DropFront(" ", start);
    ReadNameOf(name, "=\"" + quoted);
    DropFront("=\"", quoted);
    assert '"' !in value;
    ReadUntilOf(value, "\"" + rest, '"');
    DropFront("\"", rest);
    hide ReadName, ReadUntil, SkipSpace;
  }

  lemma SkipOne(s: string)
    requires |s| >= 2 && s[0] == ' ' && IsNameChar(s[1])
    ensures SkipSpace(s) == s[1..]
  {
  }

  lemma {:induction false} ReadAttrsOf(attrs: seq<Attr>, rest: string)
    requires PlainAttrs(attrs) && rest != "" && (rest[0] == '>' || rest[0] == '/')
    ensures ReadAttrs(SpellAttrs(attrs, rest)) == Some((attrs, rest))
    ensures SpellAttrs(attrs, rest) != "" && !IsNameChar(SpellAttrs(attrs, rest)[0])
  {
    if attrs != [] {
      assert attrs[0] in attrs;
      ReadAttrsOf(attrs[1..], rest);
      ReadAttr(attrs[0].0, attrs[0].1, SpellAttrs(attrs[1..], rest));
      hide ReadAttrs;
      assert attrs == [attrs[0]] + attrs[1..];
    }
  }

  lemma ReadOpenTag(name: string, attrs: seq<Attr>, close: string)
    requires IsName(name) && PlainAttrs(attrs) && close != "" && (close[0] == '>' || close[0] == '/')
    ensures var s := "<" + (name + SpellAttrs(attrs, close));
            && s[0] == '<' && !("</" <= s) && ReadName(s[1..]) == (name, SpellAttrs(attrs, close))
            && ReadAttrs(SpellAttrs(attrs, close)) == Some((attrs, close))
  {
    ReadAttrsOf(attrs, close);
    hide SpellAttrs, ReadAttrs;
    var tail := SpellAttrs(attrs, close);
    DropFront("<", name + tail);
    assert name[0] in name && ("<" + (name + tail))[1] == name[0];
    ReadNameOf(name, tail);
    hide ReadName;
  }

  lemma ReadSpelledTag(e: Event, rest: string)
    requires PlainEvent(e) && !e.Text?
    ensures var s := Spell(e, rest);
            s != "" && s[0] == '<' && ReadTag(s) == Some((e, rest))
  {
    hide ReadName, ReadAttrs, SpellAttrs;
    match e
    case Start(name, attrs) =>
      ReadOpenTag(name, attrs, ">" + rest);
      DropFront(">", rest);
    case Empty(name, attrs) =>
      ReadOpenTag(name, attrs, "/>" + rest);
      DropFront("/>", rest);
    case End(name) =>
      DropFront("</", name + (">" + rest));
      ReadNameOf(name, ">" + rest);
      DropFront(">", rest);
  }

  lemma {:induction false} TokensFront(events: seq<Event>)
    requires events != []
    ensures Tokens(events) == Token(events[0]) + Tokens(events[1..])
  {
    if |events| > 1 {
      var n := |events| - 1;
      TokensFront(events[..n]);
      assert events[..n][1..] == events[1..][..n - 1];
    } else {
      assert events[..0] == [] && events[1..] == [];
    }
  }

  /** What was spelled is read back as the tokens of the stream. */
  lemma {:induction false} ReadSpelled(events: seq<Event>)
    requires PlainStream(events)
    ensures Read(SpellAll(events)) == Some(Tokens(events))
  {
    if events != [] {
      var e, others := events[0], events[1..];
      assert e in events;
      assert forall i :: 0 <= i < |others| ==> others[i] == events[i + 1];
      ReadSpelled(others);
      TokensFront(events);
      var rest := SpellAll(others);
      if e.Text? {
        StartsWithTag(others);
        ReadUntilOf(e.text, rest, '<');
        assert e.text[0] in e.text;
        hide ReadTag, ReadUntil, TrimSpace;
      } else {
        ReadSpelledTag(e, rest);
        hide ReadTag;
      }
    }
  }

  lemma StartsWithTag(events: seq<Event>)
    requires PlainStream(events) && (events != [] ==> !events[0].Text?)
    ensures SpellAll(events) != "" ==> SpellAll(events)[0] == '<'
  {
    if events != [] {
      assert events[0] in events;
      ReadSpelledTag(events[0], SpellAll(events[1..]));
    }
  }

  // ---- Documents ------------------------------------------------------------------

  /** A well-nested stream has no text next to another. */
  lemma {:induction false} NestedTexts(events: seq<Event>)
    requires ContextOf(events).Some? && Other !in events
    ensures forall i :: 0 <= i < |events| - 1 ==> !(events[i].Text? && events[i + 1].Text?)
    ensures events != [] && events[|events| - 1].Text? ==>
              var c := ContextOf(events).value.content;
              c != [] && c[|c| - 1].Chars?
  {
    if events != [] {
      var n := |events| - 1;
      assert forall e :: e in events[..n] ==> e in events;
      NestedTexts(events[..n]);
      assert forall i :: 0 <= i < n ==> events[..n][i] == events[i];
    }
  }

  /** Parsing the characters of a well-nested document gives the document's tree. */
  lemma ParsedCharacters(events: seq<Event>, m: Markup)
    requires IsDocument(events, m) && forall e :: e in events ==> PlainEvent(e)
    ensures Read(SpellAll(events)).Some?
    ensures Parse(Read(SpellAll(events)).value) == Ok(NodeOf(m))
  {
    assert Other !in events;
    NestedTexts(events);
    ReadSpelled(events);
    ParsedDocument(events, m);
  }
}
