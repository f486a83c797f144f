/** The XML writer and the stack parser, on streams of markup events: start tags, empty
    tags, text and end tags. `XmlText` spells the events as characters and reads them back. */
module Xml {
  import opened Wrappers

  /** An attribute: its name and its value. */
  type Attr = (string, string)

  /** `Other` is an event kind the parser does not list (a comment, a declaration);
      `Malformed` is where the reader reports an error. */
  datatype Event =
    | Start(name: string, attrs: seq<Attr>)
    | Empty(name: string, attrs: seq<Attr>)
    | Text(text: string)
    | End(name: string)
    | Other
    | Malformed

  datatype XmlNode = XmlNode(name: string, attributes: map<string, string>, text: string, children: seq<XmlNode>)

  // ---- Reading --------------------------------------------------------------------

  /** White space as section 2.3 of XML 1.0 lists it. */
  predicate IsSpace(c: char) {
    c == ' ' || c == '\t' || c == '\r' || c == '\n'
  }

  function TrimSpace(s: string): (r: string)
    ensures r != "" ==> !IsSpace(r[0]) && !IsSpace(r[|r| - 1])
    ensures r == s <==> IsTrim(s)
    ensures |r| <= |s|
  {
    if s != "" && IsSpace(s[0]) then TrimSpace(s[1..])
    else if s != "" && IsSpace(s[|s| - 1]) then TrimSpace(s[..|s| - 1])
    else s
  }

  predicate IsTrim(s: string) {
    s != "" ==> !IsSpace(s[0]) && !IsSpace(s[|s| - 1])
  }

  /** What the reader hands to the parser: text comes trimmed, and not at all when nothing is
      left of it. */
  function Tokens(events: seq<Event>): seq<Event> {
    if events == [] then []
    else Tokens(events[..|events| - 1]) + Token(events[|events| - 1])
  }

  function Token(e: Event): (r: seq<Event>)
    ensures |r| <= 1
  {
    if !e.Text? then [e] else if TrimSpace(e.text) == "" then [] else [Text(TrimSpace(e.text))]
  }

  predicate IsTokenStream(tokens: seq<Event>) {
    forall t :: t in tokens && t.Text? ==> IsTrim(t.text)
  }

  datatype ParseError = ReadFailed | NoRoot

  /** The open elements, outermost first, and the finished root. */
  datatype ParserState = ParserState(stack: seq<XmlNode>, root: Option<XmlNode>)

  /** Attributes are inserted in order. The reader reports a repeated name as an error, which
      the parser skips, so the first of a name stays. */
  function Attributes(attrs: seq<Attr>): map<string, string> {
    if attrs == [] then map[]
    else
      var before, (name, value) := Attributes(attrs[..|attrs| - 1]), attrs[|attrs| - 1];
      if name in before then before else before[name := value]
  }

  function AddChild(parent: XmlNode, child: XmlNode): XmlNode {
    parent.(children := parent.children + [child])
  }

  function WithLast(stack: seq<XmlNode>, node: XmlNode): seq<XmlNode>
    requires stack != []
  {
    stack[..|stack| - 1] + [node]
  }

  function Last(stack: seq<XmlNode>): XmlNode
    requires stack != []
  {
    stack[|stack| - 1]
  }

  /** A finished element goes to the innermost open one. With none open it is the root: an
      empty tag only if there is no root yet, a closed element always. */
  function Attach(s: ParserState, node: XmlNode, overwrites: bool): ParserState {
    if s.stack != [] then s.(stack := WithLast(s.stack, AddChild(Last(s.stack), node)))
    else if overwrites || s.root.None? then s.(root := Some(node))
    else s
  }

  /** One event: an end tag with nothing open and text outside the root are ignored. */
  function ParserStep(s: ParserState, e: Event): ParserState {
    match e
    case Start(name, attrs) => s.(stack := s.stack + [XmlNode(name, Attributes(attrs), "", [])])
    case Empty(name, attrs) => Attach(s, XmlNode(name, Attributes(attrs), "", []), false)
    case End(_) =>
      if s.stack == [] then s else Attach(s.(stack := s.stack[..|s.stack| - 1]), Last(s.stack), true)
    case Text(text) =>
      if s.stack != [] then s.(stack := WithLast(s.stack, Last(s.stack).(text := Last(s.stack).text + text))) else s
    case Other => s
    case Malformed => s
  }

  /** The state after all tokens, or the reader's error. */
  function ParserRun(tokens: seq<Event>): Result<ParserState, ParseError> {
    if tokens == [] then Ok(ParserState([], None))
    else
      var before := ParserRun(tokens[..|tokens| - 1]);
      var t := tokens[|tokens| - 1];
      if before.Err? then before
      else if t.Malformed? then Err(ReadFailed)
      else Ok(ParserStep(before.value, t))
  }

  function Parse(tokens: seq<Event>): Result<XmlNode, ParseError> {
    match ParserRun(tokens)
    case Err(e) => Err(e)
    case Ok(s) => if s.root.Some? then Ok(s.root.value) else Err(NoRoot)
  }

  lemma {:induction false} ErrorStays(tokens: seq<Event>, n: nat)
    requires n <= |tokens| && ParserRun(tokens[..n]).Err?
    ensures ParserRun(tokens) == ParserRun(tokens[..n])
    decreases |tokens|
  {
    if n == |tokens| {
      assert tokens[..n] == tokens;
    } else {
      var shorter := tokens[..|tokens| - 1];
      assert shorter[..n] == tokens[..n];
      ErrorStays(shorter, n);
    }
  }

  /** The parser: a loop over the reader's events, a stack of open elements and the root. */
  method ParseXmlDom(tokens: seq<Event>) returns (r: Result<XmlNode, ParseError>)
    ensures r == Parse(tokens)
  {
    var stack: seq<XmlNode> := [];
    var root: Option<XmlNode> := None;
    assert tokens[..|tokens|] == tokens;
    for i := 0 to |tokens|
      invariant ParserRun(tokens[..i]) == Ok(ParserState(stack, root))
    {
      assert tokens[..i + 1][..i] == tokens[..i];
      match tokens[i] {
        case Start(name, attrs) =>
          stack := stack + [XmlNode(name, Attributes(attrs), "", [])];
        case Empty(name, attrs) =>
          var node := XmlNode(name, Attributes(attrs), "", []);
          if stack != [] {
            stack := WithLast(stack, AddChild(Last(stack), node));
          } else if root.None? {
            root := Some(node);
          }
        case End(_) =>
          if stack != [] {
            var completed := Last(stack);
            stack := stack[..|stack| - 1];
            if stack != [] {
              stack := WithLast(stack, AddChild(Last(stack), completed));
            } else {
              root := Some(completed);
            }
          }
        case Text(text) =>
          if stack != [] {
            stack := WithLast(stack, Last(stack).(text := Last(stack).text + text));
          }
        case Malformed =>
          ErrorStays(tokens, i + 1);
          return Err(ReadFailed);
        case Other =>
      }
    }
    return if root.Some? then Ok(root.value) else Err(NoRoot);
  }

  // ---- Well-nested streams --------------------------------------------------------

  /** A piece of a well-nested stream: an element with its content, an empty tag, or text. */
  datatype Markup =
    | Tag(name: string, attrs: seq<Attr>, content: seq<Markup>)
    | Closed(name: string, attrs: seq<Attr>)
    | Chars(text: string)

  /** Where a stream stands: the elements still open, each with what it holds so far. */
  datatype Context =
    | Top(content: seq<Markup>)
    | Inside(outer: Context, name: string, attrs: seq<Attr>, content: seq<Markup>)

  function Add(c: Option<Context>, m: Markup): Option<Context> {
    if c.None? then None else Some(c.value.(content := c.value.content + [m]))
  }

  function Enter(c: Option<Context>, name: string, attrs: seq<Attr>, content: seq<Markup>): Option<Context> {
    if c.None? then None else Some(Inside(c.value, name, attrs, content))
  }

  /** An end tag must match the innermost start tag. Two texts in a row would be read as one,
      so such a stream has no context either. */
  function ContextStep(c: Option<Context>, e: Event): Option<Context> {
    if c.None? then None
    else
      match e
      case Start(name, attrs) => Enter(c, name, attrs, [])
      case Empty(name, attrs) => Add(c, Closed(name, attrs))
      case Text(text) =>
        var content := c.value.content;
        if content != [] && content[|content| - 1].Chars? then None else Add(c, Chars(text))
      case End(name) =>
        if c.value.Inside? && c.value.name == name
        then Add(Some(c.value.outer), Tag(name, c.value.attrs, c.value.content))
        else None
      case Other => c
      case Malformed => None
  }

  /** The context after a stream; none for a stream that is not well nested. */
  function ContextOf(events: seq<Event>): Option<Context> {
    if events == [] then Some(Top([]))
    else ContextStep(ContextOf(events[..|events| - 1]), events[|events| - 1])
  }

  lemma ContextAfter(events: seq<Event>, e: Event)
    ensures ContextOf(events + [e]) == ContextStep(ContextOf(events), e)
  {
  }

  /** The stream is one well-nested element, `m`. */
  predicate IsDocument(events: seq<Event>, m: Markup) {
    !m.Chars? && ContextOf(events) == Some(Top([m]))
  }

  /** The stream of a piece of markup. */
  function Print(m: Markup): seq<Event> {
    match m
    case Tag(name, attrs, content) => [Start(name, attrs)] + PrintAll(content) + [End(name)]
    case Closed(name, attrs) => [Empty(name, attrs)]
    case Chars(text) => [Text(text)]
  }

  function PrintAll(content: seq<Markup>): seq<Event> {
    if content == [] then [] else PrintAll(content[..|content| - 1]) + Print(content[|content| - 1])
  }

  function Written(c: Context): seq<Event> {
    match c
    case Top(content) => PrintAll(content)
    case Inside(outer, name, attrs, content) => Written(outer) + [Start(name, attrs)] + PrintAll(content)
  }

  lemma AddWrites(c: Context, m: Markup)
    ensures Written(Add(Some(c), m).value) == Written(c) + Print(m)
  {
  }

  /** A stream with a context is the printing of that context and of no other. */
  lemma {:induction false} ContextWrites(events: seq<Event>)
    requires ContextOf(events).Some? && Other !in events
    ensures events == Written(ContextOf(events).value)
  {
    if events != [] {
      var shorter, e := events[..|events| - 1], events[|events| - 1];
      ContextWrites(shorter);
      var c := ContextOf(shorter).value;
      assert events == shorter + [e];
      match e
      case Start(_, _) =>
      case Empty(name, attrs) => AddWrites(c, Closed(name, attrs));
      case Text(text) => AddWrites(c, Chars(text));
      case End(name) =>
        var m := Tag(name, c.attrs, c.content);
        AddWrites(c.outer, m);
        assert Written(c) + [e] == Written(c.outer) + Print(m);
    }
  }

  // ---- What a well-nested stream parses to ----------------------------------------

  function TextOf(content: seq<Markup>): string {
    if content == [] then ""
    else
      var last := content[|content| - 1];
      TextOf(content[..|content| - 1]) + if last.Chars? then TrimSpace(last.text) else ""
  }

  function NodeOf(m: Markup): XmlNode
    requires !m.Chars?
  {
    if m.Tag? then XmlNode(m.name, Attributes(m.attrs), TextOf(m.content), NodesOf(m.content))
    else XmlNode(m.name, Attributes(m.attrs), "", [])
  }

  function NodesOf(content: seq<Markup>): seq<XmlNode> {
    if content == [] then []
    else
      var last := content[|content| - 1];
      NodesOf(content[..|content| - 1]) + if last.Chars? then [] else [NodeOf(last)]
  }

  function RootOf(content: seq<Markup>): Option<XmlNode> {
    if content == [] then None
    else
      var last := content[|content| - 1];
      var before := RootOf(content[..|content| - 1]);
      if last.Tag? || (last.Closed? && before.None?) then Some(NodeOf(last)) else before
  }

  /** The parser's state in a context. */
  function StateOf(c: Context): ParserState {
    match c
    case Top(content) => ParserState([], RootOf(content))
    case Inside(outer, name, attrs, content) =>
      var s := StateOf(outer);
      s.(stack := s.stack + [XmlNode(name, Attributes(attrs), TextOf(content), NodesOf(content))])
  }

  lemma ContentAfter(content: seq<Markup>, m: Markup)
    ensures TextOf(content + [m]) == TextOf(content) + if m.Chars? then TrimSpace(m.text) else ""
    ensures NodesOf(content + [m]) == NodesOf(content) + if m.Chars? then [] else [NodeOf(m)]
    ensures RootOf(content + [m]) ==
            if m.Tag? || (m.Closed? && RootOf(content).None?) then Some(NodeOf(m)) else RootOf(content)
  {
  }

  /** A new piece of content reaches the parser's state as a finished element does. */
  lemma AddSimulates(c: Context, m: Markup)
    requires !m.Chars?
    ensures StateOf(Add(Some(c), m).value) == Attach(StateOf(c), NodeOf(m), m.Tag?)
  {
    ContentAfter(c.content, m);
    hide TextOf, NodesOf, RootOf, NodeOf;
    if c.Inside? {
      var node := XmlNode(c.name, Attributes(c.attrs), TextOf(c.content), NodesOf(c.content));
      var outer := StateOf(c.outer).stack;
      assert (outer + [node])[..|outer|] == outer;
      assert TextOf(c.content) + "" == TextOf(c.content);
    }
  }

  lemma EndSimulates(c: Context)
    requires c.Inside?
    ensures var m := Tag(c.name, c.attrs, c.content);
            ParserStep(StateOf(c), End(c.name)) == Attach(StateOf(c.outer), NodeOf(m), true)
  {
  }

  lemma TextSimulates(c: Context, text: string)
    ensures StateOf(Add(Some(c), Chars(text)).value) ==
            if TrimSpace(text) == "" then StateOf(c) else ParserStep(StateOf(c), Text(TrimSpace(text)))
  {
    ContentAfter(c.content, Chars(text));
    hide TextOf, NodesOf, RootOf, TrimSpace;
    assert TextOf(c.content) + "" == TextOf(c.content);
    assert NodesOf(c.content) + [] == NodesOf(c.content);
    if c.Inside? {
      var outer := StateOf(c.outer).stack;
      assert StateOf(c).stack[..|outer|] == outer;
    }
  }

  /** One event moves the parser's state as it moves the context. */
  lemma StepSimulates(c: Context, e: Event)
    requires ContextStep(Some(c), e).Some?
    ensures var after := StateOf(ContextStep(Some(c), e).value);
            after == if Token(e) == [] then StateOf(c) else ParserStep(StateOf(c), Token(e)[0])
    ensures Token(e) != [] ==> !Token(e)[0].Malformed?
  {
    hide ParserStep, Attach, TrimSpace;
    match e
    case Start(_, _) => StartSimulates(c, e);
    case Empty(name, attrs) =>
      AddSimulates(c, Closed(name, attrs));
      EmptySteps(StateOf(c), name, attrs);
    case End(name) =>
      AddSimulates(c.outer, Tag(name, c.attrs, c.content));
      EndSimulates(c);
    case Text(text) => TextSimulates(c, text);
    case Other => OtherSteps(StateOf(c));
  }

  lemma StartSimulates(c: Context, e: Event)
    requires e.Start?
    ensures StateOf(Inside(c, e.name, e.attrs, [])) == ParserStep(StateOf(c), e)
  {
  }

  lemma EmptySteps(s: ParserState, name: string, attrs: seq<Attr>)
    ensures ParserStep(s, Empty(name, attrs)) == Attach(s, NodeOf(Closed(name, attrs)), false)
  {
  }

  lemma OtherSteps(s: ParserState)
    ensures ParserStep(s, Other) == s
  {
  }

  /** The stack parser keeps, for every well-nested stream, exactly the open elements with
      what they hold so far. */
  lemma {:induction false} ParserTracksContext(events: seq<Event>)
    requires ContextOf(events).Some?
    ensures ParserRun(Tokens(events)) == Ok(StateOf(ContextOf(events).value))
  {
    if events != [] {
      var shorter, e := events[..|events| - 1], events[|events| - 1];
      ParserTracksContext(shorter);
      var c := ContextOf(shorter).value;
      StepSimulates(c, e);
      hide StateOf, ParserStep, ContextStep, Token;
      ParserAfter(Tokens(shorter), Token(e));
    }
  }

  /** A token more, if the event gives one. */
  lemma ParserAfter(before: seq<Event>, token: seq<Event>)
    requires |token| <= 1 && ParserRun(before).Ok?
    requires token != [] ==> !token[0].Malformed?
    ensures ParserRun(before + token) ==
            Ok(if token == [] then ParserRun(before).value else ParserStep(ParserRun(before).value, token[0]))
  {
    if token == [] {
      assert before + token == before;
    } else {
      assert (before + token)[..|before|] == before;
    }
  }

  /** A well-nested document parses to its own tree. */
  lemma ParsedDocument(events: seq<Event>, m: Markup)
    requires IsDocument(events, m)
    ensures Parse(Tokens(events)) == Ok(NodeOf(m))
  {
    ParserTracksContext(events);
    ContentAfter([], m);
    assert [] + [m] == [m];
  }

  // ---- Searching ------------------------------------------------------------------

  /** First element of a name, the node itself before its children, in document order. */
  function Find(node: XmlNode, name: string): (r: Option<XmlNode>)
    ensures r.Some? ==> r.value.name == name
  {
    if node.name == name then Some(node) else FindIn(node.children, name)
  }

  function FindIn(nodes: seq<XmlNode>, name: string): (r: Option<XmlNode>)
    ensures r.Some? ==> r.value.name == name
  {
    if nodes == [] then None
    else
      var found := Find(nodes[0], name);
      if found.Some? then found else FindIn(nodes[1..], name)
  }

  /** The namespaced name is preferred, wherever in the document it is. */
  function FindWithNamespace(node: XmlNode, name: string): Option<XmlNode> {
    var found := Find(node, "bootc:" + name);
    if found.Some? then found else Find(node, name)
  }

  lemma {:induction false} FindInAppend(a: seq<XmlNode>, b: seq<XmlNode>, name: string)
    ensures FindIn(a + b, name) == if FindIn(a, name).Some? then FindIn(a, name) else FindIn(b, name)
  {
    if a == [] {
      assert a + b == b;
    } else {
      assert (a + b)[1..] == a[1..] + b;
      FindInAppend(a[1..], b, name);
    }
  }

  /** All elements in document order. */
  function PreOrder(node: XmlNode): seq<XmlNode> {
    [node] + PreOrderAll(node.children)
  }

  function PreOrderAll(nodes: seq<XmlNode>): seq<XmlNode> {
    if nodes == [] then [] else PreOrder(nodes[0]) + PreOrderAll(nodes[1..])
  }

  ghost predicate IsFirstNamed(nodes: seq<XmlNode>, name: string, r: Option<XmlNode>) {
    if r.None? then forall n :: n in nodes ==> n.name != name
    else exists i :: 0 <= i < |nodes| && nodes[i] == r.value && nodes[i].name == name
                     && forall j :: 0 <= j < i ==> nodes[j].name != name
  }

  /** The recursive search finds the first element of the name in document order, and
      nothing only when there is none. */
  lemma {:induction false} FindIsFirst(node: XmlNode, name: string)
    ensures IsFirstNamed(PreOrder(node), name, Find(node, name))
  {
    if node.name == name {
      assert PreOrder(node)[0] == node;
    } else {
      FindInIsFirst(node.children, name);
      FirstInAppend([node], PreOrderAll(node.children), name, None, FindIn(node.children, name));
    }
  }

  lemma {:induction false} FindInIsFirst(nodes: seq<XmlNode>, name: string)
    ensures IsFirstNamed(PreOrderAll(nodes), name, FindIn(nodes, name))
  {
    if nodes != [] {
      FindIsFirst(nodes[0], name);
      FindInIsFirst(nodes[1..], name);
      FirstInAppend(PreOrder(nodes[0]), PreOrderAll(nodes[1..]), name, Find(nodes[0], name), FindIn(nodes[1..], name));
    }
  }

  lemma FirstInAppend(a: seq<XmlNode>, b: seq<XmlNode>, name: string, inA: Option<XmlNode>, inB: Option<XmlNode>)
    requires IsFirstNamed(a, name, inA) && IsFirstNamed(b, name, inB)
    ensures IsFirstNamed(a + b, name, if inA.Some? then inA else inB)
  {
    if inA.Some? {
      var i :| 0 <= i < |a| && a[i] == inA.value && a[i].name == name && forall j :: 0 <= j < i ==> a[j].name != name;
      assert (a + b)[i] == inA.value;
    } else if inB.Some? {
      var i :| 0 <= i < |b| && b[i] == inB.value && b[i].name == name && forall j :: 0 <= j < i ==> b[j].name != name;
      assert (a + b)[|a| + i] == inB.value;
      forall j | 0 <= j < |a| + i
        ensures (a + b)[j].name != name
      {
        if j < |a| {
          assert a[j] in a;
        } else {
          assert (a + b)[j] == b[j - |a|];
        }
      }
    }
  }

  // ---- Writing --------------------------------------------------------------------

  /** A text element as the writer makes it: empty text writes no text event. */
  function TextTag(name: string, text: string, attrs: seq<Attr>): Markup {
    Tag(name, attrs, if text == "" then [] else [Chars(text)])
  }

  lemma {:induction false} NodesAppend(a: seq<Markup>, b: seq<Markup>)
    ensures NodesOf(a + b) == NodesOf(a) + NodesOf(b)
  {
    if b == [] {
      assert a + b == a;
    } else {
      assert (a + b)[..|a + b| - 1] == a + b[..|b| - 1];
      NodesAppend(a, b[..|b| - 1]);
    }
  }

  lemma TextTagNode(name: string, text: string, attrs: seq<Attr>)
    ensures NodeOf(TextTag(name, text, attrs)) == XmlNode(name, Attributes(attrs), TrimSpace(text), [])
  {
    if text != "" {
      var content := [Chars(text)];
      assert content[..0] == [];
      assert TextOf(content) == "" + TrimSpace(text);
      assert NodesOf(content) == [];
    }
  }

  lemma AttributesOne(name: string, value: string)
    ensures Attributes([(name, value)]) == map[name := value]
  {
  }

  lemma NodesOne(m: Markup)
    requires !m.Chars?
    ensures NodesOf([m]) == [NodeOf(m)]
  {
  }

  class XmlWriter {
    var events: seq<Event>

    constructor ()
      ensures events == [] && Tree() == Some(Top([]))
    {
      events := [];
    }

    /** Where the document written so far stands. */
    function Tree(): Option<Context>
      reads this
    {
      ContextOf(events)
    }

    method StartElement(name: string, attrs: seq<Attr>)
      modifies this
      ensures events == old(events) + [Start(name, attrs)]
      ensures Tree() == Enter(old(Tree()), name, attrs, [])
    {
      ContextAfter(events, Start(name, attrs));
      events := events + [Start(name, attrs)];
    }

    method WriteText(text: string)
      modifies this
      ensures events == old(events) + if text == "" then [] else [Text(text)]
      ensures Tree() == if text == "" then old(Tree()) else ContextStep(old(Tree()), Text(text))
    {
      if text != "" {
        ContextAfter(events, Text(text));
        events := events + [Text(text)];
      }
    }

    method EndElement(name: string)
      modifies this
      ensures events == old(events) + [End(name)]
      ensures Tree() == ContextStep(old(Tree()), End(name))
    {
      ContextAfter(events, End(name));
      events := events + [End(name)];
    }

    method WriteEmptyElement(name: string, attrs: seq<Attr>)
      modifies this
      ensures events == old(events) + [Empty(name, attrs)]
      ensures Tree() == Add(old(Tree()), Closed(name, attrs))
    {
      ContextAfter(events, Empty(name, attrs));
      events := events + [Empty(name, attrs)];
    }

    method WriteTextElementWithAttrs(name: string, text: string, attrs: seq<Attr>)
      modifies this
      ensures Tree() == Add(old(Tree()), TextTag(name, text, attrs))
    {
      StartElement(name, attrs);
      WriteText(text);
      assert [] + [Chars(text)] == [Chars(text)];
      EndElement(name);
    }

    method WriteTextElement(name: string, text: string)
      modifies this
      ensures Tree() == Add(old(Tree()), TextTag(name, text, []))
    {
      WriteTextElementWithAttrs(name, text, []);
    }
  }
}
