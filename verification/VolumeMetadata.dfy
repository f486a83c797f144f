/** Writing a parsed tree back, and the rewriting of a storage volume's description that
    adds the image's metadata to it. */
module VolumeMetadata {
  import opened Wrappers
  import opened Xml

  // ---- Writing a tree back --------------------------------------------------------

  /** `attrs` holds every attribute once, in some order. */
  predicate Lists(attrs: seq<Attr>, attributes: map<string, string>) {
    |attrs| == |attributes| && Attributes(attrs) == attributes
  }

  function TextPart(text: string): (r: seq<Markup>)
    ensures |r| <= 1 && forall m :: m in r ==> m.Chars?
  {
    if text == "" then [] else [Chars(text)]
  }

  /** `m` is the node written with each element's attributes in any order. */
  predicate Renders(node: XmlNode, m: Markup)
    decreases node
  {
    && !m.Chars? && m.name == node.name && Lists(m.attrs, node.attributes)
    && if node.children == [] && node.text == "" then m.Closed?
       else
         var t := |TextPart(node.text)|;
         && m.Tag? && |m.content| == t + |node.children| && m.content[..t] == TextPart(node.text)
         && forall j :: t <= j < |m.content| ==> Renders(node.children[j - t], m.content[j])
  }

  /** The node with all its texts trimmed. */
  function TrimAll(node: XmlNode): XmlNode {
    XmlNode(node.name, node.attributes, TrimSpace(node.text), TrimEach(node.children))
  }

  function TrimEach(nodes: seq<XmlNode>): (r: seq<XmlNode>)
    ensures |r| == |nodes| && forall i :: 0 <= i < |nodes| ==> r[i] == TrimAll(nodes[i])
  {
    if nodes == [] then [] else [TrimAll(nodes[0])] + TrimEach(nodes[1..])
  }

  predicate IsTrimmed(node: XmlNode) {
    IsTrim(node.text) && forall c :: c in node.children ==> IsTrimmed(c)
  }

  lemma {:induction false} TrimAllKeeps(node: XmlNode)
    ensures TrimAll(node) == node <==> IsTrimmed(node)
  {
    forall i | 0 <= i < |node.children|
      ensures TrimEach(node.children)[i] == node.children[i] <==> IsTrimmed(node.children[i])
    {
      TrimAllKeeps(node.children[i]);
    }
    assert TrimEach(node.children) == node.children <==>
           forall i :: 0 <= i < |node.children| ==> TrimEach(node.children)[i] == node.children[i];
    assert (forall c :: c in node.children ==> IsTrimmed(c)) <==>
           forall i :: 0 <= i < |node.children| ==> IsTrimmed(node.children[i]);
  }

  /** Content that is at most one text and then elements. */
  lemma {:induction false} ContentNodes(content: seq<Markup>, t: nat)
    requires t <= |content| && t <= 1
    requires forall j :: 0 <= j < |content| ==> (content[j].Chars? <==> j < t)
    ensures |NodesOf(content)| == |content| - t
    ensures forall j :: t <= j < |content| ==> NodesOf(content)[j - t] == NodeOf(content[j])
    ensures TextOf(content) == if t == 1 then TrimSpace(content[0].text) else ""
    decreases |content|
  {
    hide NodeOf, TrimSpace;
    if |content| > t {
      var shorter := content[..|content| - 1];
      ContentNodes(shorter, t);
      assert TextOf(content) == TextOf(shorter);
      assert NodesOf(content) == NodesOf(shorter) + [NodeOf(content[|content| - 1])];
      forall j | t <= j < |content|
        ensures NodesOf(content)[j - t] == NodeOf(content[j])
      {
        if j < |shorter| {
          assert NodesOf(shorter)[j - t] == NodeOf(shorter[j]);
        }
      }
    } else if t == 1 {
      assert content[..0] == [];
      assert TextOf(content) == "" + TrimSpace(content[0].text);
    }
  }

  lemma {:induction false} RenderedNode(node: XmlNode, m: Markup)
    requires Renders(node, m)
    ensures NodeOf(m) == TrimAll(node)
    decreases node
  {
    if m.Tag? {
      var t := |TextPart(node.text)|;
      forall j | t <= j < |m.content|
        ensures !m.content[j].Chars? && NodeOf(m.content[j]) == TrimAll(node.children[j - t])
      {
        RenderedNode(node.children[j - t], m.content[j]);
      }
      assert forall j :: 0 <= j < t ==> m.content[j] == m.content[..t][j];
      RenderedContent(node, m.content, t);
    } else {
      assert TrimEach(node.children) == [];
    }
  }

  lemma RenderedContent(node: XmlNode, content: seq<Markup>, t: nat)
    requires t == |TextPart(node.text)| && |content| == t + |node.children|
    requires forall j :: 0 <= j < t ==> content[j] == TextPart(node.text)[j]
    requires forall j :: t <= j < |content| ==>
               !content[j].Chars? && NodeOf(content[j]) == TrimAll(node.children[j - t])
    ensures TextOf(content) == TrimSpace(node.text) && NodesOf(content) == TrimEach(node.children)
  {
    hide NodeOf, NodesOf, TextOf, TrimAll, TrimEach, TrimSpace;
    assert forall j :: 0 <= j < t ==> content[j].Chars?;
    ContentNodes(content, t);
    forall i | 0 <= i < |node.children|
      ensures NodesOf(content)[i] == TrimEach(node.children)[i]
    {
      assert NodesOf(content)[t + i - t] == NodeOf(content[t + i]);
    }
  }

  /** Writing a tree and parsing what was written gives the tree back with its texts trimmed,
      under every attribute order: the same tree exactly when they were trimmed already. */
  lemma WriteThenParse(node: XmlNode, events: seq<Event>, m: Markup)
    requires IsDocument(events, m) && Renders(node, m)
    ensures Parse(Tokens(events)) == Ok(TrimAll(node))
    ensures Parse(Tokens(events)) == Ok(node) <==> IsTrimmed(node)
  {
    ParsedDocument(events, m);
    RenderedNode(node, m);
    TrimAllKeeps(node);
  }

  // ---- Parse, write, parse --------------------------------------------------------

  predicate StateTrimmed(s: ParserState) {
    (forall n :: n in s.stack ==> IsTrimmed(n)) && (s.root.Some? ==> IsTrimmed(s.root.value))
  }

  lemma TrimJoins(a: string, b: string)
    requires IsTrim(a) && IsTrim(b)
    ensures IsTrim(a + b)
  {
  }

  lemma AttachKeepsTrimmed(s: ParserState, node: XmlNode, overwrites: bool)
    requires StateTrimmed(s) && IsTrimmed(node)
    ensures StateTrimmed(Attach(s, node, overwrites))
  {
    if s.stack != [] {
      var last := Last(s.stack);
      assert last in s.stack;
      assert IsTrimmed(AddChild(last, node));
    }
  }

  lemma StepKeepsTrimmed(s: ParserState, t: Event)
    requires StateTrimmed(s) && (t.Text? ==> IsTrim(t.text))
    ensures StateTrimmed(ParserStep(s, t))
  {
    if s.stack != [] {
      assert Last(s.stack) in s.stack;
    }
    match t
    case Empty(name, attrs) => AttachKeepsTrimmed(s, XmlNode(name, Attributes(attrs), "", []), false);
    case End(_) =>
      if s.stack != [] {
        AttachKeepsTrimmed(s.(stack := s.stack[..|s.stack| - 1]), Last(s.stack), true);
      }
    case Text(text) =>
      if s.stack != [] {
        TrimJoins(Last(s.stack).text, text);
        assert IsTrimmed(Last(s.stack).(text := Last(s.stack).text + text));
      }
    case _ =>
  }

  /** Text split over several places is trimmed where it is joined, too. */
  lemma {:induction false} RunKeepsTrimmed(tokens: seq<Event>)
    requires IsTokenStream(tokens) && ParserRun(tokens).Ok?
    ensures StateTrimmed(ParserRun(tokens).value)
  {
    if tokens != [] {
      RunKeepsTrimmed(tokens[..|tokens| - 1]);
      StepKeepsTrimmed(ParserRun(tokens[..|tokens| - 1]).value, tokens[|tokens| - 1]);
    }
  }

  /** Parsing, writing and parsing again is parsing once, for every token stream that parses
      at all: mixed text, several roots and stray tags included. */
  lemma ParseWriteParse(tokens: seq<Event>, events: seq<Event>, m: Markup)
    requires IsTokenStream(tokens) && Parse(tokens).Ok?
    requires IsDocument(events, m) && Renders(Parse(tokens).value, m)
    ensures Parse(Tokens(events)) == Parse(tokens)
  {
    RunKeepsTrimmed(tokens);
    WriteThenParse(Parse(tokens).value, events, m);
  }

  // ---- The writing loop -----------------------------------------------------------

  /** The attributes in the order the map yields them, which is any order. */
  method ListAttributes(attributes: map<string, string>) returns (attrs: seq<Attr>)
    ensures Lists(attrs, attributes)
  {
    attrs := [];
    var rest := attributes.Keys;
    while rest != {}
      invariant rest <= attributes.Keys && |attrs| + |rest| == |attributes.Keys|
      invariant Attributes(attrs) == map k | k in attributes.Keys - rest :: attributes[k]
      decreases rest
    {
      var key :| key in rest;
      assert (attrs + [(key, attributes[key])])[..|attrs|] == attrs;
      attrs := attrs + [(key, attributes[key])];
      rest := rest - {key};
    }
  }

  method WriteXmlNode(writer: XmlWriter, node: XmlNode) returns (ghost m: Markup)
    modifies writer
    ensures Renders(node, m)
    ensures writer.Tree() == Add(old(writer.Tree()), m)
    decreases node
  {
    hide ContextOf, Lists;
    var attrs := ListAttributes(node.attributes);
    if node.children == [] && node.text == "" {
      writer.WriteEmptyElement(node.name, attrs);
      m := Closed(node.name, attrs);
    } else if node.children == [] {
      writer.WriteTextElementWithAttrs(node.name, node.text, attrs);
      m := TextTag(node.name, node.text, attrs);
    } else {
      ghost var before := writer.Tree();
      ghost var content := TextPart(node.text);
      writer.StartElement(node.name, attrs);
      if node.text != "" {
        writer.WriteText(node.text);
        assert [] + [Chars(node.text)] == content;
      }
      ghost var t := |content|;
      for i := 0 to |node.children|
        invariant |content| == t + i && content[..t] == TextPart(node.text)
        invariant forall j :: t <= j < |content| ==> Renders(node.children[j - t], content[j])
        invariant writer.Tree() == Enter(before, node.name, attrs, content)
      {
        ghost var child := WriteXmlNode(writer, node.children[i]);
        content := content + [child];
      }
      writer.EndElement(node.name);
      m := Tag(node.name, attrs, content);
    }
  }

  // ---- The volume rewrite ---------------------------------------------------------

  const VERSION := "1.0.0"
  const BOOTC_NAMESPACE := "https://github.com/containers/bootc"

  /** What is recorded about the image a volume was built from. */
  datatype ImageInfo = ImageInfo(sourceImage: string, filesystem: Option<string>, created: string)

  function Entries(info: ImageInfo): seq<(string, string)> {
    [("bootc:source-image", info.sourceImage),
     ("bootc:filesystem", if info.filesystem.Some? then info.filesystem.value else "default"),
     ("bootc:created", info.created),
     ("bootc:bcvk-version", VERSION)]
  }

  function EntryTags(entries: seq<(string, string)>): (r: seq<Markup>)
    ensures |r| == |entries| && forall i :: 0 <= i < |r| ==> r[i] == TextTag(entries[i].0, entries[i].1, [])
  {
    seq(|entries|, i requires 0 <= i < |entries| => TextTag(entries[i].0, entries[i].1, []))
  }

  /** A leaf of the parsed tree. */
  function Leaf(name: string, text: string): XmlNode {
    XmlNode(name, map[], TrimSpace(text), [])
  }

  function EntryNodes(entries: seq<(string, string)>): seq<XmlNode> {
    seq(|entries|, i requires 0 <= i < |entries| => Leaf(entries[i].0, entries[i].1))
  }

  function MetadataNode(info: ImageInfo): XmlNode {
    XmlNode("metadata", map[], "",
            [XmlNode("bootc:container", map["xmlns:bootc" := BOOTC_NAMESPACE], "", EntryNodes(Entries(info)))])
  }

  function Kept(children: seq<XmlNode>): (r: seq<XmlNode>)
    ensures forall c :: c in r ==> c in children && c.name != "metadata"
    ensures forall c :: c in children && c.name != "metadata" ==> c in r
  {
    if children == [] then []
    else (if children[0].name == "metadata" then [] else [children[0]]) + Kept(children[1..])
  }

  /** The rewritten description: the root's attributes and its other children stay in order,
      the root's text goes, and the metadata is the last child. */
  function WithMetadata(dom: XmlNode, info: ImageInfo): XmlNode {
    XmlNode("volume", dom.attributes, "", TrimEach(Kept(dom.children)) + [MetadataNode(info)])
  }

  lemma {:induction false} KeptAll(children: seq<XmlNode>)
    requires forall c :: c in children ==> c.name != "metadata"
    ensures Kept(children) == children
  {
    if children != [] {
      KeptAll(children[1..]);
      assert children == [children[0]] + children[1..];
    }
  }

  lemma {:induction false} KeptAppend(a: seq<XmlNode>, b: seq<XmlNode>)
    ensures Kept(a + b) == Kept(a) + Kept(b)
  {
    if a == [] {
      assert a + b == b;
    } else {
      assert (a + b)[1..] == a[1..] + b;
      KeptAppend(a[1..], b);
    }
  }

  lemma {:induction false} TrimAllIdempotent(node: XmlNode)
    ensures IsTrimmed(TrimAll(node))
  {
    forall c | c in TrimEach(node.children)
      ensures IsTrimmed(c)
    {
      var i :| 0 <= i < |node.children| && TrimEach(node.children)[i] == c;
      TrimAllIdempotent(node.children[i]);
    }
  }

  /** Adding metadata again replaces it and touches nothing else, so any number of rewrites
      is the last one. */
  lemma RewriteReplaces(dom: XmlNode, first: ImageInfo, second: ImageInfo)
    ensures WithMetadata(WithMetadata(dom, first), second) == WithMetadata(dom, second)
  {
    var kept := TrimEach(Kept(dom.children));
    KeptAll(kept);
    KeptAppend(kept, [MetadataNode(first)]);
    assert Kept([MetadataNode(first)]) == [];
    forall i | 0 <= i < |kept|
      ensures TrimEach(kept)[i] == kept[i]
    {
      TrimAllIdempotent(Kept(dom.children)[i]);
      TrimAllKeeps(kept[i]);
    }
    assert TrimEach(kept) == kept;
    assert kept + [] == kept;
  }

  /** The image a volume was built from can be read from its description, if no other part
      of the description uses the element's name. */
  lemma SourceImageReadBack(dom: XmlNode, info: ImageInfo)
    requires FindIn(TrimEach(Kept(dom.children)), "bootc:source-image").None?
    ensures FindWithNamespace(WithMetadata(dom, info), "source-image") ==
            Some(Leaf("bootc:source-image", info.sourceImage))
  {
    NamespacedName();
    FindInMetadata(info);
    var dom' := WithMetadata(dom, info);
    assert dom'.name != "bootc:source-image";
    hide FindIn, MetadataNode, TrimEach, Kept, Leaf;
    FindInAppend(TrimEach(Kept(dom.children)), [MetadataNode(info)], "bootc:source-image");
    assert Find(dom', "bootc:source-image") == FindIn(dom'.children, "bootc:source-image");
  }

  lemma NamespacedName()
    ensures "bootc:" + "source-image" == "bootc:source-image"
  {
  }

  lemma FindInMetadata(info: ImageInfo)
    ensures FindIn([MetadataNode(info)], "bootc:source-image") == Some(Leaf("bootc:source-image", info.sourceImage))
  {
    hide TrimSpace;
    var name := "bootc:source-image";
    var entries := EntryNodes(Entries(info));
    assert entries[0] == Leaf(name, info.sourceImage);
    assert Find(entries[0], name) == Some(entries[0]);
    var container := MetadataNode(info).children[0];
    assert FindIn(entries, name) == Some(entries[0]);
    assert container.name != name;
    assert FindIn([container], name) == Some(entries[0]);
  }

  ghost predicate RendersEach(nodes: seq<XmlNode>, ms: seq<Markup>) {
    |ms| == |nodes| && forall i :: 0 <= i < |nodes| ==> Renders(nodes[i], ms[i])
  }

  function MetadataTag(info: ImageInfo): Markup {
    Tag("metadata", [], [Tag("bootc:container", [("xmlns:bootc", BOOTC_NAMESPACE)], EntryTags(Entries(info)))])
  }

  lemma MetadataTagNode(info: ImageInfo)
    ensures NodeOf(MetadataTag(info)) == MetadataNode(info)
  {
    var entries := Entries(info);
    var tags := EntryTags(entries);
    EntryTagsNodes(entries);
    var container := Tag("bootc:container", [("xmlns:bootc", BOOTC_NAMESPACE)], tags);
    AttributesOne("xmlns:bootc", BOOTC_NAMESPACE);
    ContentNodes([container], 0);
    assert NodesOf([container]) == [NodeOf(container)];
    hide TextOf, NodesOf;
    assert NodeOf(MetadataTag(info)) == XmlNode("metadata", map[], "", [NodeOf(container)]);
  }

  lemma EntryTagsNodes(entries: seq<(string, string)>)
    ensures NodesOf(EntryTags(entries)) == EntryNodes(entries) && TextOf(EntryTags(entries)) == ""
  {
    var tags := EntryTags(entries);
    hide NodesOf, NodeOf, TextOf, EntryTags, Leaf;
    forall i | 0 <= i < |tags|
      ensures !tags[i].Chars? && NodeOf(tags[i]) == Leaf(entries[i].0, entries[i].1)
    {
      EntryNode(entries[i].0, entries[i].1);
    }
    ContentNodes(tags, 0);
    assert forall i :: 0 <= i < |tags| ==> NodesOf(tags)[i] == NodeOf(tags[i]);
  }

  lemma EntryNode(name: string, text: string)
    ensures !TextTag(name, text, []).Chars? && NodeOf(TextTag(name, text, [])) == Leaf(name, text)
  {
    TextTagNode(name, text, []);
    hide TrimSpace;
  }

  lemma RewrittenNode(dom: XmlNode, info: ImageInfo, attrs: seq<Attr>, kept: seq<Markup>)
    requires Lists(attrs, dom.attributes) && RendersEach(Kept(dom.children), kept)
    ensures NodeOf(Tag("volume", attrs, kept + [MetadataTag(info)])) == WithMetadata(dom, info)
  {
    var nodes := Kept(dom.children);
    var content := kept + [MetadataTag(info)];
    forall j | 0 <= j < |nodes|
      ensures NodeOf(content[j]) == TrimAll(nodes[j])
    {
      RenderedNode(nodes[j], kept[j]);
    }
    MetadataTagNode(info);
    assert forall j :: 0 <= j < |nodes| ==> Renders(nodes[j], content[j]);
    RenderedList(nodes, content, MetadataTag(info), MetadataNode(info));
  }

  lemma RenderedList(nodes: seq<XmlNode>, content: seq<Markup>, last: Markup, lastNode: XmlNode)
    requires |content| == |nodes| + 1 && content[|nodes|] == last && !last.Chars? && NodeOf(last) == lastNode
    requires forall j :: 0 <= j < |nodes| ==> !content[j].Chars? && NodeOf(content[j]) == TrimAll(nodes[j])
    ensures TextOf(content) == "" && NodesOf(content) == TrimEach(nodes) + [lastNode]
  {
    hide NodeOf, NodesOf, TextOf, TrimAll, TrimEach;
    ContentNodes(content, 0);
    forall i | 0 <= i < |content|
      ensures NodesOf(content)[i] == (TrimEach(nodes) + [lastNode])[i]
    {
      assert NodesOf(content)[i - 0] == NodeOf(content[i]);
    }
  }

  lemma KeptOne(child: XmlNode)
    ensures Kept([child]) == if child.name == "metadata" then [] else [child]
  {
  }

  /** The rewrite as the program does it, child by child into the writer. */
  method AddVolumeMetadata(dom: XmlNode, info: ImageInfo) returns (events: seq<Event>, ghost m: Markup)
    ensures IsDocument(events, m)
    ensures Parse(Tokens(events)) == Ok(WithMetadata(dom, info))
  {
    hide Renders, Lists, NodeOf, MetadataTag, WithMetadata, Parse, Tokens, ContextOf, Kept;
    var writer := new XmlWriter();
    var attrs := ListAttributes(dom.attributes);
    writer.StartElement("volume", attrs);
    assert Kept([]) == [] by { KeptAll([]); }
    assert dom.children[..0] == [];
    ghost var kept: seq<Markup> := [];
    for i := 0 to |dom.children|
      invariant RendersEach(Kept(dom.children[..i]), kept)
      invariant writer.Tree() == Some(Inside(Top([]), "volume", attrs, kept))
    {
      var child := dom.children[i];
      assert dom.children[..i + 1] == dom.children[..i] + [child];
      KeptAppend(dom.children[..i], [child]);
      KeptOne(child);
      if child.name != "metadata" {
        ghost var written := WriteXmlNode(writer, child);
        kept := kept + [written];
      }
    }
    assert dom.children[..|dom.children|] == dom.children;
    WriteMetadata(writer, info);
    writer.EndElement("volume");
    m := Tag("volume", attrs, kept + [MetadataTag(info)]);
    events := writer.events;
    assert [] + [m] == [m];
    RewrittenNode(dom, info, attrs, kept);
    ParsedDocument(events, m);
  }

  method WriteMetadata(writer: XmlWriter, info: ImageInfo)
    modifies writer
    ensures writer.Tree() == Add(old(writer.Tree()), MetadataTag(info))
  {
    hide ContextOf, TextTag;
    var attrs := [("xmlns:bootc", BOOTC_NAMESPACE)];
    writer.StartElement("metadata", []);
    writer.StartElement("bootc:container", attrs);
    writer.WriteTextElement("bootc:source-image", info.sourceImage);
    writer.WriteTextElement("bootc:filesystem", if info.filesystem.Some? then info.filesystem.value else "default");
    writer.WriteTextElement("bootc:created", info.created);
    writer.WriteTextElement("bootc:bcvk-version", VERSION);
    ghost var tags := EntryTags(Entries(info));
    assert [] + [tags[0]] + [tags[1]] + [tags[2]] + [tags[3]] == tags;
    writer.EndElement("bootc:container");
    ghost var container := Tag("bootc:container", attrs, tags);
    writer.EndElement("metadata");
    assert [] + [container] == [container];
  }
}
