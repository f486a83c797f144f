/** Every setting of a domain, read back from its parsed document by element and attribute
    names alone. */
module DomainSettings {
  import opened Wrappers
  import opened Text
  import opened Xml
  import opened DomainXml

  // ---- Reading --------------------------------------------------------------------

  function AttrOf(n: XmlNode, key: string): Option<string> {
    if key in n.attributes then Some(n.attributes[key]) else None
  }

  /** The nodes of a name, in order. */
  function Named(nodes: seq<XmlNode>, name: string): (r: seq<XmlNode>)
    ensures forall n :: n in r ==> n.name == name
  {
    if nodes == [] then []
    else
      var last := nodes[|nodes| - 1];
      Named(nodes[..|nodes| - 1], name) + if last.name == name then [last] else []
  }

  function Kids(n: XmlNode, name: string): seq<XmlNode> {
    Named(n.children, name)
  }

  /** The attribute of the first child of a name. */
  function Below(n: XmlNode, child: string, key: string): Option<string> {
    if Kids(n, child) == [] then None else AttrOf(Kids(n, child)[0], key)
  }

  function TextBelow(n: XmlNode, child: string): Option<string> {
    if Kids(n, child) == [] then None else Some(Kids(n, child)[0].text)
  }

  /** The children of the first child of a name. */
  function Contents(n: XmlNode, child: string): seq<XmlNode> {
    if Kids(n, child) == [] then [] else Kids(n, child)[0].children
  }

  datatype DiskView = DiskView(kind: Option<string>, file: Option<string>, format: Option<string>, dev: Option<string>,
                               serial: Option<string>, transient: bool, readonly: bool)

  function DiskOf(n: XmlNode): DiskView {
    DiskView(AttrOf(n, "type"), Below(n, "source", "file"), Below(n, "driver", "type"), Below(n, "target", "dev"),
             TextBelow(n, "serial"), Kids(n, "transient") != [], Kids(n, "readonly") != [])
  }

  datatype NetworkView = NetworkView(kind: Option<string>, bridge: Option<string>, network: Option<string>,
                                     model: Option<string>)

  function NetworkOf(n: XmlNode): NetworkView {
    NetworkView(AttrOf(n, "type"), Below(n, "source", "bridge"), Below(n, "source", "network"), Below(n, "model", "type"))
  }

  datatype ConsoleView = ConsoleView(target: Option<string>, log: Option<string>)

  function ConsoleOf(n: XmlNode): ConsoleView {
    ConsoleView(Below(n, "target", "type"), Below(n, "log", "file"))
  }

  datatype ChannelView = ChannelView(kind: Option<string>, path: Option<string>, port: Option<string>)

  function ChannelOf(n: XmlNode): ChannelView {
    ChannelView(AttrOf(n, "type"), Below(n, "source", "path"), Below(n, "target", "name"))
  }

  datatype SerialView = SerialView(kind: Option<string>, path: Option<string>, target: Option<string>, port: Option<string>)

  function SerialOf(n: XmlNode): SerialView {
    SerialView(AttrOf(n, "type"), Below(n, "source", "path"), Below(n, "target", "type"), Below(n, "address", "iobase"))
  }

  datatype FilesystemView = FilesystemView(source: Option<string>, tag: Option<string>, readonly: bool,
                                           driver: Option<string>)

  function FilesystemOf(n: XmlNode): FilesystemView {
    FilesystemView(Below(n, "source", "dir"), Below(n, "target", "dir"), Kids(n, "readonly") != [],
                   Below(n, "driver", "type"))
  }

  function Views<T>(nodes: seq<XmlNode>, view: XmlNode -> T): (r: seq<T>)
    ensures |r| == |nodes| && forall i :: 0 <= i < |r| ==> r[i] == view(nodes[i])
  {
    seq(|nodes|, i requires 0 <= i < |nodes| => view(nodes[i]))
  }

  // ---- What the settings ask for --------------------------------------------------

  function FormatOfPath(path: string): string {
    if EndsWith(path, ".qcow2") then "qcow2" else "raw"
  }

  function MainDisk(c: DomainConfig): seq<DiskView> {
    if c.diskPath.None? then []
    else [DiskView(Some("file"), c.diskPath, Some(FormatOfPath(c.diskPath.value)), Some("vda"), None, c.transientDisk, false)]
  }

  function IgnitionView(path: string): DiskView {
    DiskView(Some("file"), Some(path), Some("raw"), Some("vdb"), Some("ignition"), false, true)
  }

  function IgnitionDisk(c: DomainConfig): seq<DiskView> {
    if c.ignitionDisk.None? then [] else [IgnitionView(c.ignitionDisk.value)]
  }

  /** The interface reads back as the network setting it was made for. */
  predicate ReadsAsNetwork(views: seq<NetworkView>, network: Option<string>) {
    if network in {None, Some("none"), Some("default")} then views == []
    else
      && |views| == 1 && views[0].model == Some("virtio")
      && match views[0].kind
         case Some("user") => network == Some("user")
         case Some("bridge") => views[0].bridge.Some? && network == Some("bridge=" + views[0].bridge.value)
         case Some("network") => views[0].network == network
         case _ => false
  }

  function Consoles(c: DomainConfig): seq<ConsoleView> {
    [ConsoleView(Some("serial"), c.serialConsoleLog), ConsoleView(Some("virtio"), c.virtioConsoleLog)]
  }

  function JournalChannel(file: Option<string>, port: string): seq<ChannelView> {
    if file.None? then [] else [ChannelView(Some("file"), file, Some(port))]
  }

  function Channels(c: DomainConfig): seq<ChannelView> {
    JournalChannel(c.journalChannel, "org.bcvk.journal")
    + JournalChannel(c.journalInitrdChannel, "org.bcvk.journal.initrd")
    + if c.graphicalConsole then [ChannelView(Some("spicevmc"), None, Some("com.redhat.spice.0"))] else []
  }

  function Serials(c: DomainConfig, arch: Arch): seq<SerialView> {
    if arch.Aarch64? || c.firmwareLog.None? then []
    else
      match c.firmwareLog.value
      case LogFile(path) => [SerialView(Some("file"), Some(path), Some("isa-debug"), Some("0x402"))]
      case LogConsole => [SerialView(Some("pty"), None, Some("isa-debug"), Some("0x402"))]
  }

  function Filesystems(list: seq<VirtiofsFilesystem>): (r: seq<FilesystemView>)
    ensures |r| == |list|
    ensures forall i :: 0 <= i < |r| ==>
              r[i] == FilesystemView(Some(list[i].sourceDir), Some(list[i].tag), list[i].readonly, Some("virtiofs"))
  {
    seq(|list|, i requires 0 <= i < |list| =>
        FilesystemView(Some(list[i].sourceDir), Some(list[i].tag), list[i].readonly, Some("virtiofs")))
  }

  // ---- Nodes of markup ------------------------------------------------------------

  predicate NoChars(ms: seq<Markup>) {
    forall m :: m in ms ==> !m.Chars?
  }

  lemma {:induction false} NodesAre(ms: seq<Markup>)
    requires NoChars(ms)
    ensures |NodesOf(ms)| == |ms| && TextOf(ms) == ""
    ensures forall i :: 0 <= i < |ms| ==> NodesOf(ms)[i] == NodeOf(ms[i])
  {
    hide NodeOf;
    if ms != [] {
      var before, last := ms[..|ms| - 1], ms[|ms| - 1];
      assert last in ms;
      NodesAre(before);
      assert NodesOf(ms) == NodesOf(before) + [NodeOf(last)];
    }
  }

  lemma {:induction false} NamedAppend(a: seq<XmlNode>, b: seq<XmlNode>, name: string)
    ensures Named(a + b, name) == Named(a, name) + Named(b, name)
  {
    if b == [] {
      assert a + b == a;
    } else {
      assert (a + b)[..|a + b| - 1] == a + b[..|b| - 1];
      NamedAppend(a, b[..|b| - 1], name);
    }
  }

  /** The nodes of a name among some markup. */
  function Picked(ms: seq<Markup>, name: string): seq<XmlNode> {
    Named(NodesOf(ms), name)
  }

  lemma PickedAppend(a: seq<Markup>, b: seq<Markup>, name: string)
    ensures Picked(a + b, name) == Picked(a, name) + Picked(b, name)
  {
    NodesAppend(a, b);
    NamedAppend(NodesOf(a), NodesOf(b), name);
  }

  function PickOne(m: Markup, name: string): seq<XmlNode> {
    if !m.Chars? && m.name == name then [NodeOf(m)] else []
  }

  lemma PickedOne(m: Markup, name: string)
    ensures Picked([m], name) == PickOne(m, name)
  {
    hide NodeOf;
    if m.Chars? {
      assert [m][..0] == [];
      assert NodesOf([m]) == [];
    } else {
      NodesOne(m);
      NodeKeepsName(m);
      NamedOne(NodeOf(m), name);
    }
  }

  lemma NodeKeepsName(m: Markup)
    requires !m.Chars?
    ensures NodeOf(m).name == m.name
  {
  }

  lemma PickedNone(name: string)
    ensures Picked([], name) == []
  {
  }

  lemma {:induction false} PickedAll(ms: seq<Markup>, own: string, name: string)
    requires NoChars(ms) && forall m :: m in ms ==> m.name == own
    ensures Picked(ms, name) == if own == name then NodesOf(ms) else []
  {
    hide NodeOf;
    if ms != [] {
      var before, last := ms[..|ms| - 1], ms[|ms| - 1];
      PickedAll(before, own, name);
      assert ms == before + [last];
      assert last in ms;
      PickedAppend(before, [last], name);
      PickedOne(last, name);
      NodesAppend(before, [last]);
      NodesOne(last);
    }
  }

  lemma {:induction false} PickedAbsent(ms: seq<Markup>, name: string)
    requires NoChars(ms) && forall m :: m in ms ==> m.name != name
    ensures Picked(ms, name) == []
  {
    hide NodeOf;
    if ms == [] {
      PickedNone(name);
    } else {
      var before, last := ms[..|ms| - 1], ms[|ms| - 1];
      PickedAbsent(before, name);
      assert ms == before + [last] && last in ms;
      hide Picked;
      PickedAppend(before, [last], name);
      PickedOne(last, name);
    }
  }

  /** The only element of a name is what is picked. */
  lemma PickedSole(ms: seq<Markup>, i: nat)
    requires NoChars(ms) && i < |ms|
    requires forall j :: 0 <= j < |ms| && j != i ==> ms[j].name != ms[i].name
    ensures Picked(ms, ms[i].name) == [NodeOf(ms[i])]
  {
    hide NodeOf, Picked;
    var name := ms[i].name;
    assert ms == ms[..i] + [ms[i]] + ms[i + 1..];
    PickedAppend(ms[..i], [ms[i]], name);
    PickedAppend(ms[..i] + [ms[i]], ms[i + 1..], name);
    PickedAbsent(ms[..i], name);
    PickedAbsent(ms[i + 1..], name);
    PickedOne(ms[i], name);
  }

  lemma PickedTwo(a: Markup, b: Markup, name: string)
    ensures Picked([a, b], name) == PickOne(a, name) + PickOne(b, name)
  {
    hide Picked, PickOne;
    assert [a, b] == [a] + [b];
    PickedAppend([a], [b], name);
    PickedOne(a, name);
    PickedOne(b, name);
  }

  // ---- Attributes -----------------------------------------------------------------

  lemma AttributesTwo(a: Attr, b: Attr)
    requires a.0 != b.0
    ensures Attributes([a, b]) == map[a.0 := a.1, b.0 := b.1]
  {
    assert [a, b][..1] == [a];
    AttributesOne(a.0, a.1);
  }

  lemma AttributesThree(a: Attr, b: Attr, d: Attr)
    requires a.0 != b.0 && a.0 != d.0 && b.0 != d.0
    ensures Attributes([a, b, d]) == map[a.0 := a.1, b.0 := b.1, d.0 := d.1]
  {
    assert [a, b, d][..2] == [a, b];
    AttributesTwo(a, b);
  }

  lemma AttributesFour(a: Attr, b: Attr, d: Attr, e: Attr)
    requires a.0 != b.0 && a.0 != d.0 && b.0 != d.0 && a.0 != e.0 && b.0 != e.0 && d.0 != e.0
    ensures Attributes([a, b, d, e]) == map[a.0 := a.1, b.0 := b.1, d.0 := d.1, e.0 := e.1]
  {
    assert [a, b, d, e][..3] == [a, b, d];
    AttributesThree(a, b, d);
  }

  lemma AttributesNone()
    ensures Attributes([]) == map[]
  {
  }

  /** An empty tag with one or two attributes. */
  lemma LeafOne(e: Elem, a: Attr)
    ensures var n := NodeOf(Leaf(e, [a])); n.name == ElemName(e) && AttrOf(n, a.0) == Some(a.1)
    ensures forall key :: key != a.0 ==> AttrOf(NodeOf(Leaf(e, [a])), key) == None
  {
    AttributesOne(a.0, a.1);
    hide Attributes, ElemName;
    LeafNode(e, [a]);
  }

  lemma LeafTwo(e: Elem, a: Attr, b: Attr)
    requires a.0 != b.0
    ensures var n := NodeOf(Leaf(e, [a, b]));
            n.name == ElemName(e) && AttrOf(n, a.0) == Some(a.1) && AttrOf(n, b.0) == Some(b.1)
  {
    AttributesTwo(a, b);
    hide Attributes, ElemName;
    LeafNode(e, [a, b]);
  }

  /** An element with one or two attributes that holds elements. */
  lemma BranchOne(e: Elem, a: Attr, content: seq<Markup>)
    requires NoChars(content)
    ensures var n := NodeOf(Branch(e, [a], content));
            && n.name == ElemName(e) && AttrOf(n, a.0) == Some(a.1)
            && |n.children| == |content| && forall i :: 0 <= i < |content| ==> n.children[i] == NodeOf(content[i])
  {
    AttributesOne(a.0, a.1);
    hide Attributes, ElemName;
    BranchNode(e, [a], content);
    NodesAre(content);
  }

  lemma BranchTwo(e: Elem, a: Attr, b: Attr, content: seq<Markup>)
    requires NoChars(content) && a.0 != b.0
    ensures var n := NodeOf(Branch(e, [a, b], content));
            && n.name == ElemName(e) && AttrOf(n, a.0) == Some(a.1) && AttrOf(n, b.0) == Some(b.1)
            && |n.children| == |content| && forall i :: 0 <= i < |content| ==> n.children[i] == NodeOf(content[i])
  {
    AttributesTwo(a, b);
    hide Attributes, ElemName;
    BranchNode(e, [a, b], content);
    NodesAre(content);
  }

  lemma LeafNode(e: Elem, attrs: seq<Attr>)
    ensures NodeOf(Leaf(e, attrs)) == XmlNode(ElemName(e), Attributes(attrs), "", [])
  {
  }

  lemma LabelNode(e: Elem, text: string, attrs: seq<Attr>)
    ensures NodeOf(Labelled(e, text, attrs)) == XmlNode(ElemName(e), Attributes(attrs), TrimSpace(text), [])
  {
    TextTagNode(ElemName(e), text, attrs);
  }

  lemma BranchNode(e: Elem, attrs: seq<Attr>, content: seq<Markup>)
    ensures var n := NodeOf(Branch(e, attrs, content));
            n.name == ElemName(e) && n.attributes == Attributes(attrs) && n.children == NodesOf(content)
  {
  }

  function If(n: XmlNode, name: string): seq<XmlNode> {
    if n.name == name then [n] else []
  }

  lemma NamedOne(a: XmlNode, name: string)
    ensures Named([a], name) == If(a, name)
  {
    assert [a][..0] == [];
  }

  lemma NamedTwo(a: XmlNode, b: XmlNode, name: string)
    ensures Named([a, b], name) == If(a, name) + If(b, name)
  {
    assert [a, b][..1] == [a];
    NamedOne(a, name);
  }

  lemma NamedThree(a: XmlNode, b: XmlNode, d: XmlNode, name: string)
    ensures Named([a, b, d], name) == If(a, name) + If(b, name) + If(d, name)
  {
    assert [a, b, d][..2] == [a, b];
    NamedTwo(a, b, name);
  }

  /** Children with names of their own are found under them, before anything that follows. */
  lemma ThreeKids(n: XmlNode, a: XmlNode, b: XmlNode, d: XmlNode, tail: seq<XmlNode>)
    requires n.children == [a, b, d] + tail && a.name != b.name && a.name != d.name && b.name != d.name
    ensures Kids(n, a.name) == [a] + Named(tail, a.name)
    ensures Kids(n, b.name) == [b] + Named(tail, b.name)
    ensures Kids(n, d.name) == [d] + Named(tail, d.name)
    ensures forall name :: name != a.name && name != b.name && name != d.name ==> Kids(n, name) == Named(tail, name)
  {
    forall name: string
      ensures Kids(n, name) == If(a, name) + If(b, name) + If(d, name) + Named(tail, name)
    {
      NamedThree(a, b, d, name);
      NamedAppend([a, b, d], tail, name);
    }
    hide Named;
  }

  lemma BelowFirst(n: XmlNode, first: XmlNode, rest: seq<XmlNode>, key: string)
    requires Kids(n, first.name) == [first] + rest
    ensures Below(n, first.name, key) == AttrOf(first, key)
    ensures TextBelow(n, first.name) == Some(first.text)
    ensures Contents(n, first.name) == first.children
  {
  }

  // ---- Disks ----------------------------------------------------------------------

  lemma DiskNames()
    ensures ElemName(Disk) == "disk" && ElemName(Driver) == "driver" && ElemName(Source) == "source"
    ensures ElemName(Target) == "target" && ElemName(Serial) == "serial"
    ensures ElemName(Transient) == "transient" && ElemName(Readonly) == "readonly"
  {
    PartNames();
    TransientNames();
    hide ElemName;
  }

  lemma TransientNames()
    ensures ElemName(Disk) == "disk" && ElemName(Transient) == "transient"
  {
  }

  lemma DiskNamesApart()
    ensures "driver" != "source" && "driver" != "target" && "source" != "target"
    ensures "serial" != "driver" && "serial" != "source" && "serial" != "target"
    ensures |"transient"| == 9 && |"readonly"| == 8 && |"driver"| == |"source"| == |"target"| == |"serial"| == 6
  {
  }

  /** The parts that every disk element begins with. */
  lemma DiskNodeRead(n: XmlNode, a: XmlNode, b: XmlNode, d: XmlNode, format: string, path: string, dev: string,
                     tail: seq<XmlNode>)
    requires AttrOf(n, "type") == Some("file") && n.children == [a, b, d] + tail
    requires a.name == "driver" && b.name == "source" && d.name == "target"
    requires AttrOf(a, "type") == Some(format) && AttrOf(b, "file") == Some(path) && AttrOf(d, "dev") == Some(dev)
    ensures DiskOf(n) == DiskView(Some("file"), Some(path), Some(format), Some(dev),
                                  if Named(tail, "serial") == [] then None else Some(Named(tail, "serial")[0].text),
                                  Named(tail, "transient") != [], Named(tail, "readonly") != [])
  {
    hide AttrOf, Named, Kids, Below, TextBelow;
    DiskNamesApart();
    ThreeKids(n, a, b, d, tail);
    BelowFirst(n, a, Named(tail, a.name), "type");
    BelowFirst(n, b, Named(tail, b.name), "file");
    BelowFirst(n, d, Named(tail, d.name), "dev");
    assert Kids(n, "serial") == Named(tail, "serial");
    TextIs(n, "serial");
  }

  lemma TextIs(n: XmlNode, name: string)
    ensures TextBelow(n, name) == if Kids(n, name) == [] then None else Some(Kids(n, name)[0].text)
  {
  }

  /** The parts that both kinds of disks begin with. */
  function DiskStart(format: string, path: string, dev: string): (r: seq<Markup>)
    ensures |r| == 3 && NoChars(r)
  {
    [Leaf(Driver, [("name", "qemu"), ("type", format)]), Leaf(Source, [("file", path)]),
     Leaf(Target, [("dev", dev), ("bus", "virtio")])]
  }

  lemma DiskStartNodes(format: string, path: string, dev: string)
    ensures var r := DiskStart(format, path, dev);
            var a, b, d := NodeOf(r[0]), NodeOf(r[1]), NodeOf(r[2]);
            && a.name == "driver" && b.name == "source" && d.name == "target"
            && AttrOf(a, "type") == Some(format) && AttrOf(b, "file") == Some(path) && AttrOf(d, "dev") == Some(dev)
  {
    DiskNames();
    LeafTwo(Driver, ("name", "qemu"), ("type", format));
    LeafOne(Source, ("file", path));
    LeafTwo(Target, ("dev", dev), ("bus", "virtio"));
    hide ElemName, Leaf, NodeOf, AttrOf;
  }

  function DiskMarkup(format: string, path: string, dev: string, rest: seq<Markup>): Markup {
    Branch(Disk, DISK_ATTRS, DiskStart(format, path, dev) + rest)
  }

  lemma DiskMarkupRead(format: string, path: string, dev: string, rest: seq<Markup>)
    requires NoChars(rest)
    ensures var m := DiskMarkup(format, path, dev, rest);
            && !m.Chars? && m.name == "disk"
            && DiskOf(NodeOf(m)) ==
               DiskView(Some("file"), Some(path), Some(format), Some(dev),
                        if Picked(rest, "serial") == [] then None else Some(Picked(rest, "serial")[0].text),
                        Picked(rest, "transient") != [], Picked(rest, "readonly") != [])
  {
    var start := DiskStart(format, path, dev);
    DiskNames();
    BranchTwo(Disk, ("type", "file"), ("device", "disk"), start + rest);
    DiskStartNodes(format, path, dev);
    NodesAre(rest);
    var m := DiskMarkup(format, path, dev, rest);
    hide *;
    var n := NodeOf(m);
    assert n.children == [NodeOf(start[0]), NodeOf(start[1]), NodeOf(start[2])] + NodesOf(rest);
    DiskNodeRead(n, NodeOf(start[0]), NodeOf(start[1]), NodeOf(start[2]), format, path, dev, NodesOf(rest));
    PickedIs(rest);
  }

  lemma PickedIs(ms: seq<Markup>)
    ensures forall name :: Picked(ms, name) == Named(NodesOf(ms), name)
  {
  }

  lemma NothingPicked()
    ensures forall name :: Picked([], name) == []
  {
    assert NodesOf([]) == [];
  }

  function TransientRest(transient: bool): (r: seq<Markup>)
    ensures NoChars(r)
  {
    if transient then [Leaf(Transient, [("shareBacking", "yes")])] else []
  }

  lemma TransientRestPicked(transient: bool)
    ensures var rest := TransientRest(transient);
            Picked(rest, "serial") == [] && Picked(rest, "readonly") == [] && (Picked(rest, "transient") != [] <==> transient)
  {
    DiskNames();
    DiskNamesApart();
    NothingPicked();
    hide ElemName, Picked;
    if transient {
      var m := Leaf(Transient, [("shareBacking", "yes")]);
      PickedOne(m, "serial");
      PickedOne(m, "readonly");
      PickedOne(m, "transient");
    }
  }

  lemma MainDiskTree(c: DomainConfig)
    requires c.diskPath.Some?
    ensures DiskTrees(c) ==
            [DiskMarkup(FormatOfPath(c.diskPath.value), c.diskPath.value, "vda", TransientRest(c.transientDisk))]
  {
    hide ElemName, EndsWith;
    var m := DiskMarkup(FormatOfPath(c.diskPath.value), c.diskPath.value, "vda", TransientRest(c.transientDisk));
    assert DiskTrees(c)[0].content == m.content;
  }

  lemma MainMarkupRead(path: string, transient: bool, dev: string)
    ensures var format := FormatOfPath(path);
            var m := DiskMarkup(format, path, dev, TransientRest(transient));
            && !m.Chars? && m.name == "disk"
            && DiskOf(NodeOf(m)) == DiskView(Some("file"), Some(path), Some(format), Some(dev), None, transient, false)
  {
    hide *;
    DiskMarkupRead(FormatOfPath(path), path, dev, TransientRest(transient));
    TransientRestPicked(transient);
  }

  lemma OneDiskRead(trees: seq<Markup>, disks: seq<DiskView>, m: Markup, view: DiskView, name: string)
    requires trees == [m] && disks == [view] && !m.Chars? && m.name == name && DiskOf(NodeOf(m)) == view
    ensures |trees| == |disks| && NoChars(trees) && forall t :: t in trees ==> t.name == name
    ensures Views(NodesOf(trees), DiskOf) == disks
  {
    hide NodeOf, NodesOf, DiskOf;
    NodesOne(m);
  }

  lemma MainDiskIs(path: string, transient: bool, c: DomainConfig, dev: string)
    requires c.diskPath == Some(path) && c.transientDisk == transient && dev == "vda"
    ensures MainDisk(c) == [DiskView(Some("file"), Some(path), Some(FormatOfPath(path)), Some(dev), None, transient, false)]
    ensures DiskTrees(c) == [DiskMarkup(FormatOfPath(path), path, dev, TransientRest(transient))]
  {
    MainDiskTree(c);
    hide DiskTrees, DiskMarkup, TransientRest, FormatOfPath, EndsWith;
  }

  lemma NoMainDisk(c: DomainConfig)
    requires c.diskPath.None?
    ensures DiskTrees(c) == [] && MainDisk(c) == [] && NoChars(DiskTrees(c)) && Views(NodesOf(DiskTrees(c)), DiskOf) == []
  {
    hide DiskOf;
  }

  lemma MainDiskRead(c: DomainConfig)
    ensures |DiskTrees(c)| == |MainDisk(c)| && NoChars(DiskTrees(c)) && forall m :: m in DiskTrees(c) ==> m.name == "disk"
    ensures Views(NodesOf(DiskTrees(c)), DiskOf) == MainDisk(c)
  {
    hide *;
    if c.diskPath.None? {
      NoMainDisk(c);
    } else {
      var path, transient := c.diskPath.value, c.transientDisk;
      MainDiskIs(path, transient, c, "vda");
      MainMarkupRead(path, transient, "vda");
      OneDiskRead(DiskTrees(c), MainDisk(c), DiskMarkup(FormatOfPath(path), path, "vda", TransientRest(transient)),
                  DiskView(Some("file"), Some(path), Some(FormatOfPath(path)), Some("vda"), None, transient, false), "disk");
    }
  }

  function IgnitionRest(): (r: seq<Markup>)
    ensures NoChars(r)
  {
    [Labelled(Serial, "ignition", []), Leaf(Readonly, [])]
  }

  lemma IgnitionRestPicked()
    ensures var rest := IgnitionRest();
            && |Picked(rest, "serial")| == 1 && Picked(rest, "serial")[0].text == "ignition"
            && Picked(rest, "transient") == [] && Picked(rest, "readonly") != []
  {
    DiskNames();
    DiskNamesApart();
    var a, b := Labelled(Serial, "ignition", []), Leaf(Readonly, []);
    LabelNode(Serial, "ignition", []);
    IgnitionTrimmed();
    PickedTwo(a, b, "serial");
    PickedTwo(a, b, "transient");
    PickedTwo(a, b, "readonly");
    hide ElemName, Picked, NodeOf, TrimSpace;
  }

  lemma IgnitionTrimmed()
    ensures TrimSpace("ignition") == "ignition"
  {
    assert IsTrim("ignition");
  }

  function IgnitionMarkup(path: string): Markup {
    DiskMarkup("raw", path, "vdb", IgnitionRest())
  }

  lemma IgnitionMarkupRead(path: string)
    ensures var m := IgnitionMarkup(path); !m.Chars? && m.name == "disk" && DiskOf(NodeOf(m)) == IgnitionView(path)
  {
    hide DiskMarkup, IgnitionRest, NodeOf, DiskOf, Picked;
    DiskMarkupRead("raw", path, "vdb", IgnitionRest());
    IgnitionRestPicked();
  }

  lemma IgnitionTree(c: DomainConfig)
    requires c.ignitionDisk.Some?
    ensures IgnitionTrees(c) == [IgnitionMarkup(c.ignitionDisk.value)]
  {
    hide ElemName, TextTag;
    var m := IgnitionMarkup(c.ignitionDisk.value);
    assert IgnitionTrees(c)[0].content == m.content;
  }

  lemma IgnitionRead(c: DomainConfig)
    ensures |IgnitionTrees(c)| == |IgnitionDisk(c)| && NoChars(IgnitionTrees(c))
    ensures forall m :: m in IgnitionTrees(c) ==> m.name == "disk"
    ensures Views(NodesOf(IgnitionTrees(c)), DiskOf) == IgnitionDisk(c)
  {
    if c.ignitionDisk.Some? {
      IgnitionTree(c);
      IgnitionMarkupRead(c.ignitionDisk.value);
      hide IgnitionTrees, IgnitionMarkup, NodeOf, DiskOf, IgnitionView;
      NodesOne(IgnitionTrees(c)[0]);
    }
  }

  // ---- The other devices ----------------------------------------------------------

  lemma InterfaceNames()
    ensures ElemName(Interface) == "interface" && ElemName(Model) == "model"
  {
  }

  lemma ConsoleNames()
    ensures ElemName(Console) == "console" && ElemName(Log) == "log"
    ensures ElemName(Channel) == "channel" && ElemName(Address) == "address"
  {
  }

  lemma GraphicsNames()
    ensures ElemName(Graphics) == "graphics" && ElemName(Video) == "video"
  {
  }

  lemma LateDeviceNames()
    ensures ElemName(Filesystem) == "filesystem" && ElemName(Tpm) == "tpm"
    ensures ElemName(Backend) == "backend" && ElemName(Devices) == "devices"
  {
  }

  lemma PartNames()
    ensures ElemName(Source) == "source" && ElemName(Target) == "target" && ElemName(Driver) == "driver"
    ensures ElemName(Serial) == "serial" && ElemName(Readonly) == "readonly"
  {
  }

  /** What the children of an element in markup are. */
  lemma BranchKids(e: Elem, attrs: seq<Attr>, content: seq<Markup>, name: string)
    ensures Kids(NodeOf(Branch(e, attrs, content)), name) == Picked(content, name)
  {
    hide ElemName, Attributes, Named;
  }

  lemma BelowIs(n: XmlNode, child: string, key: string)
    ensures Below(n, child, key) == if Kids(n, child) == [] then None else AttrOf(Kids(n, child)[0], key)
    ensures TextBelow(n, child) == if Kids(n, child) == [] then None else Some(Kids(n, child)[0].text)
    ensures Contents(n, child) == if Kids(n, child) == [] then [] else Kids(n, child)[0].children
  {
  }

  /** The only child of a name gives what is read below the element. */
  lemma KidAt(m: Markup, i: nat, key: string)
    requires m.Tag? && i < |m.content| && OnlyOne(m.content, i)
    ensures Below(NodeOf(m), m.content[i].name, key) == AttrOf(NodeOf(m.content[i]), key)
  {
    PickedSole(m.content, i);
    hide NodeOf, Picked;
    MarkupKids(m, m.content[i].name);
  }

  lemma KidMissing(m: Markup, name: string, key: string)
    requires m.Tag? && NoChars(m.content) && forall k :: k in m.content ==> k.name != name
    ensures Below(NodeOf(m), name, key) == None
  {
    PickedAbsent(m.content, name);
    hide NodeOf, Picked;
    MarkupKids(m, name);
  }

  lemma MarkupKids(m: Markup, name: string)
    requires m.Tag?
    ensures Kids(NodeOf(m), name) == Picked(m.content, name)
  {
    hide Attributes, Named;
  }

  predicate OnlyOne(ms: seq<Markup>, i: nat)
    requires i < |ms|
  {
    NoChars(ms) && forall j :: 0 <= j < |ms| && j != i ==> ms[j].name != ms[i].name
  }

  lemma SingleRead(m: Markup, a: Markup, key: string, other: string, otherKey: string)
    requires m.Tag? && m.content == [a] && !a.Chars? && other != a.name
    ensures Below(NodeOf(m), a.name, key) == AttrOf(NodeOf(a), key) && Below(NodeOf(m), other, otherKey) == None
  {
    hide NodeOf, Below, AttrOf;
    KidAt(m, 0, key);
    KidMissing(m, other, otherKey);
  }

  lemma PairRead(m: Markup, a: Markup, b: Markup, key: string, otherKey: string)
    requires m.Tag? && m.content == [a, b] && !a.Chars? && !b.Chars? && a.name != b.name
    ensures Below(NodeOf(m), a.name, key) == AttrOf(NodeOf(a), key)
    ensures Below(NodeOf(m), b.name, otherKey) == AttrOf(NodeOf(b), otherKey)
  {
    hide NodeOf, Below, AttrOf;
    KidAt(m, 0, key);
    KidAt(m, 1, otherKey);
  }

  lemma TripleRead(m: Markup, a: Markup, b: Markup, d: Markup, key: string, key1: string, key2: string)
    requires m.Tag? && m.content == [a, b, d] && NoChars([a, b, d])
    requires a.name != b.name && a.name != d.name && b.name != d.name
    ensures Below(NodeOf(m), a.name, key) == AttrOf(NodeOf(a), key)
    ensures Below(NodeOf(m), b.name, key1) == AttrOf(NodeOf(b), key1)
    ensures Below(NodeOf(m), d.name, key2) == AttrOf(NodeOf(d), key2)
  {
    hide NodeOf, Below, AttrOf;
    KidAt(m, 0, key);
    KidAt(m, 1, key1);
    KidAt(m, 2, key2);
  }

  function SourceAttr(source: Option<Attr>, key: string): Option<string> {
    if source.Some? && source.value.0 == key then Some(source.value.1) else None
  }

  function SourceTrees(source: Option<Attr>): (r: seq<Markup>)
    ensures AllBuilt(r, false) && NoChars(r)
  {
    if source.None? then [] else [Leaf(Source, [source.value])]
  }

  const MODEL := Leaf(Model, [("type", "virtio")])

  function InterfaceMarkup(kind: string, source: Option<Attr>): Markup {
    Branch(Interface, [("type", kind)], SourceTrees(source) + [MODEL])
  }

  lemma ModelRead()
    ensures !MODEL.Chars? && MODEL.name == "model" && AttrOf(NodeOf(MODEL), "type") == Some("virtio") && "model" != "source"
  {
    InterfaceNames();
    LeafOne(Model, ("type", "virtio"));
  }

  lemma SourceRead(source: Attr)
    ensures var m := Leaf(Source, [source]);
            && m.name == "source" && AttrOf(NodeOf(m), "bridge") == SourceAttr(Some(source), "bridge")
            && AttrOf(NodeOf(m), "network") == SourceAttr(Some(source), "network")
  {
    PartNames();
    LeafOne(Source, source);
    hide ElemName, NodeOf, AttrOf;
  }

  lemma InterfaceShape(kind: string, source: Option<Attr>)
    ensures var m := InterfaceMarkup(kind, source);
            && m.Tag? && m.name == "interface" && AttrOf(NodeOf(m), "type") == Some(kind)
            && m.content == if source.None? then [MODEL] else [Leaf(Source, [source.value]), MODEL]
  {
    InterfaceNames();
    BranchOne(Interface, ("type", kind), SourceTrees(source) + [MODEL]);
    hide ElemName, NodeOf, AttrOf, Leaf;
  }

  /** The interface of a kind, with the attribute of its source if it has one. */
  lemma InterfaceRead(kind: string, source: Option<Attr>)
    ensures var m := InterfaceMarkup(kind, source);
            && !m.Chars? && m.name == "interface"
            && NetworkOf(NodeOf(m)) ==
               NetworkView(Some(kind), SourceAttr(source, "bridge"), SourceAttr(source, "network"), Some("virtio"))
  {
    var m := InterfaceMarkup(kind, source);
    InterfaceShape(kind, source);
    ModelRead();
    if source.Some? {
      SourceRead(source.value);
    }
    hide InterfaceMarkup, NodeOf, Below, AttrOf, Leaf, MODEL;
    if source.None? {
      SingleRead(m, MODEL, "type", "source", "bridge");
      SingleRead(m, MODEL, "type", "source", "network");
    } else {
      PairRead(m, Leaf(Source, [source.value]), MODEL, "bridge", "type");
      PairRead(m, Leaf(Source, [source.value]), MODEL, "network", "type");
    }
  }

  /** The kind of interface a network setting asks for, with its source. */
  function InterfaceFor(network: string): (string, Option<Attr>) {
    if network == "user" then ("user", None)
    else if StartsWith(network, "bridge=") then ("bridge", Some(("bridge", network[7..])))
    else ("network", Some(("network", network)))
  }

  lemma NetworkTree(c: DomainConfig)
    ensures NetworkTrees(c) ==
            if c.network in {None, Some("none"), Some("default")} then []
            else [InterfaceMarkup(InterfaceFor(c.network.value).0, InterfaceFor(c.network.value).1)]
  {
    hide ElemName;
  }

  lemma InterfaceReadsAsNetwork(network: string)
    requires network != "none" && network != "default"
    ensures var (kind, source) := InterfaceFor(network);
            ReadsAsNetwork([NetworkView(Some(kind), SourceAttr(source, "bridge"), SourceAttr(source, "network"), Some("virtio"))],
                           Some(network))
  {
    if network != "user" && StartsWith(network, "bridge=") {
      assert network == "bridge=" + network[7..];
    }
  }

  lemma NetworkRead(c: DomainConfig)
    ensures |NetworkTrees(c)| <= 1 && NoChars(NetworkTrees(c)) && forall m :: m in NetworkTrees(c) ==> m.name == "interface"
    ensures ReadsAsNetwork(if NetworkTrees(c) == [] then [] else [NetworkOf(NodeOf(NetworkTrees(c)[0]))], c.network)
  {
    NetworkTree(c);
    hide NetworkTrees;
    if c.network !in {None, Some("none"), Some("default")} {
      var (kind, source) := InterfaceFor(c.network.value);
      InterfaceReadsAsNetwork(c.network.value);
      hide *;
      InterfaceRead(kind, source);
    }
  }

  lemma ConsoleShape(log: Option<string>, target: string)
    ensures var m, last := ConsoleTree(log, target), Leaf(Target, [("type", target)]);
            && m.Tag? && m.name == "console" && last.name == "target" && AttrOf(NodeOf(last), "type") == Some(target)
            && m.content == if log.None? then [last] else [Leaf(Log, [("file", log.value), ("append", "on")]), last]
  {
    ConsoleNames();
    PartNames();
    LeafOne(Target, ("type", target));
    hide ElemName, NodeOf, AttrOf;
    assert ConsoleTree(log, target).content ==
           if log.None? then [Leaf(Target, [("type", target)])]
           else [Leaf(Log, [("file", log.value), ("append", "on")]), Leaf(Target, [("type", target)])];
  }

  lemma LogRead(log: string)
    ensures var m := Leaf(Log, [("file", log), ("append", "on")]);
            m.name == "log" && AttrOf(NodeOf(m), "file") == Some(log) && "log" != "target"
  {
    ConsoleNames();
    LeafTwo(Log, ("file", log), ("append", "on"));
  }

  lemma ConsoleRead(log: Option<string>, target: string)
    ensures !ConsoleTree(log, target).Chars? && ConsoleTree(log, target).name == "console"
    ensures ConsoleOf(NodeOf(ConsoleTree(log, target))) == ConsoleView(Some(target), log)
  {
    var m, last := ConsoleTree(log, target), Leaf(Target, [("type", target)]);
    ConsoleShape(log, target);
    assert "log" != "target";
    if log.Some? {
      LogRead(log.value);
    }
    hide ConsoleTree, NodeOf, Below, AttrOf, Leaf;
    if log.None? {
      SingleRead(m, last, "type", "log", "file");
    } else {
      PairRead(m, m.content[0], last, "file", "type");
    }
  }

  lemma ChannelRead(path: string, port: string)
    ensures var trees := ChannelTrees(Some(path), port);
            && |trees| == 1 && NoChars(trees) && trees[0].name == "channel"
            && ChannelOf(NodeOf(trees[0])) == ChannelView(Some("file"), Some(path), Some(port))
  {
    ConsoleNames();
    PartNames();
    var source := Leaf(Source, [("path", path), ("append", "on")]);
    var target := Branch(Target, [("type", "virtio"), ("name", port)], []);
    LeafTwo(Source, ("path", path), ("append", "on"));
    BranchTwo(Target, ("type", "virtio"), ("name", port), []);
    BranchOne(Channel, ("type", "file"), [source, target]);
    var m := Branch(Channel, [("type", "file")], [source, target]);
    assert ChannelTrees(Some(path), port) == [m];
    assert "source" != "target" && source.name == "source" && target.name == "target" && m.name == "channel";
    hide ElemName, NodeOf, Picked, Kids, Below, AttrOf, Built, ChannelTrees, Branch, Leaf;
    PairRead(m, source, target, "path", "name");
  }

  predicate FourApart(a: string, b: string, d: string, e: string) {
    a != b && a != d && a != e && b != d && b != e && d != e
  }

  /** The nodes of a file system element, found under their names. */
  lemma FilesystemKids(content: seq<Markup>, driver: Markup, readonly: Markup, source: Markup, target: Markup, flag: bool)
    requires content == if flag then [driver, readonly, source, target] else [driver, source, target]
    requires !driver.Chars? && !readonly.Chars? && !source.Chars? && !target.Chars?
    requires FourApart(driver.name, readonly.name, source.name, target.name)
    ensures Picked(content, driver.name) == [NodeOf(driver)] && Picked(content, source.name) == [NodeOf(source)]
    ensures Picked(content, target.name) == [NodeOf(target)] && (Picked(content, readonly.name) != [] <==> flag)
  {
    hide NodeOf, Picked;
    PickedSole(content, 0);
    PickedSole(content, |content| - 2);
    PickedSole(content, |content| - 1);
    if flag {
      PickedSole(content, 1);
    } else {
      PickedAbsent(content, readonly.name);
    }
  }

  lemma FilesystemRead(fs: VirtiofsFilesystem)
    ensures !FilesystemTree(fs).Chars? && FilesystemTree(fs).name == "filesystem"
    ensures FilesystemOf(NodeOf(FilesystemTree(fs))) ==
            FilesystemView(Some(fs.sourceDir), Some(fs.tag), fs.readonly, Some("virtiofs"))
  {
    LateDeviceNames();
    PartNames();
    var driver, readonly := Leaf(Driver, [("type", "virtiofs"), ("queue", "1024")]), Leaf(Readonly, []);
    var source, target := Leaf(Source, [("dir", fs.sourceDir)]), Leaf(Target, [("dir", fs.tag)]);
    LeafTwo(Driver, ("type", "virtiofs"), ("queue", "1024"));
    LeafOne(Source, ("dir", fs.sourceDir));
    LeafOne(Target, ("dir", fs.tag));
    var content, m := FilesystemTree(fs).content, FilesystemTree(fs);
    FilesystemNamesApart();
    FilesystemKids(content, driver, readonly, source, target, fs.readonly);
    assert m == Branch(Filesystem, [("type", "mount"), ("accessmode", "passthrough")], content);
    BranchKids(Filesystem, [("type", "mount"), ("accessmode", "passthrough")], content, "driver");
    BranchKids(Filesystem, [("type", "mount"), ("accessmode", "passthrough")], content, "readonly");
    BranchKids(Filesystem, [("type", "mount"), ("accessmode", "passthrough")], content, "source");
    BranchKids(Filesystem, [("type", "mount"), ("accessmode", "passthrough")], content, "target");
    var n := NodeOf(m);
    hide ElemName, NodeOf, Picked, Kids, Below, AttrOf, Built, Leaf, FilesystemTree, Branch;
    BelowIs(n, "source", "dir");
    BelowIs(n, "target", "dir");
    BelowIs(n, "driver", "type");
  }

  lemma FilesystemNamesApart()
    ensures FourApart("driver", "readonly", "source", "target")
  {
  }

  function FirmwareLogParts(log: FirmwareLogOutput): (r: seq<Markup>)
    ensures NoChars(r) && |r| == if log.LogFile? then 3 else 2
  {
    (if log.LogFile? then [Leaf(Source, [("path", log.path)])] else [])
    + [Branch(Target, [("type", "isa-debug"), ("port", "0")], [Leaf(Model, [("name", "isa-debugcon")])]),
       Leaf(Address, [("type", "isa"), ("iobase", "0x402")])]
  }

  lemma FirmwareLogPartsRead(log: FirmwareLogOutput)
    ensures var parts := FirmwareLogParts(log);
            var i := |parts| - 2;
            && parts[i].name == "target" && AttrOf(NodeOf(parts[i]), "type") == Some("isa-debug")
            && parts[i + 1].name == "address" && AttrOf(NodeOf(parts[i + 1]), "iobase") == Some("0x402")
            && (log.LogFile? ==> parts[0].name == "source" && AttrOf(NodeOf(parts[0]), "path") == Some(log.path))
  {
    ConsoleNames();
    PartNames();
    BranchTwo(Target, ("type", "isa-debug"), ("port", "0"), [Leaf(Model, [("name", "isa-debugcon")])]);
    LeafTwo(Address, ("type", "isa"), ("iobase", "0x402"));
    if log.LogFile? {
      LeafOne(Source, ("path", log.path));
    }
    hide ElemName, NodeOf, AttrOf;
  }

  lemma FirmwareLogTreeIs(c: DomainConfig, arch: Arch)
    ensures FirmwareLogTrees(c, arch) ==
            if arch.Aarch64? || c.firmwareLog.None? then []
            else [Branch(Serial, [("type", if c.firmwareLog.value.LogFile? then "file" else "pty")],
                         FirmwareLogParts(c.firmwareLog.value))]
  {
    hide ElemName;
    if arch.X86_64? && c.firmwareLog.Some? {
      assert FirmwareLogTrees(c, arch)[0].content == FirmwareLogParts(c.firmwareLog.value);
    }
  }

  function FirmwareLogMarkup(log: FirmwareLogOutput): Markup {
    Branch(Serial, [("type", if log.LogFile? then "file" else "pty")], FirmwareLogParts(log))
  }

  lemma FirmwareLogMarkupRead(log: FirmwareLogOutput)
    ensures var m := FirmwareLogMarkup(log);
            && !m.Chars? && m.name == "serial"
            && SerialOf(NodeOf(m)) == SerialView(Some(if log.LogFile? then "file" else "pty"),
                                                 if log.LogFile? then Some(log.path) else None,
                                                 Some("isa-debug"), Some("0x402"))
  {
    PartNames();
    var kind, parts, m := if log.LogFile? then "file" else "pty", FirmwareLogParts(log), FirmwareLogMarkup(log);
    FirmwareLogPartsRead(log);
    BranchOne(Serial, ("type", kind), parts);
    assert "source" != "target" && |"address"| == 7 && m.content == parts && m.name == "serial";
    hide ElemName, NodeOf, Picked, Kids, Below, AttrOf, Built, FirmwareLogParts, FirmwareLogMarkup, Branch, Leaf;
    if log.LogFile? {
      TripleRead(m, parts[0], parts[1], parts[2], "path", "type", "iobase");
    } else {
      PairRead(m, parts[0], parts[1], "type", "iobase");
      KidMissing(m, "source", "path");
    }
  }

  lemma FirmwareLogRead(c: DomainConfig, arch: Arch)
    ensures var trees := FirmwareLogTrees(c, arch);
            && |trees| == |Serials(c, arch)| && NoChars(trees)
            && forall i :: 0 <= i < |trees| ==>
                 trees[i].name == "serial" && SerialOf(NodeOf(trees[i])) == Serials(c, arch)[i]
  {
    FirmwareLogTreeIs(c, arch);
    if arch.X86_64? && c.firmwareLog.Some? {
      FirmwareLogMarkupRead(c.firmwareLog.value);
      assert FirmwareLogTrees(c, arch) == [FirmwareLogMarkup(c.firmwareLog.value)];
      hide FirmwareLogTrees, FirmwareLogMarkup, NodeOf, SerialOf;
    }
  }

  function SpiceChannel(): Markup {
    Branch(Channel, [("type", "spicevmc")], [Leaf(Target, [("type", "virtio"), ("name", "com.redhat.spice.0")])])
  }

  function SpiceGraphics(): Markup {
    Branch(Graphics, [("type", "spice"), ("autoport", "yes")], [Leaf(Listen, [("type", "address")])])
  }

  lemma SpiceChannelRead()
    ensures var m := SpiceChannel();
            && m.Tag? && m.name == "channel"
            && ChannelOf(NodeOf(m)) == ChannelView(Some("spicevmc"), None, Some("com.redhat.spice.0"))
  {
    ConsoleNames();
    PartNames();
    var target := Leaf(Target, [("type", "virtio"), ("name", "com.redhat.spice.0")]);
    var m := Branch(Channel, [("type", "spicevmc")], [target]);
    LeafTwo(Target, ("type", "virtio"), ("name", "com.redhat.spice.0"));
    BranchOne(Channel, ("type", "spicevmc"), [target]);
    assert "source" != "target" && m.content == [target] && target.name == "target" && m.name == "channel";
    hide ElemName, NodeOf, Picked, Kids, Below, AttrOf, Built, Branch, Leaf;
    SingleRead(m, target, "name", "source", "path");
  }

  lemma SpiceGraphicsRead()
    ensures var m := SpiceGraphics();
            m.Tag? && m.name == "graphics" && AttrOf(NodeOf(m), "type") == Some("spice")
  {
    GraphicsNames();
    BranchTwo(Graphics, ("type", "spice"), ("autoport", "yes"), [Leaf(Listen, [("type", "address")])]);
  }

  /** The three devices of a graphical console. */
  lemma GraphicsTreesAre(c: DomainConfig)
    ensures var trees := GraphicsTrees(c);
            if !c.graphicalConsole then trees == []
            else |trees| == 3 && trees[0] == SpiceGraphics() && trees[1].Tag? && trees[1].name == "video"
                 && trees[2] == SpiceChannel()
  {
    GraphicsNames();
    hide ElemName, Built;
  }

  lemma TpmRead(c: DomainConfig)
    ensures var trees := TpmTrees(c);
            && NoChars(trees) && |trees| == (if c.tpm then 1 else 0)
            && forall m :: m in trees ==>
                 m.name == "tpm" && AttrOf(NodeOf(m), "model") == Some("tpm-tis")
                 && Below(NodeOf(m), "backend", "type") == Some("emulator")
  {
    if c.tpm {
      LateDeviceNames();
      var backend := Leaf(Backend, [("type", "emulator"), ("version", "2.0")]);
      LeafTwo(Backend, ("type", "emulator"), ("version", "2.0"));
      BranchOne(Tpm, ("model", "tpm-tis"), [backend]);
      var m := Branch(Tpm, [("model", "tpm-tis")], [backend]);
      assert TpmTrees(c) == [m];
      assert backend.name == "backend" && m.name == "tpm" && m.content == [backend];
      hide ElemName, NodeOf, Picked, Kids, Below, AttrOf, Built, TpmTrees, Branch, Leaf;
      KidAt(m, 0, "type");
    }
  }

  // ---- All devices ----------------------------------------------------------------

  /** A group of elements of one name, as a search for a name sees it. */
  function Part(ms: seq<Markup>, own: string, name: string): seq<XmlNode> {
    if own == name then NodesOf(ms) else []
  }

  function GraphicsPart(c: DomainConfig, name: string): seq<XmlNode> {
    if !c.graphicalConsole then []
    else if name == "graphics" then [NodeOf(SpiceGraphics())]
    else if name == "video" then [NodeOf(GraphicsTrees(c)[1])]
    else if name == "channel" then [NodeOf(SpiceChannel())]
    else []
  }

  lemma GraphicsPicked(c: DomainConfig, name: string)
    ensures Picked(GraphicsTrees(c), name) == GraphicsPart(c, name)
  {
    GraphicsTreesAre(c);
    SpiceGraphicsRead();
    SpiceChannelRead();
    GraphicsNamesApart();
    hide GraphicsTrees, SpiceGraphics, SpiceChannel, NodeOf, Picked, AttrOf, ChannelOf;
    var trees := GraphicsTrees(c);
    if !c.graphicalConsole {
      PickedNone(name);
    } else {
      if name == "graphics" {
        PickedSole(trees, 0);
      } else if name == "video" {
        PickedSole(trees, 1);
      } else if name == "channel" {
        PickedSole(trees, 2);
      } else {
        PickedAbsent(trees, name);
      }
    }
  }

  lemma GraphicsNamesApart()
    ensures "graphics" != "video" && "graphics" != "channel" && "video" != "channel"
  {
  }

  function ConsoleTrees(c: DomainConfig): seq<Markup> {
    [ConsoleTree(c.serialConsoleLog, "serial"), ConsoleTree(c.virtioConsoleLog, "virtio")]
  }

  lemma EightPicked(a: seq<Markup>, b: seq<Markup>, d: seq<Markup>, e: seq<Markup>, f: seq<Markup>, g: seq<Markup>,
                    h: seq<Markup>, k: seq<Markup>, name: string)
    ensures Picked(a + b + d + e + f + g + h + k, name) ==
            Picked(a, name) + Picked(b, name) + Picked(d, name) + Picked(e, name) + Picked(f, name) + Picked(g, name)
            + Picked(h, name) + Picked(k, name)
  {
    hide Picked;
    PickedAppend(a, b, name);
    PickedAppend(a + b, d, name);
    PickedAppend(a + b + d, e, name);
    PickedAppend(a + b + d + e, f, name);
    PickedAppend(a + b + d + e + f, g, name);
    PickedAppend(a + b + d + e + f + g, h, name);
    PickedAppend(a + b + d + e + f + g + h, k, name);
  }

  /** The devices of a name, group by group. */
  function OtherPart(c: DomainConfig, arch: Arch, name: string): seq<XmlNode> {
    Part(NetworkTrees(c), "interface", name) + Part(ConsoleTrees(c), "console", name)
    + Part(ChannelTrees(c.journalChannel, "org.bcvk.journal"), "channel", name)
    + Part(ChannelTrees(c.journalInitrdChannel, "org.bcvk.journal.initrd"), "channel", name)
    + Part(FirmwareLogTrees(c, arch), "serial", name) + GraphicsPart(c, name)
    + Part(FilesystemTrees(c.virtiofs), "filesystem", name) + Part(TpmTrees(c), "tpm", name)
  }

  lemma PartPicked(ms: seq<Markup>, own: string, name: string)
    requires NoChars(ms) && forall i :: 0 <= i < |ms| ==> ms[i].name == own
    ensures Picked(ms, name) == Part(ms, own, name)
  {
    PickedAll(ms, own, name);
  }

  lemma ConsolesPart(c: DomainConfig, name: string)
    ensures Picked(ConsoleTrees(c), name) == Part(ConsoleTrees(c), "console", name)
  {
    ConsoleRead(c.serialConsoleLog, "serial");
    ConsoleRead(c.virtioConsoleLog, "virtio");
    hide ConsoleTree, ConsoleOf, NodeOf, Picked, Part;
    PartPicked(ConsoleTrees(c), "console", name);
  }

  lemma ChannelsPart(file: Option<string>, port: string, name: string)
    ensures Picked(ChannelTrees(file, port), name) == Part(ChannelTrees(file, port), "channel", name)
  {
    if file.Some? {
      ChannelRead(file.value, port);
    }
    hide ChannelOf, NodeOf, Picked, Part, ElemName;
    PartPicked(ChannelTrees(file, port), "channel", name);
  }

  lemma FilesystemsPart(list: seq<VirtiofsFilesystem>, name: string)
    ensures Picked(FilesystemTrees(list), name) == Part(FilesystemTrees(list), "filesystem", name)
  {
    forall i | 0 <= i < |list|
      ensures !FilesystemTree(list[i]).Chars? && FilesystemTree(list[i]).name == "filesystem"
    {
      FilesystemRead(list[i]);
    }
    hide FilesystemTree, FilesystemOf, NodeOf, Picked, Part;
    PartPicked(FilesystemTrees(list), "filesystem", name);
  }

  lemma OtherPicked(c: DomainConfig, arch: Arch, name: string)
    ensures Picked(OtherDevices(c, arch), name) == OtherPart(c, arch, name)
  {
    NetworkRead(c);
    PartPicked(NetworkTrees(c), "interface", name);
    ConsolesPart(c, name);
    ChannelsPart(c.journalChannel, "org.bcvk.journal", name);
    ChannelsPart(c.journalInitrdChannel, "org.bcvk.journal.initrd", name);
    FirmwareLogRead(c, arch);
    PartPicked(FirmwareLogTrees(c, arch), "serial", name);
    GraphicsPicked(c, name);
    FilesystemsPart(c.virtiofs, name);
    TpmRead(c);
    PartPicked(TpmTrees(c), "tpm", name);
    OtherDevicesAre(c, arch);
    hide *;
    EightPicked(NetworkTrees(c), ConsoleTrees(c), ChannelTrees(c.journalChannel, "org.bcvk.journal"),
                ChannelTrees(c.journalInitrdChannel, "org.bcvk.journal.initrd"), FirmwareLogTrees(c, arch),
                GraphicsTrees(c), FilesystemTrees(c.virtiofs), TpmTrees(c), name);
    OtherPartIs(c, arch, name);
  }

  lemma OtherDevicesAre(c: DomainConfig, arch: Arch)
    ensures OtherDevices(c, arch) ==
            NetworkTrees(c) + ConsoleTrees(c) + ChannelTrees(c.journalChannel, "org.bcvk.journal")
            + ChannelTrees(c.journalInitrdChannel, "org.bcvk.journal.initrd") + FirmwareLogTrees(c, arch)
            + GraphicsTrees(c) + FilesystemTrees(c.virtiofs) + TpmTrees(c)
  {
    hide NetworkTrees, ConsoleTree, ChannelTrees, FirmwareLogTrees, GraphicsTrees, FilesystemTrees, TpmTrees;
  }

  lemma OtherPartIs(c: DomainConfig, arch: Arch, name: string)
    ensures OtherPart(c, arch, name) ==
            Part(NetworkTrees(c), "interface", name) + Part(ConsoleTrees(c), "console", name)
            + Part(ChannelTrees(c.journalChannel, "org.bcvk.journal"), "channel", name)
            + Part(ChannelTrees(c.journalInitrdChannel, "org.bcvk.journal.initrd"), "channel", name)
            + Part(FirmwareLogTrees(c, arch), "serial", name) + GraphicsPart(c, name)
            + Part(FilesystemTrees(c.virtiofs), "filesystem", name) + Part(TpmTrees(c), "tpm", name)
  {
  }

  lemma DisksPart(c: DomainConfig, name: string)
    ensures Picked(DiskTrees(c), name) == Part(DiskTrees(c), "disk", name)
    ensures Picked(IgnitionTrees(c), name) == Part(IgnitionTrees(c), "disk", name)
  {
    MainDiskRead(c);
    IgnitionRead(c);
    hide *;
    PartPickedAll(DiskTrees(c), "disk", name);
    PartPickedAll(IgnitionTrees(c), "disk", name);
  }

  lemma PartPickedAll(ms: seq<Markup>, own: string, name: string)
    requires NoChars(ms) && forall m :: m in ms ==> m.name == own
    ensures Picked(ms, name) == Part(ms, own, name)
  {
    PickedAll(ms, own, name);
  }

  lemma DevicesPicked(c: DomainConfig, arch: Arch, name: string)
    ensures DevicesTree(c, arch).Tag?
    ensures Picked(DevicesTree(c, arch).content, name) ==
            Part(DiskTrees(c), "disk", name) + Part(IgnitionTrees(c), "disk", name) + OtherPart(c, arch, name)
  {
    DisksPart(c, name);
    OtherPicked(c, arch, name);
    hide ElemName, DiskTrees, IgnitionTrees, OtherDevices, Picked, Part, OtherPart;
    PickedAppend(DiskTrees(c), IgnitionTrees(c), name);
    PickedAppend(DiskTrees(c) + IgnitionTrees(c), OtherDevices(c, arch), name);
  }

  lemma EarlyNamesApart()
    ensures "disk" != "interface" && "disk" != "console" && "disk" != "channel" && "disk" != "serial"
    ensures "disk" != "graphics" && "disk" != "video" && "disk" != "filesystem" && "disk" != "tpm"
    ensures "interface" != "console" && "interface" != "channel" && "interface" != "serial"
    ensures "interface" != "graphics" && "interface" != "video" && "interface" != "filesystem" && "interface" != "tpm"
  {
  }

  lemma LateNamesApart()
    ensures "console" != "channel" && "console" != "serial" && "console" != "graphics" && "console" != "video"
    ensures "console" != "filesystem" && "console" != "tpm" && "channel" != "serial" && "channel" != "graphics"
    ensures "channel" != "video" && "channel" != "filesystem" && "channel" != "tpm" && "serial" != "graphics"
    ensures "serial" != "video" && "serial" != "filesystem" && "serial" != "tpm"
    ensures "graphics" != "filesystem" && "graphics" != "tpm" && "video" != "filesystem" && "video" != "tpm"
    ensures "filesystem" != "tpm" && "graphics" != "video"
  {
  }

  /** The devices of each name. */
  lemma DevicesOfNames(c: DomainConfig, arch: Arch)
    ensures DevicesTree(c, arch).Tag?
    ensures var content := DevicesTree(c, arch).content;
            && Picked(content, "disk") == NodesOf(DiskTrees(c)) + NodesOf(IgnitionTrees(c))
            && Picked(content, "interface") == NodesOf(NetworkTrees(c))
            && Picked(content, "console") == NodesOf(ConsoleTrees(c))
            && Picked(content, "serial") == NodesOf(FirmwareLogTrees(c, arch))
            && Picked(content, "filesystem") == NodesOf(FilesystemTrees(c.virtiofs))
            && Picked(content, "tpm") == NodesOf(TpmTrees(c))
  {
    EarlyNamesApart();
    LateNamesApart();
    hide DiskTrees, IgnitionTrees, NetworkTrees, ConsoleTrees, ChannelTrees, FirmwareLogTrees, FilesystemTrees, TpmTrees;
    hide NodesOf, NodeOf, Picked, DevicesTree, GraphicsTrees, SpiceGraphics, SpiceChannel;
    DevicesPicked(c, arch, "disk");
    DevicesPicked(c, arch, "interface");
    DevicesPicked(c, arch, "console");
    DevicesPicked(c, arch, "serial");
    DevicesPicked(c, arch, "filesystem");
    DevicesPicked(c, arch, "tpm");
  }

  lemma GraphicsOfNames(c: DomainConfig, arch: Arch)
    ensures DevicesTree(c, arch).Tag?
    ensures var content := DevicesTree(c, arch).content;
            && Picked(content, "graphics") == (if c.graphicalConsole then [NodeOf(SpiceGraphics())] else [])
            && (Picked(content, "video") != [] <==> c.graphicalConsole)
  {
    EarlyNamesApart();
    LateNamesApart();
    hide DiskTrees, IgnitionTrees, NetworkTrees, ConsoleTrees, ChannelTrees, FirmwareLogTrees, FilesystemTrees, TpmTrees;
    hide NodesOf, NodeOf, Picked, DevicesTree, GraphicsTrees, SpiceGraphics, SpiceChannel;
    DevicesPicked(c, arch, "graphics");
    DevicesPicked(c, arch, "video");
  }

  lemma ChannelsOfName(c: DomainConfig, arch: Arch)
    ensures DevicesTree(c, arch).Tag?
    ensures Picked(DevicesTree(c, arch).content, "channel") ==
            NodesOf(ChannelTrees(c.journalChannel, "org.bcvk.journal"))
            + NodesOf(ChannelTrees(c.journalInitrdChannel, "org.bcvk.journal.initrd"))
            + if c.graphicalConsole then [NodeOf(SpiceChannel())] else []
  {
    EarlyNamesApart();
    LateNamesApart();
    hide DiskTrees, IgnitionTrees, NetworkTrees, ConsoleTrees, ChannelTrees, FirmwareLogTrees, FilesystemTrees, TpmTrees;
    hide NodesOf, NodeOf, Picked, DevicesTree, GraphicsTrees, SpiceGraphics, SpiceChannel;
    DevicesPicked(c, arch, "channel");
  }

  /** The devices read back as the settings that ask for them, and there are no others of
      their kinds. */
  ghost predicate DevicesReadBack(devices: seq<XmlNode>, c: DomainConfig, arch: Arch) {
    && Views(Named(devices, "disk"), DiskOf) == MainDisk(c) + IgnitionDisk(c)
    && ReadsAsNetwork(Views(Named(devices, "interface"), NetworkOf), c.network)
    && Views(Named(devices, "console"), ConsoleOf) == Consoles(c)
    && Views(Named(devices, "channel"), ChannelOf) == Channels(c)
    && Views(Named(devices, "serial"), SerialOf) == Serials(c, arch)
    && Views(Named(devices, "filesystem"), FilesystemOf) == Filesystems(c.virtiofs)
    && (c.graphicalConsole <==> Named(devices, "graphics") != []) && (c.graphicalConsole <==> Named(devices, "video") != [])
    && (forall n :: n in Named(devices, "graphics") ==> AttrOf(n, "type") == Some("spice"))
    && |Named(devices, "tpm")| == (if c.tpm then 1 else 0)
    && (forall n :: n in Named(devices, "tpm") ==>
          AttrOf(n, "model") == Some("tpm-tis") && Below(n, "backend", "type") == Some("emulator"))
  }

  lemma ViewsAppend<T>(a: seq<XmlNode>, b: seq<XmlNode>, view: XmlNode -> T)
    ensures Views(a + b, view) == Views(a, view) + Views(b, view)
  {
  }

  lemma DisksView(c: DomainConfig)
    ensures Views(NodesOf(DiskTrees(c)) + NodesOf(IgnitionTrees(c)), DiskOf) == MainDisk(c) + IgnitionDisk(c)
  {
    hide *;
    ViewsAppend(NodesOf(DiskTrees(c)), NodesOf(IgnitionTrees(c)), DiskOf);
    MainDiskRead(c);
    IgnitionRead(c);
  }

  lemma NetworksView(c: DomainConfig)
    ensures ReadsAsNetwork(Views(NodesOf(NetworkTrees(c)), NetworkOf), c.network)
  {
    NetworkRead(c);
    hide NetworkTrees, NodeOf, NodesOf, NetworkOf, ReadsAsNetwork, ElemName, InterfaceMarkup;
    NodesAre(NetworkTrees(c));
    assert Views(NodesOf(NetworkTrees(c)), NetworkOf) ==
           if NetworkTrees(c) == [] then [] else [NetworkOf(NodeOf(NetworkTrees(c)[0]))];
  }

  lemma ConsolesView(c: DomainConfig)
    ensures Views(NodesOf(ConsoleTrees(c)), ConsoleOf) == Consoles(c)
  {
    ConsoleRead(c.serialConsoleLog, "serial");
    ConsoleRead(c.virtioConsoleLog, "virtio");
    hide ConsoleTree, NodeOf, NodesOf, ConsoleOf;
    NodesAre(ConsoleTrees(c));
  }

  lemma JournalView(file: Option<string>, port: string)
    ensures Views(NodesOf(ChannelTrees(file, port)), ChannelOf) == JournalChannel(file, port)
  {
    if file.Some? {
      ChannelRead(file.value, port);
      NodesAre(ChannelTrees(file, port));
    }
    hide NodeOf, ChannelOf, ElemName;
  }

  lemma ChannelsView(c: DomainConfig)
    ensures Views(NodesOf(ChannelTrees(c.journalChannel, "org.bcvk.journal"))
                  + NodesOf(ChannelTrees(c.journalInitrdChannel, "org.bcvk.journal.initrd"))
                  + (if c.graphicalConsole then [NodeOf(SpiceChannel())] else []), ChannelOf) == Channels(c)
  {
    SpiceChannelRead();
    JournalView(c.journalChannel, "org.bcvk.journal");
    JournalView(c.journalInitrdChannel, "org.bcvk.journal.initrd");
    hide SpiceChannel, NodeOf, NodesOf, ChannelOf, ChannelTrees, Views, JournalChannel;
    var a, b := NodesOf(ChannelTrees(c.journalChannel, "org.bcvk.journal")),
      NodesOf(ChannelTrees(c.journalInitrdChannel, "org.bcvk.journal.initrd"));
    var s := if c.graphicalConsole then [NodeOf(SpiceChannel())] else [];
    ViewsAppend(a, b, ChannelOf);
    ViewsAppend(a + b, s, ChannelOf);
    assert Views(s, ChannelOf) ==
           if c.graphicalConsole then [ChannelView(Some("spicevmc"), None, Some("com.redhat.spice.0"))] else [];
  }

  lemma SerialsView(c: DomainConfig, arch: Arch)
    ensures Views(NodesOf(FirmwareLogTrees(c, arch)), SerialOf) == Serials(c, arch)
  {
    FirmwareLogRead(c, arch);
    NodesAre(FirmwareLogTrees(c, arch));
    hide FirmwareLogTrees, NodeOf, NodesOf, SerialOf, Serials;
  }

  lemma FilesystemsView(list: seq<VirtiofsFilesystem>)
    ensures Views(NodesOf(FilesystemTrees(list)), FilesystemOf) == Filesystems(list)
  {
    forall i | 0 <= i < |list|
      ensures !FilesystemTree(list[i]).Chars?
      ensures FilesystemOf(NodeOf(FilesystemTree(list[i]))) ==
              FilesystemView(Some(list[i].sourceDir), Some(list[i].tag), list[i].readonly, Some("virtiofs"))
    {
      FilesystemRead(list[i]);
    }
    hide FilesystemTree, NodeOf, NodesOf, FilesystemOf;
    NodesAre(FilesystemTrees(list));
  }

  lemma TpmView(c: DomainConfig)
    ensures |NodesOf(TpmTrees(c))| == (if c.tpm then 1 else 0)
    ensures forall n :: n in NodesOf(TpmTrees(c)) ==>
              AttrOf(n, "model") == Some("tpm-tis") && Below(n, "backend", "type") == Some("emulator")
  {
    TpmRead(c);
    NodesAre(TpmTrees(c));
    hide TpmTrees, NodeOf, NodesOf, AttrOf, Below;
  }

  lemma DevicesRead(c: DomainConfig, arch: Arch)
    ensures DevicesTree(c, arch).Tag?
    ensures DevicesReadBack(NodesOf(DevicesTree(c, arch).content), c, arch)
  {
    DevicesOfNames(c, arch);
    GraphicsOfNames(c, arch);
    ChannelsOfName(c, arch);
    var devices := NodesOf(DevicesTree(c, arch).content);
    PickedIs(DevicesTree(c, arch).content);
    SpiceGraphicsRead();
    hide *;
    DisksView(c);
    NetworksView(c);
    ConsolesView(c);
    ChannelsView(c);
    SerialsView(c, arch);
    FilesystemsView(c.virtiofs);
    TpmView(c);
    AllRead(devices, c, arch);
  }

  lemma AllRead(devices: seq<XmlNode>, c: DomainConfig, arch: Arch)
    requires Views(Named(devices, "disk"), DiskOf) == MainDisk(c) + IgnitionDisk(c)
    requires ReadsAsNetwork(Views(Named(devices, "interface"), NetworkOf), c.network)
    requires Views(Named(devices, "console"), ConsoleOf) == Consoles(c)
    requires Views(Named(devices, "channel"), ChannelOf) == Channels(c)
    requires Views(Named(devices, "serial"), SerialOf) == Serials(c, arch)
    requires Views(Named(devices, "filesystem"), FilesystemOf) == Filesystems(c.virtiofs)
    requires c.graphicalConsole <==> Named(devices, "graphics") != []
    requires c.graphicalConsole <==> Named(devices, "video") != []
    requires forall n :: n in Named(devices, "graphics") ==> AttrOf(n, "type") == Some("spice")
    requires |Named(devices, "tpm")| == (if c.tpm then 1 else 0)
    requires forall n :: n in Named(devices, "tpm") ==>
               AttrOf(n, "model") == Some("tpm-tis") && Below(n, "backend", "type") == Some("emulator")
    ensures DevicesReadBack(devices, c, arch)
  {
  }
}
