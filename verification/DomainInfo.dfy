/** Reading a domain's settings back from its document, and the round trip with the builder. */
module DomainInfo {
  import opened Wrappers
  import opened Text
  import opened Xml
  import opened DomainXml

  const U16_LIMIT := 0x1_0000
  const U32_LIMIT := 0x1_0000_0000

  // ---- Extraction -----------------------------------------------------------------

  /** Bytes in a unit; unknown units have none. */
  function UnitToBytes(unit: string): Option<nat> {
    match unit
    case "B" => Some(1)
    case "bytes" => Some(1)
    case "k" => Some(1024)
    case "K" => Some(1024)
    case "KiB" => Some(1024)
    case "M" => Some(0x10_0000)
    case "MiB" => Some(0x10_0000)
    case "G" => Some(0x4000_0000)
    case "GiB" => Some(0x4000_0000)
    case "T" => Some(0x100_0000_0000)
    case "TiB" => Some(0x100_0000_0000)
    case "KB" => Some(1_000)
    case "MB" => Some(1_000_000)
    case "GB" => Some(1_000_000_000)
    case "TB" => Some(1_000_000_000_000)
    case _ => None
  }

  function ConvertMemoryToMb(value: nat, unit: string): Option<nat> {
    match UnitToBytes(unit)
    case None => None
    case Some(bytes) =>
      var mb := value * bytes / 0x10_0000;
      if mb < U32_LIMIT then Some(mb) else None
  }

  function ParseMemoryMb(node: XmlNode): Option<nat> {
    match ParseUnsigned(node.text, U32_LIMIT)
    case None => None
    case Some(value) => ConvertMemoryToMb(value, if "unit" in node.attributes then node.attributes["unit"] else "KiB")
  }

  /** First disk element whose type is a file, in document order. */
  function FindDisk(node: XmlNode): Option<XmlNode> {
    if node.name == "disk" && "type" in node.attributes && node.attributes["type"] == "file" then Some(node)
    else FindDiskIn(node.children)
  }

  function FindDiskIn(nodes: seq<XmlNode>): Option<XmlNode> {
    if nodes == [] then None
    else
      var found := FindDisk(nodes[0]);
      if found.Some? then found else FindDiskIn(nodes[1..])
  }

  function DiskPath(dom: XmlNode): Option<string> {
    SourcePath(FindDisk(dom))
  }

  /** The file of the first source element in a disk element. */
  function SourcePath(disk: Option<XmlNode>): Option<string> {
    if disk.None? then None
    else
      var source := Find(disk.value, "source");
      if source.None? || "file" !in source.value.attributes then None else Some(source.value.attributes["file"])
  }

  /** The parts of a comma-separated list, trimmed, without the empty ones. */
  function Labels(text: string): seq<string> {
    NonEmptyTrimmed(Split(text, ','))
  }

  function NonEmptyTrimmed(parts: seq<string>): (r: seq<string>)
    ensures forall p :: p in r ==> p != "" && exists q :: q in parts && p == Trim(q)
  {
    if parts == [] then []
    else (if Trim(parts[0]) == "" then [] else [Trim(parts[0])]) + NonEmptyTrimmed(parts[1..])
  }

  /** The metadata the listing reads. */
  datatype Key = SourceImage | Created | Label | SshPort

  function KeyName(k: Key): string {
    match k
    case SourceImage => "source-image"
    case Created => "created"
    case Label => "label"
    case SshPort => "ssh-port"
  }

  datatype Info = Info(sourceImage: Option<string>, created: Option<string>, labels: seq<string>,
                       memoryMb: Option<nat>, vcpus: Option<nat>, diskPath: Option<string>, sshPort: Option<nat>)

  function TextOfFound(found: Option<XmlNode>): Option<string> {
    if found.Some? then Some(found.value.text) else None
  }

  function ParsedText(text: Option<string>, limit: nat): Option<nat> {
    if text.Some? then ParseUnsigned(text.value, limit) else None
  }

  function Extract(dom: XmlNode): Info {
    var memory := Find(dom, "memory");
    var labels := TextOfFound(FindWithNamespace(dom, KeyName(Label)));
    Info(TextOfFound(FindWithNamespace(dom, KeyName(SourceImage))),
         TextOfFound(FindWithNamespace(dom, KeyName(Created))),
         if labels.Some? then Labels(labels.value) else [],
         if memory.Some? then ParseMemoryMb(memory.value) else None,
         ParsedText(TextOfFound(Find(dom, "vcpu")), U32_LIMIT),
         DiskPath(dom),
         ParsedText(TextOfFound(FindWithNamespace(dom, KeyName(SshPort))), U16_LIMIT))
  }

  // ---- Searching built markup -----------------------------------------------------

  function Search(ms: seq<Markup>, name: string): Option<XmlNode> {
    FindIn(NodesOf(ms), name)
  }

  function SearchDisk(ms: seq<Markup>): Option<XmlNode> {
    FindDiskIn(NodesOf(ms))
  }

  lemma SearchAppend(a: seq<Markup>, b: seq<Markup>, name: string)
    ensures Search(a + b, name) == if Search(a, name).Some? then Search(a, name) else Search(b, name)
  {
    NodesAppend(a, b);
    FindInAppend(NodesOf(a), NodesOf(b), name);
  }

  lemma {:induction false} FindDiskInAppend(a: seq<XmlNode>, b: seq<XmlNode>)
    ensures FindDiskIn(a + b) == if FindDiskIn(a).Some? then FindDiskIn(a) else FindDiskIn(b)
  {
    if a == [] {
      assert a + b == b;
    } else {
      assert (a + b)[1..] == a[1..] + b;
      FindDiskInAppend(a[1..], b);
    }
  }

  lemma SearchDiskAppend(a: seq<Markup>, b: seq<Markup>)
    ensures SearchDisk(a + b) == if SearchDisk(a).Some? then SearchDisk(a) else SearchDisk(b)
  {
    NodesAppend(a, b);
    FindDiskInAppend(NodesOf(a), NodesOf(b));
  }

  /** A piece at the head of the search. */
  lemma SearchOne(m: Markup, name: string)
    requires !m.Chars?
    ensures Search([m], name) == if m.name == name then Some(NodeOf(m))
                                 else if m.Tag? then Search(m.content, name) else None
  {
    NodesOne(m);
    var n := NodeOf(m);
    assert FindIn([n], name) == Find(n, name);
    if m.Tag? {
      assert n.children == NodesOf(m.content);
    } else {
      assert n.children == [];
      assert FindIn([], name) == None;
    }
  }

  predicate NamesNoElem(name: string) {
    forall e: Elem :: ElemName(e) != name
  }

  /** A name that no domain element has is not found in built markup. */
  lemma {:induction false} BuiltLacks(ms: seq<Markup>, disks: bool, name: string)
    requires AllBuilt(ms, disks) && NamesNoElem(name)
    ensures Search(ms, name).None?
    decreases ms
  {
    hide ElemName;
    if ms != [] {
      var before, m := ms[..|ms| - 1], ms[|ms| - 1];
      BuiltLacks(before, disks, name);
      assert before + [m] == ms;
      SearchAppend(before, [m], name);
      assert m in ms;
      if !m.Chars? {
        SearchOne(m, name);
        if m.Tag? {
          BuiltLacks(m.content, disks, name);
        }
      } else {
        assert NodesOf(ms) == NodesOf(before);
      }
    }
  }

  lemma SearchDiskOne(m: Markup)
    requires !m.Chars? && m.name != "disk"
    ensures SearchDisk([m]) == if m.Tag? then SearchDisk(m.content) else None
  {
    NodesOne(m);
    var n := NodeOf(m);
    assert FindDiskIn([n]) == FindDisk(n);
    if m.Tag? {
      assert n.children == NodesOf(m.content);
    } else {
      assert n.children == [];
      assert FindDiskIn([]) == None;
    }
  }

  lemma OnlyDiskIsDisk(e: Elem)
    ensures ElemName(e) == "disk" <==> e.Disk?
  {
  }

  lemma {:induction false} BuiltLacksDisk(ms: seq<Markup>)
    requires AllBuilt(ms, false)
    ensures SearchDisk(ms).None?
    decreases ms
  {
    if ms != [] {
      var before, m := ms[..|ms| - 1], ms[|ms| - 1];
      BuiltLacksDisk(before);
      assert before + [m] == ms;
      SearchDiskAppend(before, [m]);
      assert m in ms;
      if !m.Chars? {
        var e: Elem :| ElemName(e) == m.name && !e.Disk?;
        OnlyDiskIsDisk(e);
        SearchDiskOne(m);
        if m.Tag? {
          BuiltLacksDisk(m.content);
        }
      } else {
        assert NodesOf(ms) == NodesOf(before);
      }
    }
  }

  // ---- Names ----------------------------------------------------------------------

  /** Lengths and letters tell the names apart. */
  lemma LongShapes(e: Elem)
    ensures |ElemName(e)| !in {12, 14, 18} && (|ElemName(e)| in {11, 13} ==> ElemName(e)[0] != 'b')
  {
  }

  lemma ShortShapes(e: Elem)
    ensures |ElemName(e)| == 8 ==> ElemName(e)[0] != 's'
    ensures |ElemName(e)| == 7 ==> ElemName(e)[1] != 'r'
    ensures |ElemName(e)| == 5 ==> ElemName(e)[1] != 'a'
  {
  }

  lemma KeyNamesNoElem(k: Key)
    ensures NamesNoElem(KeyName(k)) && NamesNoElem("bootc:" + KeyName(k))
  {
    hide ElemName;
    forall e: Elem
      ensures ElemName(e) != KeyName(k) && ElemName(e) != "bootc:" + KeyName(k)
    {
      LongShapes(e);
      ShortShapes(e);
    }
  }

  // ---- Metadata entries -----------------------------------------------------------

  /** No two keys give the same element name. */
  predicate KeysApart(metadata: map<string, string>) {
    forall k :: k in metadata && !StartsWith(k, "bootc:") ==> "bootc:" + k !in metadata
  }

  /** The text read back for a key, under either of the names it may have been set. */
  function EntryText(metadata: map<string, string>, name: string): Option<string> {
    if "bootc:" + name in metadata then Some(TrimSpace(metadata["bootc:" + name]))
    else if name in metadata then Some(TrimSpace(metadata[name]))
    else None
  }

  /** A text element at the head of the search; its text holds no elements. */
  lemma SearchTextTag(name: string, text: string, attrs: seq<Attr>, wanted: string)
    ensures Search([TextTag(name, text, attrs)], wanted) ==
            if name == wanted then Some(XmlNode(name, Attributes(attrs), TrimSpace(text), [])) else None
  {
    var n := XmlNode(name, Attributes(attrs), TrimSpace(text), []);
    TextTagNode(name, text, attrs);
    NodesOne(TextTag(name, text, attrs));
    LeafSearch(n, wanted);
  }

  lemma LeafSearch(n: XmlNode, wanted: string)
    requires n.children == []
    ensures FindIn([n], wanted) == if n.name == wanted then Some(n) else None
  {
    assert FindIn([n], wanted) == Find(n, wanted);
    assert FindIn(n.children, wanted) == None;
  }

  /** The last entry is searched after the others. */
  lemma SearchLastEntry(metadata: map<string, string>, order: seq<string>, name: string)
    requires order != [] && forall k :: k in order ==> k in metadata
    ensures var before, last := order[..|order| - 1], order[|order| - 1];
            var found := Search(EntryTrees(metadata, before), name);
            Search(EntryTrees(metadata, order), name) ==
            if found.Some? then found
            else if EntryName(last) == name then Some(XmlNode(name, map[], TrimSpace(metadata[last]), []))
            else None
  {
    hide EntryName, TrimSpace, TextTag, Search;
    var before, last := order[..|order| - 1], order[|order| - 1];
    var entry := TextTag(EntryName(last), metadata[last], []);
    assert EntryTrees(metadata, order) == EntryTrees(metadata, before) + [entry];
    SearchAppend(EntryTrees(metadata, before), [entry], name);
    SearchTextTag(EntryName(last), metadata[last], [], name);
    assert Attributes([]) == map[];
  }

  lemma {:induction false} SearchNoEntry(metadata: map<string, string>, order: seq<string>, name: string)
    requires forall k :: k in order ==> k in metadata
    requires forall k :: k in order ==> EntryName(k) != name
    ensures Search(EntryTrees(metadata, order), name) == None
  {
    hide EntryName, TrimSpace;
    if order == [] {
      assert EntryTrees(metadata, order) == [];
      SearchNothing(name);
    } else {
      SearchNoEntry(metadata, order[..|order| - 1], name);
      hide Search, EntryTrees;
      SearchLastEntry(metadata, order, name);
    }
  }

  lemma {:induction false} SearchEntry(metadata: map<string, string>, order: seq<string>, key: string)
    requires (forall k :: k in order ==> k in metadata) && key in order
    requires forall k :: k in order && EntryName(k) == EntryName(key) ==> k == key
    ensures Search(EntryTrees(metadata, order), EntryName(key)) ==
            Some(XmlNode(EntryName(key), map[], TrimSpace(metadata[key]), []))
  {
    hide EntryName, TrimSpace, Search, EntryTrees;
    var before := order[..|order| - 1];
    SearchLastEntry(metadata, order, EntryName(key));
    if key in before {
      SearchEntry(metadata, before, key);
    } else {
      SearchNoEntry(metadata, before, EntryName(key));
    }
  }

  lemma SearchNothing(name: string)
    ensures Search([], name) == None
  {
  }

  lemma EntryNameOf(key: string, name: string)
    requires !StartsWith(name, "bootc:")
    ensures EntryName(key) == "bootc:" + name <==> key == "bootc:" + name || key == name
    ensures EntryName(key) != name
  {
    assert ("bootc:" + key)[6..] == key && ("bootc:" + name)[6..] == name;
    assert StartsWith("bootc:" + key, "bootc:");
  }

  /** In the metadata the namespaced name is found if the key was set, under either name. */
  lemma EntriesReadBack(metadata: map<string, string>, order: seq<string>, name: string)
    requires IsOrder(metadata, order) && KeysApart(metadata) && !StartsWith(name, "bootc:")
    ensures TextOfFound(Search(EntryTrees(metadata, order), "bootc:" + name)) == EntryText(metadata, name)
    ensures Search(EntryTrees(metadata, order), name) == None
  {
    forall key: string
      ensures EntryName(key) == "bootc:" + name <==> key == "bootc:" + name || key == name
      ensures EntryName(key) != name
    {
      EntryNameOf(key, name);
    }
    hide Search, TrimSpace, EntryTrees, EntryName;
    SearchNoEntry(metadata, order, name);
    if "bootc:" + name in metadata {
      assert name !in metadata;
      SearchEntry(metadata, order, "bootc:" + name);
    } else if name in metadata {
      SearchEntry(metadata, order, name);
    } else {
      SearchNoEntry(metadata, order, "bootc:" + name);
    }
  }

  // ---- The whole document ---------------------------------------------------------

  lemma SearchMetadata(metadata: map<string, string>, order: seq<string>, name: string)
    requires (forall k :: k in order ==> k in metadata) && NamesNoElem(name)
    ensures Search(MetadataTrees(metadata, order), name) == Search(EntryTrees(metadata, order), name)
  {
    hide ElemName, Search;
    if order != [] {
      var m := MetadataTrees(metadata, order)[0];
      SearchOne(m, name);
      SearchOne(m.content[0], name);
    } else {
      assert EntryTrees(metadata, order) == [];
    }
  }

  /** A name no element has can only be found among the metadata. */
  lemma SearchDomain(c: DomainConfig, host: Host, domain: string, order: seq<string>, name: string)
    requires (forall k :: k in order ==> k in c.metadata) && NamesNoElem(name)
    ensures Find(NodeOf(DomainTree(c, host, domain, order)), name) == Search(EntryTrees(c.metadata, order), name)
  {
    var basics, platform, devices := Basics(c, host, domain), PlatformTrees(c, host.arch), DevicesTree(c, host.arch);
    var commandline, metadata := CommandlineTrees(c), MetadataTrees(c.metadata, order);
    assert AllBuilt([devices], true) by {
      DevicesBuilt(c, host.arch);
    }
    BuiltLacks(basics, false, name);
    BuiltLacks(platform, false, name);
    BuiltLacks([devices], true, name);
    BuiltLacks(commandline, false, name);
    SearchMetadata(c.metadata, order, name);
    SearchSections(basics, platform, devices, commandline, metadata, name);
    assert ElemName(Domain) != name;
    SearchRoot(c, host, domain, order, name);
  }

  lemma SearchSections(a: seq<Markup>, b: seq<Markup>, m: Markup, d: seq<Markup>, e: seq<Markup>, name: string)
    requires Search(a, name).None? && Search(b, name).None? && Search([m], name).None? && Search(d, name).None?
    ensures Search(a + b + [m] + d + e, name) == Search(e, name)
  {
    SearchAppend(a, b, name);
    SearchAppend(a + b, [m], name);
    SearchAppend(a + b + [m], d, name);
    SearchAppend(a + b + [m] + d, e, name);
  }

  lemma SomeBuilt(ms: seq<Markup>)
    requires AllBuilt(ms, false)
    ensures AllBuilt(ms, true)
    decreases ms
  {
    forall m | m in ms
      ensures Built(m, true)
    {
      if !m.Chars? {
        var e: Elem :| ElemName(e) == m.name && !e.Disk?;
        assert IsElemName(m.name, true);
        if m.Tag? {
          SomeBuilt(m.content);
        }
      }
    }
  }

  lemma DevicesBuilt(c: DomainConfig, arch: Arch)
    ensures Built(DevicesTree(c, arch), true)
  {
    SomeBuilt(OtherDevices(c, arch));
    assert ElemName(Devices) == DevicesTree(c, arch).name;
  }

  /** Each key the listing reads comes back from the metadata and from nowhere else. */
  lemma KeyReadBack(c: DomainConfig, host: Host, domain: string, order: seq<string>, k: Key)
    requires IsOrder(c.metadata, order) && KeysApart(c.metadata)
    ensures TextOfFound(FindWithNamespace(NodeOf(DomainTree(c, host, domain, order)), KeyName(k))) ==
            EntryText(c.metadata, KeyName(k))
  {
    KeyNamesNoElem(k);
    assert KeyName(k)[0] != "bootc:"[0];
    hide NamesNoElem, NodeOf, DomainTree, Find, EntryText, KeyName, Search, EntryTrees;
    SearchDomain(c, host, domain, order, "bootc:" + KeyName(k));
    SearchDomain(c, host, domain, order, KeyName(k));
    EntriesReadBack(c.metadata, order, KeyName(k));
  }

  // ---- Memory, processors and disks -----------------------------------------------

  lemma DecimalIsTrim(n: nat)
    ensures TrimSpace(Decimal(n)) == Decimal(n)
  {
  }

  lemma BasicNames()
    ensures ElemName(Memory) == "memory" && ElemName(Vcpu) == "vcpu"
    ensures forall e: Elem :: e in {Domain, Name, Uuid, CurrentMemory, Vcpu} ==> ElemName(e) != "memory"
    ensures forall e: Elem :: e in {Domain, Name, Uuid, CurrentMemory, Memory} ==> ElemName(e) != "vcpu"
  {
  }

  lemma SearchBasics(c: DomainConfig, host: Host, domain: string)
    ensures Search(Basics(c, host, domain), "memory") ==
            Some(XmlNode("memory", map["unit" := "MiB"], Decimal(MemoryMb(c)), []))
    ensures Search(Basics(c, host, domain), "vcpu") ==
            Some(XmlNode("vcpu", map[], Decimal(Vcpus(c, host)), []))
  {
    BasicNames();
    DecimalIsTrim(MemoryMb(c));
    DecimalIsTrim(Vcpus(c, host));
    AttributesOne("unit", "MiB");
    hide ElemName, TrimSpace, Decimal, TextTag, Search;
    var b := Basics(c, host, domain);
    forall wanted | wanted == "memory" || wanted == "vcpu"
      ensures Search(b, wanted) == Search5(b, wanted)
    {
      SearchFive(b, wanted);
    }
    forall wanted | wanted == "memory" || wanted == "vcpu"
      ensures Search([b[0]], wanted) == None && Search([b[1]], wanted) == None && Search([b[3]], wanted) == None
    {
      SearchTextTag(ElemName(Name), domain, [], wanted);
      SearchTextTag(ElemName(Uuid), if c.uuid.Some? then c.uuid.value else host.freshUuid, [], wanted);
      SearchTextTag(ElemName(CurrentMemory), Decimal(MemoryMb(c)), [("unit", "MiB")], wanted);
    }
    SearchTextTag(ElemName(Memory), Decimal(MemoryMb(c)), [("unit", "MiB")], "memory");
    SearchTextTag(ElemName(Memory), Decimal(MemoryMb(c)), [("unit", "MiB")], "vcpu");
    SearchTextTag(ElemName(Vcpu), Decimal(Vcpus(c, host)), [], "vcpu");
    assert Attributes([]) == map[];
  }

  function Search5(b: seq<Markup>, name: string): Option<XmlNode>
    requires |b| == 5
  {
    if Search([b[0]], name).Some? then Search([b[0]], name)
    else if Search([b[1]], name).Some? then Search([b[1]], name)
    else if Search([b[2]], name).Some? then Search([b[2]], name)
    else if Search([b[3]], name).Some? then Search([b[3]], name)
    else Search([b[4]], name)
  }

  lemma SearchFive(b: seq<Markup>, name: string)
    requires |b| == 5
    ensures Search(b, name) == Search5(b, name)
  {
    hide Search;
    assert b == [b[0]] + [b[1]] + [b[2]] + [b[3]] + [b[4]];
    SearchAppend([b[0]], [b[1]], name);
    SearchAppend([b[0]] + [b[1]], [b[2]], name);
    SearchAppend([b[0]] + [b[1]] + [b[2]], [b[3]], name);
    SearchAppend([b[0]] + [b[1]] + [b[2]] + [b[3]], [b[4]], name);
  }

  /** The basics come first, so what is in them is what the document is searched for. */
  lemma FindBasics(c: DomainConfig, host: Host, domain: string, order: seq<string>, name: string)
    requires (forall k :: k in order ==> k in c.metadata) && ElemName(Domain) != name
    requires Search(Basics(c, host, domain), name).Some?
    ensures Find(NodeOf(DomainTree(c, host, domain, order)), name) == Search(Basics(c, host, domain), name)
  {
    hide *;
    var rest := PlatformTrees(c, host.arch) + [DevicesTree(c, host.arch)] + CommandlineTrees(c)
                + MetadataTrees(c.metadata, order);
    SearchAppend(Basics(c, host, domain), rest, name);
    SearchRoot(c, host, domain, order, name);
    assert Basics(c, host, domain) + rest
           == Basics(c, host, domain) + PlatformTrees(c, host.arch) + [DevicesTree(c, host.arch)]
              + CommandlineTrees(c) + MetadataTrees(c.metadata, order);
  }

  lemma SearchRoot(c: DomainConfig, host: Host, domain: string, order: seq<string>, name: string)
    requires (forall k :: k in order ==> k in c.metadata) && ElemName(Domain) != name
    ensures Find(NodeOf(DomainTree(c, host, domain, order)), name) ==
            Search(Basics(c, host, domain) + PlatformTrees(c, host.arch) + [DevicesTree(c, host.arch)]
                   + CommandlineTrees(c) + MetadataTrees(c.metadata, order), name)
  {
    hide ElemName, Basics, PlatformTrees, DevicesTree, CommandlineTrees, MetadataTrees, Attributes, TextOf, NodesOf;
  }

  lemma MemoryReadBack(memory: nat, attributes: map<string, string>)
    requires attributes == map["unit" := "MiB"]
    ensures ParseMemoryMb(XmlNode("memory", attributes, Decimal(memory), [])) ==
            if memory < U32_LIMIT then Some(memory) else None
  {
    ParseDecimal(memory, U32_LIMIT);
    hide ParseUnsigned, Decimal;
    assert UnitToBytes("MiB") == Some(0x10_0000);
    assert memory * 0x10_0000 / 0x10_0000 == memory;
  }

  /** libvirt states memory in KiB, and KiB is the unit when none is named: such a document
      is read back if and only if the number of KiB fits 32 bits. */
  lemma KibReadBack(memory: nat, attributes: map<string, string>)
    requires attributes == map["unit" := "KiB"] || "unit" !in attributes
    ensures ParseMemoryMb(XmlNode("memory", attributes, Decimal(memory * 1024), [])) ==
            if memory * 1024 < U32_LIMIT then Some(memory) else None
  {
    ParseDecimal(memory * 1024, U32_LIMIT);
    hide ParseUnsigned, Decimal;
    assert UnitToBytes("KiB") == Some(1024);
    assert memory * 1024 * 1024 / 0x10_0000 == memory;
  }

  // ---- Disks ----------------------------------------------------------------------

  /** The path of a disk element is read from its source, wherever that is among the leaves. */
  lemma DiskElement(path: string, first: Markup, rest: seq<Markup>, attrs: seq<Attr>)
    requires first.Closed? && first.name == "driver" && attrs == DISK_ATTRS
    ensures var content := [first, Closed("source", [("file", path)])] + rest;
            var node := NodeOf(Tag("disk", attrs, content));
            && FindDisk(node) == Some(node)
            && Find(node, "source") == Some(XmlNode("source", map["file" := path], "", []))
  {
    var source := Closed("source", [("file", path)]);
    var content := [first, source] + rest;
    DiskAttributes();
    AttributesOne("file", path);
    SearchOne(first, "source");
    SearchOne(source, "source");
    hide Search, NodesOf, TextOf;
    assert content == [first] + [source] + rest;
    SearchAppend([first], [source], "source");
    SearchAppend([first] + [source], rest, "source");
    var node := NodeOf(Tag("disk", attrs, content));
    assert FindIn(node.children, "source") == Search(content, "source");
  }

  lemma DiskAttributes()
    ensures Attributes(DISK_ATTRS) == map["type" := "file", "device" := "disk"]
  {
  }

  /** What the listing takes for the disk: the disk of the builder, else the ignition disk. */
  function ExpectedDisk(c: DomainConfig): Option<string> {
    if c.diskPath.Some? then c.diskPath else c.ignitionDisk
  }

  lemma DiskNames()
    ensures ElemName(Disk) == "disk" && ElemName(Driver) == "driver" && ElemName(Source) == "source"
  {
  }

  lemma OneDisk(path: string, first: Markup, rest: seq<Markup>)
    requires first.Closed? && first.name == "driver"
    ensures var disk := SearchDisk([Tag("disk", DISK_ATTRS, [first, Closed("source", [("file", path)])] + rest)]);
            disk.Some? && SourcePath(disk) == Some(path)
  {
    var m := Tag("disk", DISK_ATTRS, [first, Closed("source", [("file", path)])] + rest);
    DiskElement(path, first, rest, DISK_ATTRS);
    NodesOne(m);
    hide NodeOf, NodesOf, Find;
    assert FindDiskIn([NodeOf(m)]) == FindDisk(NodeOf(m));
  }

  lemma SearchDiskTrees(c: DomainConfig)
    ensures c.diskPath.Some? ==> SearchDisk(DiskTrees(c)).Some? && SourcePath(SearchDisk(DiskTrees(c))) == c.diskPath
    ensures c.diskPath.None? ==> SearchDisk(DiskTrees(c)).None?
  {
    DiskNames();
    hide ElemName, SourcePath, EndsWith;
    if c.diskPath.Some? {
      var content := DiskTrees(c)[0].content;
      assert content == [content[0], content[1]] + content[2..];
      hide SearchDisk;
      OneDisk(c.diskPath.value, content[0], content[2..]);
      assert DiskTrees(c) == [Tag("disk", DISK_ATTRS, content)];
    }
  }

  lemma SearchIgnitionTrees(c: DomainConfig)
    ensures c.ignitionDisk.Some? ==>
              SearchDisk(IgnitionTrees(c)).Some? && SourcePath(SearchDisk(IgnitionTrees(c))) == c.ignitionDisk
    ensures c.ignitionDisk.None? ==> SearchDisk(IgnitionTrees(c)).None?
  {
    DiskNames();
    hide ElemName, SourcePath;
    if c.ignitionDisk.Some? {
      var content := IgnitionTrees(c)[0].content;
      assert content == [content[0], content[1]] + content[2..];
      hide SearchDisk;
      OneDisk(c.ignitionDisk.value, content[0], content[2..]);
      assert IgnitionTrees(c) == [Tag("disk", DISK_ATTRS, content)];
    }
  }

  lemma SearchDevices(c: DomainConfig, arch: Arch)
    ensures SourcePath(SearchDisk([DevicesTree(c, arch)])) == ExpectedDisk(c)
    ensures SearchDisk([DevicesTree(c, arch)]).None? <==> ExpectedDisk(c).None?
  {
    OnlyDiskIsDisk(Devices);
    SearchDiskOne(DevicesTree(c, arch));
    SearchDiskTrees(c);
    SearchIgnitionTrees(c);
    BuiltLacksDisk(OtherDevices(c, arch));
    hide DiskTrees, IgnitionTrees, OtherDevices, SearchDisk, ElemName;
    SearchDiskAppend(DiskTrees(c), IgnitionTrees(c));
    SearchDiskAppend(DiskTrees(c) + IgnitionTrees(c), OtherDevices(c, arch));
  }

  lemma {:induction false} NoDiskEntries(metadata: map<string, string>, order: seq<string>)
    requires forall k :: k in order ==> k in metadata
    ensures SearchDisk(EntryTrees(metadata, order)) == None
  {
    if order == [] {
      assert EntryTrees(metadata, order) == [];
    } else {
      var before, last := order[..|order| - 1], order[|order| - 1];
      NoDiskEntries(metadata, before);
      var entry := TextTag(EntryName(last), metadata[last], []);
      assert EntryTrees(metadata, order) == EntryTrees(metadata, before) + [entry];
      SearchDiskAppend(EntryTrees(metadata, before), [entry]);
      assert EntryName(last)[0] == 'b';
      SearchDiskOne(entry);
      TextTagNode(EntryName(last), metadata[last], []);
      assert NodesOf(entry.content) == [];
    }
  }

  lemma NoDiskMetadata(metadata: map<string, string>, order: seq<string>)
    requires forall k :: k in order ==> k in metadata
    ensures SearchDisk(MetadataTrees(metadata, order)) == None
  {
    if order != [] {
      OnlyDiskIsDisk(Metadata);
      OnlyDiskIsDisk(BootcContainer);
      NoDiskEntries(metadata, order);
      hide ElemName, SearchDisk;
      var m := MetadataTrees(metadata, order)[0];
      SearchDiskOne(m);
      SearchDiskOne(m.content[0]);
    }
  }

  lemma DiskReadBack(c: DomainConfig, host: Host, domain: string, order: seq<string>)
    requires forall k :: k in order ==> k in c.metadata
    ensures DiskPath(NodeOf(DomainTree(c, host, domain, order))) == ExpectedDisk(c)
  {
    var basics, platform, devices := Basics(c, host, domain), PlatformTrees(c, host.arch), DevicesTree(c, host.arch);
    var commandline, metadata := CommandlineTrees(c), MetadataTrees(c.metadata, order);
    BuiltLacksDisk(basics);
    BuiltLacksDisk(platform);
    BuiltLacksDisk(commandline);
    NoDiskMetadata(c.metadata, order);
    SearchDevices(c, host.arch);
    DiskSections(basics, platform, devices, commandline, metadata);
    OnlyDiskIsDisk(Domain);
    hide Basics, PlatformTrees, DevicesTree, CommandlineTrees, MetadataTrees, ElemName, Attributes, TextOf;
    var dom := NodeOf(DomainTree(c, host, domain, order));
    assert FindDisk(dom) == SearchDisk([devices]);
  }

  lemma DiskSections(a: seq<Markup>, b: seq<Markup>, m: Markup, d: seq<Markup>, e: seq<Markup>)
    requires SearchDisk(a).None? && SearchDisk(b).None? && SearchDisk(d).None? && SearchDisk(e).None?
    ensures SearchDisk(a + b + [m] + d + e) == SearchDisk([m])
  {
    hide SearchDisk;
    SearchDiskAppend(a, b);
    SearchDiskAppend(a + b, [m]);
    SearchDiskAppend(a + b + [m], d);
    SearchDiskAppend(a + b + [m] + d, e);
  }

  // ---- Labels ---------------------------------------------------------------------

  lemma TrimIsTrimmed(s: string)
    ensures IsTrimmed(Trim(s))
  {
  }

  predicate IsGoodLabel(text: string) {
    text != "" && Trim(text) == text && NoChar(text, ',')
  }

  lemma {:induction false} GoodLabelsStay(labels: seq<string>)
    requires forall l :: l in labels ==> IsGoodLabel(l)
    ensures NonEmptyTrimmed(labels) == labels
  {
    if labels != [] {
      assert labels[0] in labels;
      GoodLabelsStay(labels[1..]);
      assert labels == [labels[0]] + labels[1..];
    }
  }

  lemma GoodLabelEnds(text: string)
    requires IsGoodLabel(text)
    ensures text != "" && !IsSpace(text[0]) && !IsSpace(text[|text| - 1])
  {
  }

  lemma {:induction false} JoinEnds(labels: seq<string>)
    requires labels != [] && forall l :: l in labels ==> IsGoodLabel(l)
    ensures var j := Join(labels, ","); j != "" && !IsSpace(j[0]) && !IsSpace(j[|j| - 1])
  {
    hide IsGoodLabel, IsSpace;
    assert labels[0] in labels;
    GoodLabelEnds(labels[0]);
    if |labels| > 1 {
      JoinEnds(labels[1..]);
      var j, rest := Join(labels, ","), Join(labels[1..], ",");
      assert j[|j| - 1] == rest[|rest| - 1];
    }
  }

  lemma TrimHasNoComma(s: string)
    requires NoChar(s, ',')
    ensures NoChar(Trim(s), ',')
  {
  }

  /** A label list comes back from its joined text exactly when every label is non-empty,
      has no white space at its ends and holds no comma. */
  lemma LabelsReadBack(labels: seq<string>)
    requires labels != []
    ensures Labels(TrimSpace(Join(labels, ","))) == labels <==> forall l :: l in labels ==> IsGoodLabel(l)
  {
    var text := TrimSpace(Join(labels, ","));
    if forall l :: l in labels ==> IsGoodLabel(l) {
      JoinEnds(labels);
      assert text == Join(labels, ",");
      SplitJoin(labels, ',');
      GoodLabelsStay(labels);
    } else if Labels(text) == labels {
      forall l | l in labels
        ensures IsGoodLabel(l)
      {
        var q :| q in Split(text, ',') && l == Trim(q);
        TrimIsTrimmed(q);
        TrimOfTrimmed(l);
        TrimHasNoComma(q);
      }
      assert false;
    }
  }

  // ---- The round trip -------------------------------------------------------------

  /** What the listing reads from a domain built with these settings. Memory above the
      32-bit range is written but not read. */
  function Expected(c: DomainConfig, host: Host): Info {
    var labels := EntryText(c.metadata, KeyName(Label));
    Info(EntryText(c.metadata, KeyName(SourceImage)),
         EntryText(c.metadata, KeyName(Created)),
         if labels.Some? then Labels(labels.value) else [],
         if MemoryMb(c) < U32_LIMIT then Some(MemoryMb(c)) else None,
         Some(Vcpus(c, host)),
         ExpectedDisk(c),
         ParsedText(EntryText(c.metadata, KeyName(SshPort)), U16_LIMIT))
  }

  /** For every configuration, architecture and metadata order, the listing reads back from
      the document what was put into the builder. */
  lemma ExtractBuilt(c: DomainConfig, host: Host, domain: string, order: seq<string>)
    requires IsOrder(c.metadata, order) && KeysApart(c.metadata) && Vcpus(c, host) < U32_LIMIT
    ensures Extract(NodeOf(DomainTree(c, host, domain, order))) == Expected(c, host)
  {
    BasicNames();
    hide ElemName, Basics, Search, Decimal, ParseUnsigned, ParseMemoryMb, Labels, KeyName, EntryText, DiskPath;
    hide Find, FindWithNamespace, NodeOf, DomainTree, KeysApart;
    SearchBasics(c, host, domain);
    FindBasics(c, host, domain, order, "memory");
    FindBasics(c, host, domain, order, "vcpu");
    MemoryReadBack(MemoryMb(c), map["unit" := "MiB"]);
    ParseDecimal(Vcpus(c, host), U32_LIMIT);
    DiskReadBack(c, host, domain, order);
    KeysReadBack(c, host, domain, order);
  }

  lemma KeysReadBack(c: DomainConfig, host: Host, domain: string, order: seq<string>)
    requires IsOrder(c.metadata, order) && KeysApart(c.metadata)
    ensures forall k: Key :: TextOfFound(FindWithNamespace(NodeOf(DomainTree(c, host, domain, order)), KeyName(k))) ==
                             EntryText(c.metadata, KeyName(k))
  {
    forall k: Key
      ensures TextOfFound(FindWithNamespace(NodeOf(DomainTree(c, host, domain, order)), KeyName(k))) ==
              EntryText(c.metadata, KeyName(k))
    {
      KeyReadBack(c, host, domain, order, k);
    }
  }

  /** The settings `run` makes: the image, the port and the joined labels come back exactly
      when the image has no space at its ends and the labels are good. */
  lemma RunReadBack(c: DomainConfig, host: Host, domain: string, order: seq<string>,
                    image: string, port: nat, labels: seq<string>)
    requires IsOrder(c.metadata, order) && KeysApart(c.metadata) && Vcpus(c, host) < U32_LIMIT
    requires labels != [] && port < U16_LIMIT
    requires "bootc:" + KeyName(SourceImage) in c.metadata && c.metadata["bootc:" + KeyName(SourceImage)] == image
    requires "bootc:" + KeyName(SshPort) in c.metadata && c.metadata["bootc:" + KeyName(SshPort)] == Decimal(port)
    requires "bootc:" + KeyName(Label) in c.metadata && c.metadata["bootc:" + KeyName(Label)] == Join(labels, ",")
    ensures var info := Extract(NodeOf(DomainTree(c, host, domain, order)));
            && info.sshPort == Some(port)
            && (info.sourceImage == Some(image) <==> IsTrim(image))
            && (info.labels == labels <==> forall l :: l in labels ==> IsGoodLabel(l))
  {
    hide *;
    ExtractBuilt(c, host, domain, order);
    SetByRun(c.metadata, SourceImage);
    SetByRun(c.metadata, SshPort);
    SetByRun(c.metadata, Label);
    LabelsReadBack(labels);
    DecimalIsTrim(port);
    ParseDecimal(port, U16_LIMIT);
    ExpectedParts(c, host);
    assert TrimSpace(image) == image <==> IsTrim(image);
  }

  lemma SetByRun(metadata: map<string, string>, k: Key)
    requires "bootc:" + KeyName(k) in metadata
    ensures EntryText(metadata, KeyName(k)) == Some(TrimSpace(metadata["bootc:" + KeyName(k)]))
  {
  }

  lemma ExpectedParts(c: DomainConfig, host: Host)
    requires EntryText(c.metadata, KeyName(SshPort)).Some? && EntryText(c.metadata, KeyName(Label)).Some?
    ensures Expected(c, host).sourceImage == EntryText(c.metadata, KeyName(SourceImage))
    ensures Expected(c, host).labels == Labels(EntryText(c.metadata, KeyName(Label)).value)
    ensures Expected(c, host).sshPort == ParseUnsigned(EntryText(c.metadata, KeyName(SshPort)).value, U16_LIMIT)
  {
  }

  // ---- When keys clash, and how the firmware parts agree --------------------------

  /** Of two entries with one element name the first written is read, so keys that are not
      apart make the listing depend on the order of the map. */
  lemma FirstEntryWins(metadata: map<string, string>, order: seq<string>)
    requires order != [] && forall k :: k in order ==> k in metadata
    ensures TextOfFound(Search(EntryTrees(metadata, order), EntryName(order[0]))) == Some(TrimSpace(metadata[order[0]]))
  {
    var name := EntryName(order[0]);
    var first := TextTag(name, metadata[order[0]], []);
    assert EntryTrees(metadata, order) == [first] + EntryTrees(metadata, order[1..]);
    SearchAppend([first], EntryTrees(metadata, order[1..]), name);
    SearchTextTag(name, metadata[order[0]], [], name);
  }

  lemma ClashingKeysReadByOrder(name: string, plain: string, prefixed: string)
    requires !StartsWith(name, "bootc:") && TrimSpace(plain) != TrimSpace(prefixed)
    ensures var metadata := map[name := plain, "bootc:" + name := prefixed];
            && IsOrder(metadata, [name, "bootc:" + name]) && IsOrder(metadata, ["bootc:" + name, name])
            && TextOfFound(Search(EntryTrees(metadata, [name, "bootc:" + name]), "bootc:" + name)) == Some(TrimSpace(plain))
            && TextOfFound(Search(EntryTrees(metadata, ["bootc:" + name, name]), "bootc:" + name)) == Some(TrimSpace(prefixed))
  {
    EntryNameOf(name, name);
    EntryNameOf("bootc:" + name, name);
    hide TrimSpace, EntryName, Search, EntryTrees;
    assert |"bootc:" + name| != |name|;
    var metadata := map[name := plain, "bootc:" + name := prefixed];
    FirstEntryWins(metadata, [name, "bootc:" + name]);
    FirstEntryWins(metadata, ["bootc:" + name, name]);
  }

  predicate HasElement(ms: seq<Markup>, e: Elem) {
    exists m :: m in ms && !m.Chars? && m.name == ElemName(e)
  }

  predicate HasLoader(ms: seq<Markup>, attr: Attr) {
    exists m :: m in ms && !m.Chars? && m.name == ElemName(Loader) && attr in m.attrs
  }

  /** libvirt refuses automatic firmware next to an explicit firmware file: the document never
      has both. */
  lemma FirmwareExclusive(c: DomainConfig, arch: Arch)
    ensures !(("firmware", "efi") in OsTree(c, arch).attrs && HasLoader(OsTree(c, arch).content, ("type", "pflash")))
  {
    LoaderNames();
    hide ElemName;
  }

  lemma LoaderNames()
    ensures forall e: Elem :: e in {OsType, Boot, Cmdline, Nvram} ==> ElemName(e) != ElemName(Loader)
    ensures forall e: Elem :: e in {Acpi, Apic, Vmport} ==> ElemName(e) != ElemName(Smm)
  {
  }

  /** On x86_64 the emulated machine has the mode that secure boot needs exactly when the
      loader asks for secure boot; elsewhere never. */
  lemma SmmMatchesLoader(c: DomainConfig, arch: Arch)
    ensures HasElement(FeaturesTree(c, arch).content, Smm) <==>
            arch.X86_64? && HasLoader(OsTree(c, arch).content, ("secure", "yes"))
  {
    LoaderNames();
    hide ElemName;
    var features := FeaturesTree(c, arch).content;
    if arch.X86_64? && SecureBoot(c) {
      assert features[3] == Leaf(Smm, [("state", "on")]);
      var loader := LoaderTrees(c)[0];
      assert ("secure", "yes") in loader.attrs by {
        assert loader.attrs[|loader.attrs| - 1] == ("secure", "yes");
      }
      assert OsTree(c, arch).content[1] == loader;
    }
  }
}
