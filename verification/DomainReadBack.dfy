/** The whole domain document, read back section by section. */
module DomainReadBack {
  import opened Wrappers
  import opened Text
  import opened Xml
  import opened DomainXml
  import opened DomainSettings

  // ---- What the document says of the settings -------------------------------------

  predicate BasicsReadBack(dom: XmlNode, c: DomainConfig, host: Host, domain: string) {
    var megabytes := Decimal(if c.memory.Some? then c.memory.value else 4096);
    && TextBelow(dom, "name") == Some(TrimSpace(domain))
    && TextBelow(dom, "uuid") == Some(TrimSpace(if c.uuid.Some? then c.uuid.value else host.freshUuid))
    && TextBelow(dom, "memory") == Some(megabytes) && Below(dom, "memory", "unit") == Some("MiB")
    && TextBelow(dom, "currentMemory") == Some(megabytes) && Below(dom, "currentMemory", "unit") == Some("MiB")
    && TextBelow(dom, "vcpu") == Some(Decimal(if c.vcpus.Some? then c.vcpus.value else host.cpus))
  }

  /** The loader, given the children of the section on booting. */
  predicate LoaderReadBack(os: XmlNode, c: DomainConfig) {
    var secure := Below(os, "loader", "secure");
    if c.firmware == Some(Bios) then Kids(os, "loader") == [] && Kids(os, "nvram") == []
    else if c.ovmfCode.Some? then
      && TextBelow(os, "loader") == Some(TrimSpace(c.ovmfCode.value.path)) && secure == Some("yes")
      && Below(os, "loader", "format") == Some(c.ovmfCode.value.format) && Below(os, "loader", "type") == Some("pflash")
      && (if c.nvram.None? then Kids(os, "nvram") == []
          else TextBelow(os, "nvram") == Some(TrimSpace(c.nvram.value.path))
               && Below(os, "nvram", "format") == Some(c.nvram.value.format))
    else
      && Kids(os, "nvram") == []
      && secure == match c.firmware
                   case Some(UefiSecure) => Some("yes")
                   case Some(UefiInsecure) => Some("no")
                   case _ => None
  }

  predicate OsReadBack(os: XmlNode, c: DomainConfig, arch: Arch) {
    && AttrOf(os, "firmware") == (if c.firmware != Some(Bios) && c.ovmfCode.None? then Some("efi") else None)
    && Below(os, "type", "arch") == Some(if arch.X86_64? then "x86_64" else "aarch64")
    && Below(os, "type", "machine") == Some(if arch.X86_64? then "q35" else "virt")
    && LoaderReadBack(os, c)
    && Below(os, "boot", "dev") == Some("hd")
    && TextBelow(os, "cmdline") == (if c.kernelArgs.None? then None else Some(TrimSpace(c.kernelArgs.value)))
  }

  // ---- Sections -------------------------------------------------------------------

  lemma TextKidAt(m: Markup, i: nat, key: string)
    requires m.Tag? && i < |m.content| && OnlyOne(m.content, i)
    ensures Kids(NodeOf(m), m.content[i].name) == [NodeOf(m.content[i])]
    ensures TextBelow(NodeOf(m), m.content[i].name) == Some(NodeOf(m.content[i]).text)
    ensures Below(NodeOf(m), m.content[i].name, key) == AttrOf(NodeOf(m.content[i]), key)
    ensures Contents(NodeOf(m), m.content[i].name) == NodeOf(m.content[i]).children
  {
    PickedSole(m.content, i);
    hide NodeOf, Picked;
    MarkupKids(m, m.content[i].name);
  }

  lemma NoKid(m: Markup, name: string)
    requires m.Tag? && NoChars(m.content) && forall k :: k in m.content ==> k.name != name
    ensures Kids(NodeOf(m), name) == []
  {
    PickedAbsent(m.content, name);
    hide NodeOf, Picked;
    MarkupKids(m, name);
  }

  /** Length and first letter of a name. */
  function Mark(e: Elem): int {
    |ElemName(e)| * 256 + if ElemName(e) == "" then 0 else ElemName(e)[0] as int
  }

  lemma MarksApart(d: Elem, e: Elem)
    ensures Mark(d) != Mark(e) ==> ElemName(d) != ElemName(e)
  {
    hide ElemName;
  }

  lemma FirstMarks()
    ensures Mark(Name) == 1134 && Mark(Uuid) == 1141 && Mark(Memory) == 1645 && Mark(CurrentMemory) == 3427
    ensures ElemName(Name) == "name" && ElemName(Uuid) == "uuid"
  {
  }

  lemma SecondMarks()
    ensures Mark(Vcpu) == 1142 && Mark(Os) == 623 && Mark(MemoryBacking) == 3437 && Mark(Features) == 2150
    ensures ElemName(Vcpu) == "vcpu" && ElemName(Os) == "os"
  {
  }

  lemma ThirdMarks()
    ensures Mark(Cpu) == 867 && Mark(Clock) == 1379 && Mark(OnPoweroff) == 2927 && Mark(OnReboot) == 2415
  {
  }

  lemma LastMarks()
    ensures Mark(OnCrash) == 2159 && Mark(Devices) == 1892 && Mark(QemuCommandline) == 4209 && Mark(Metadata) == 2157
    ensures ElemName(Devices) == "devices" && ElemName(QemuCommandline) == "qemu:commandline"
  {
  }

  lemma BasicNames()
    ensures ElemName(Memory) == "memory" && ElemName(CurrentMemory) == "currentMemory" && ElemName(Domain) == "domain"
    ensures ElemName(Metadata) == "metadata" && ElemName(BootcContainer) == "bootc:container"
  {
  }

  const TOP := [Name, Uuid, Memory, CurrentMemory, Vcpu, Os, MemoryBacking, Features, Cpu, Clock, OnPoweroff, OnReboot,
                OnCrash, Devices]

  /** The sections of a document, in order. */
  function Sections(commandline: bool, metadata: bool): seq<Elem> {
    TOP + (if commandline then [QemuCommandline] else []) + if metadata then [Metadata] else []
  }

  predicate AllMarksApart(es: seq<Elem>) {
    forall i, j :: 0 <= i < j < |es| ==> Mark(es[i]) != Mark(es[j])
  }

  lemma SectionsApart(commandline: bool, metadata: bool)
    ensures AllMarksApart(Sections(commandline, metadata))
  {
    FirstMarks();
    SecondMarks();
    ThirdMarks();
    LastMarks();
    hide Mark, ElemName;
  }

  // ---- The document ---------------------------------------------------------------

  lemma DomainTreeIs(c: DomainConfig, host: Host, domain: string, order: seq<string>)
    requires forall k :: k in order ==> k in c.metadata
    ensures var m := DomainTree(c, host, domain, order);
            && m.Tag? && m.name == ElemName(Domain) && m.attrs == DomainAttrs(c)
            && m.content == Basics(c, host, domain) + PlatformTrees(c, host.arch) + [DevicesTree(c, host.arch)]
                            + CommandlineTrees(c) + MetadataTrees(c.metadata, order)
  {
    hide ElemName, Basics, PlatformTrees, DevicesTree, CommandlineTrees, MetadataTrees;
  }

  predicate NamedAs(ms: seq<Markup>, es: seq<Elem>) {
    |ms| == |es| && NoChars(ms) && forall i :: 0 <= i < |ms| ==> ms[i].name == ElemName(es[i])
  }

  lemma NamedAsAppend(a: seq<Markup>, b: seq<Markup>, es: seq<Elem>, fs: seq<Elem>)
    requires NamedAs(a, es) && NamedAs(b, fs)
    ensures NamedAs(a + b, es + fs)
  {
    hide ElemName;
  }

  const BASICS := [Name, Uuid, Memory, CurrentMemory, Vcpu]
  const PLATFORM := [Os, MemoryBacking, Features, Cpu, Clock, OnPoweroff, OnReboot, OnCrash]

  lemma SectionsAre(commandline: bool, metadata: bool)
    ensures Sections(commandline, metadata) ==
            BASICS + PLATFORM + [Devices] + (if commandline then [QemuCommandline] else []) + if metadata then [Metadata] else []
    ensures |BASICS| == 5 && |PLATFORM| == 8
  {
  }

  lemma DocumentSections(c: DomainConfig, host: Host, domain: string, order: seq<string>)
    requires forall k :: k in order ==> k in c.metadata
    ensures DomainTree(c, host, domain, order).Tag?
    ensures NamedAs(DomainTree(c, host, domain, order).content, Sections(HasCommandline(c), order != []))
  {
    DomainTreeIs(c, host, domain, order);
    SectionsAre(HasCommandline(c), order != []);
    BasicsShape(c, host, domain);
    PlatformShape(c, host.arch);
    RestShape(c, host.arch, order);
    hide *;
    var basics, platform := Basics(c, host, domain), PlatformTrees(c, host.arch);
    var commandline, metadata := CommandlineTrees(c), MetadataTrees(c.metadata, order);
    var last := if HasCommandline(c) then [QemuCommandline] else [];
    NamedAsAppend(basics, platform, BASICS, PLATFORM);
    NamedAsAppend(basics + platform, [DevicesTree(c, host.arch)], BASICS + PLATFORM, [Devices]);
    NamedAsAppend(basics + platform + [DevicesTree(c, host.arch)], commandline, BASICS + PLATFORM + [Devices], last);
    NamedAsAppend(basics + platform + [DevicesTree(c, host.arch)] + commandline, metadata,
                  BASICS + PLATFORM + [Devices] + last, if order != [] then [Metadata] else []);
  }

  /** Which section is which. */
  lemma SectionTrees(c: DomainConfig, host: Host, domain: string, order: seq<string>)
    requires forall k :: k in order ==> k in c.metadata
    ensures var m := DomainTree(c, host, domain, order);
            && m.Tag? && |m.content| >= 14
            && |m.content| == 14 + (if HasCommandline(c) then 1 else 0) + (if order != [] then 1 else 0)
            && (forall i :: 0 <= i < 5 ==> m.content[i] == Basics(c, host, domain)[i])
            && (forall i :: 5 <= i < 13 ==> m.content[i] == PlatformTrees(c, host.arch)[i - 5])
            && m.content[13] == DevicesTree(c, host.arch)
            && (HasCommandline(c) ==> m.content[14] == CommandlineTrees(c)[0])
            && (order != [] ==> m.content[|m.content| - 1] == MetadataTrees(c.metadata, order)[0])
  {
    DomainTreeIs(c, host, domain, order);
    BasicsShape(c, host, domain);
    PlatformShape(c, host.arch);
    RestShape(c, host.arch, order);
    SectionsAre(HasCommandline(c), order != []);
    hide *;
    PartsInPlace(Basics(c, host, domain), PlatformTrees(c, host.arch), DevicesTree(c, host.arch), CommandlineTrees(c),
                 MetadataTrees(c.metadata, order));
    NamedAsLength(Basics(c, host, domain), BASICS);
    NamedAsLength(PlatformTrees(c, host.arch), PLATFORM);
  }

  lemma NamedAsLength(ms: seq<Markup>, es: seq<Elem>)
    requires NamedAs(ms, es)
    ensures |ms| == |es|
  {
  }

  lemma PartsInPlace(a: seq<Markup>, b: seq<Markup>, m: Markup, d: seq<Markup>, e: seq<Markup>)
    ensures var all := a + b + [m] + d + e;
            && |all| == |a| + |b| + 1 + |d| + |e|
            && (forall i :: 0 <= i < |a| ==> all[i] == a[i])
            && (forall i :: |a| <= i < |a| + |b| ==> all[i] == b[i - |a|])
            && all[|a| + |b|] == m
            && (|d| == 1 ==> all[|a| + |b| + 1] == d[0])
            && (|e| == 1 ==> all[|all| - 1] == e[0])
  {
  }

  lemma BasicsShape(c: DomainConfig, host: Host, domain: string)
    ensures NamedAs(Basics(c, host, domain), BASICS)
  {
    hide ElemName;
  }

  lemma PlatformShape(c: DomainConfig, arch: Arch)
    ensures NamedAs(PlatformTrees(c, arch), PLATFORM)
  {
    hide ElemName, OsAttrs, LoaderTrees, KernelArgsTrees, AndIf, Built;
  }

  lemma RestShape(c: DomainConfig, arch: Arch, order: seq<string>)
    requires forall k :: k in order ==> k in c.metadata
    ensures NamedAs([DevicesTree(c, arch)], [Devices])
    ensures NamedAs(CommandlineTrees(c), if HasCommandline(c) then [QemuCommandline] else [])
    ensures NamedAs(MetadataTrees(c.metadata, order), if order != [] then [Metadata] else [])
    ensures |CommandlineTrees(c)| == (if HasCommandline(c) then 1 else 0)
    ensures |MetadataTrees(c.metadata, order)| == if order != [] then 1 else 0
  {
    hide ElemName, DiskTrees, IgnitionTrees, OtherDevices, ArgTrees, EntryTrees, Built;
  }

  function SectionElems(c: DomainConfig, order: seq<string>): seq<Elem> {
    Sections(HasCommandline(c), order != [])
  }

  /** The only child of its name. */
  predicate Alone(m: Markup, i: nat, name: string) {
    m.Tag? && i < |m.content| && OnlyOne(m.content, i) && m.content[i].name == name
  }

  lemma SectionAlone(c: DomainConfig, host: Host, domain: string, order: seq<string>, i: nat)
    requires forall k :: k in order ==> k in c.metadata
    requires i < |SectionElems(c, order)|
    ensures Alone(DomainTree(c, host, domain, order), i, ElemName(SectionElems(c, order)[i]))
  {
    DocumentSections(c, host, domain, order);
    SectionsApart(HasCommandline(c), order != []);
    hide *;
    SectionElemsAre(c, order);
    NamesAlone(DomainTree(c, host, domain, order), SectionElems(c, order), i);
  }

  lemma SectionElemsAre(c: DomainConfig, order: seq<string>)
    ensures SectionElems(c, order) == Sections(HasCommandline(c), order != [])
  {
  }

  lemma NamesAlone(m: Markup, es: seq<Elem>, i: nat)
    requires m.Tag? && NamedAs(m.content, es) && AllMarksApart(es) && i < |es|
    ensures Alone(m, i, ElemName(es[i]))
  {
    hide ElemName, Mark;
    forall j | 0 <= j < |es| && j != i
      ensures ElemName(es[j]) != ElemName(es[i])
    {
      MarksApart(es[j], es[i]);
    }
  }

  lemma ReadAlone(m: Markup, i: nat, name: string, key: string)
    requires Alone(m, i, name)
    ensures Kids(NodeOf(m), name) == [NodeOf(m.content[i])]
    ensures TextBelow(NodeOf(m), name) == Some(NodeOf(m.content[i]).text)
    ensures Below(NodeOf(m), name, key) == AttrOf(NodeOf(m.content[i]), key)
    ensures Contents(NodeOf(m), name) == NodeOf(m.content[i]).children
  {
    hide NodeOf, Kids, Below, TextBelow, Contents;
    TextKidAt(m, i, key);
  }

  // ---- Basics ---------------------------------------------------------------------

  lemma DecimalTrimmed(n: nat)
    ensures TrimSpace(Decimal(n)) == Decimal(n)
  {
  }

  /** A text element read from the document. */
  lemma LabelRead(m: Markup, i: nat, e: Elem, text: string, attrs: seq<Attr>, key: string)
    requires Alone(m, i, ElemName(e)) && m.content[i] == Labelled(e, text, attrs)
    ensures TextBelow(NodeOf(m), ElemName(e)) == Some(TrimSpace(text))
    ensures Below(NodeOf(m), ElemName(e), key) == if key in Attributes(attrs) then Some(Attributes(attrs)[key]) else None
  {
    LabelNode(e, text, attrs);
    ReadAlone(m, i, ElemName(e), key);
    hide ElemName, Labelled, NodeOf, Kids, Below, TextBelow, Contents;
  }

  /** One of the basics, found in the document. */
  lemma BasicRead(c: DomainConfig, host: Host, domain: string, order: seq<string>, i: nat, e: Elem, text: string,
                  attrs: seq<Attr>)
    requires forall k :: k in order ==> k in c.metadata
    requires i < 5 && Basics(c, host, domain)[i] == Labelled(e, text, attrs) && BASICS[i] == e
    ensures var dom := NodeOf(DomainTree(c, host, domain, order));
            && TextBelow(dom, ElemName(e)) == Some(TrimSpace(text))
            && Below(dom, ElemName(e), "unit") == if "unit" in Attributes(attrs) then Some(Attributes(attrs)["unit"]) else None
  {
    var m := DomainTree(c, host, domain, order);
    SectionTrees(c, host, domain, order);
    BasicElems(c, order);
    SectionAlone(c, host, domain, order, i);
    hide ElemName, Mark, DomainTree, SectionElems, Labelled, NodeOf, Kids, Below, TextBelow, Contents, Alone, Attributes,
      TrimSpace, PlatformTrees, DevicesTree, CommandlineTrees, MetadataTrees, Basics;
    LabelRead(m, i, e, text, attrs, "unit");
  }

  const UNIT: seq<Attr> := [("unit", "MiB")]

  lemma UnitAttributes()
    ensures "unit" in Attributes(UNIT) && Attributes(UNIT)["unit"] == "MiB"
  {
    AttributesOne("unit", "MiB");
  }

  lemma BasicsAre(c: DomainConfig, host: Host, domain: string)
    ensures var b := Basics(c, host, domain);
            && |b| == 5 && b[0] == Labelled(Name, domain, [])
            && b[1] == Labelled(Uuid, if c.uuid.Some? then c.uuid.value else host.freshUuid, [])
            && b[2] == Labelled(Memory, Decimal(MemoryMb(c)), UNIT)
            && b[3] == Labelled(CurrentMemory, Decimal(MemoryMb(c)), UNIT)
            && b[4] == Labelled(Vcpu, Decimal(Vcpus(c, host)), [])
    ensures BASICS[0] == Name && BASICS[1] == Uuid && BASICS[2] == Memory && BASICS[3] == CurrentMemory && BASICS[4] == Vcpu
  {
    hide Labelled, Decimal;
  }

  lemma BasicTextsRead(c: DomainConfig, host: Host, domain: string, order: seq<string>)
    requires forall k :: k in order ==> k in c.metadata
    ensures var dom := NodeOf(DomainTree(c, host, domain, order));
            && TextBelow(dom, "name") == Some(TrimSpace(domain))
            && TextBelow(dom, "uuid") == Some(TrimSpace(if c.uuid.Some? then c.uuid.value else host.freshUuid))
            && TextBelow(dom, "vcpu") == Some(Decimal(Vcpus(c, host)))
  {
    FirstMarks();
    SecondMarks();
    DecimalTrimmed(Vcpus(c, host));
    var id := if c.uuid.Some? then c.uuid.value else host.freshUuid;
    BasicsAre(c, host, domain);
    hide *;
    BasicRead(c, host, domain, order, 0, Name, domain, []);
    BasicRead(c, host, domain, order, 1, Uuid, id, []);
    BasicRead(c, host, domain, order, 4, Vcpu, Decimal(Vcpus(c, host)), []);
  }

  lemma BasicMemoryRead(c: DomainConfig, host: Host, domain: string, order: seq<string>)
    requires forall k :: k in order ==> k in c.metadata
    ensures var dom := NodeOf(DomainTree(c, host, domain, order));
            && TextBelow(dom, "memory") == TextBelow(dom, "currentMemory") == Some(Decimal(MemoryMb(c)))
            && Below(dom, "memory", "unit") == Below(dom, "currentMemory", "unit") == Some("MiB")
  {
    BasicNames();
    DecimalTrimmed(MemoryMb(c));
    UnitAttributes();
    BasicsAre(c, host, domain);
    hide *;
    BasicRead(c, host, domain, order, 2, Memory, Decimal(MemoryMb(c)), UNIT);
    BasicRead(c, host, domain, order, 3, CurrentMemory, Decimal(MemoryMb(c)), UNIT);
  }

  lemma BasicsRead(c: DomainConfig, host: Host, domain: string, order: seq<string>)
    requires forall k :: k in order ==> k in c.metadata
    ensures BasicsReadBack(NodeOf(DomainTree(c, host, domain, order)), c, host, domain)
  {
    hide DomainTree, NodeOf, Below, TextBelow, TrimSpace, Decimal;
    BasicTextsRead(c, host, domain, order);
    BasicMemoryRead(c, host, domain, order);
  }

  lemma BasicElems(c: DomainConfig, order: seq<string>)
    ensures var es := SectionElems(c, order);
            && |es| >= 14 && es[0] == Name && es[1] == Uuid && es[2] == Memory && es[3] == CurrentMemory && es[4] == Vcpu
            && es[5] == Os && es[6] == MemoryBacking && es[7] == Features && es[8] == Cpu && es[9] == Clock
            && es[13] == Devices && (HasCommandline(c) ==> |es| > 14 && es[14] == QemuCommandline)
            && (order != [] ==> es[|es| - 1] == Metadata)
            && forall i :: 0 <= i < 5 ==> es[i] == BASICS[i]
  {
    TopElems();
    hide TOP;
  }

  lemma TopElems()
    ensures |TOP| == 14 && TOP[0] == Name && TOP[1] == Uuid && TOP[2] == Memory && TOP[3] == CurrentMemory && TOP[4] == Vcpu
    ensures TOP[5] == Os && TOP[6] == MemoryBacking && TOP[7] == Features && TOP[8] == Cpu && TOP[9] == Clock
    ensures TOP[13] == Devices
  {
  }

  // ---- Booting --------------------------------------------------------------------

  lemma OsMarks()
    ensures Mark(OsType) == 1140 && Mark(Loader) == 1644 && Mark(Nvram) == 1390 && Mark(Boot) == 1122 && Mark(Cmdline) == 1891
    ensures ElemName(OsType) == "type" && ElemName(Boot) == "boot"
  {
  }

  lemma LoaderNames()
    ensures ElemName(Loader) == "loader" && ElemName(Nvram) == "nvram" && ElemName(Cmdline) == "cmdline"
  {
  }

  function LoaderElems(c: DomainConfig): seq<Elem> {
    if c.firmware == Some(Bios) then []
    else if c.ovmfCode.Some? then [Loader] + if c.nvram.Some? then [Nvram] else []
    else if c.firmware.Some? then [Loader]
    else []
  }

  function OsElems(c: DomainConfig): seq<Elem> {
    [OsType] + LoaderElems(c) + [Boot] + if c.kernelArgs.Some? then [Cmdline] else []
  }

  lemma LoaderShape(c: DomainConfig)
    ensures NamedAs(LoaderTrees(c), LoaderElems(c))
  {
    hide ElemName, Built;
    var trees := LoaderTrees(c);
    if c.firmware == Some(Bios) {
    } else if c.ovmfCode.Some? {
      assert trees[0].name == ElemName(Loader) && !trees[0].Chars?;
      assert c.nvram.Some? ==> trees[1].name == ElemName(Nvram) && !trees[1].Chars?;
      assert |trees| == if c.nvram.Some? then 2 else 1;
    } else if c.firmware.Some? {
      assert c.firmware.value.UefiSecure? || c.firmware.value.UefiInsecure?;
      assert trees[0].name == ElemName(Loader) && !trees[0].Chars? && |trees| == 1;
    } else {
      assert trees == [];
    }
  }

  lemma SmallShapes(c: DomainConfig, arch: Arch)
    ensures NamedAs([OsTypeTree(arch)], [OsType]) && NamedAs([Leaf(Boot, [("dev", "hd")])], [Boot])
    ensures NamedAs(KernelArgsTrees(c), if c.kernelArgs.Some? then [Cmdline] else [])
  {
    hide ElemName, Built;
  }

  lemma OsShape(c: DomainConfig, arch: Arch)
    ensures OsTree(c, arch).Tag? && NamedAs(OsTree(c, arch).content, OsElems(c)) && AllMarksApart(OsElems(c))
  {
    LoaderShape(c);
    SmallShapes(c, arch);
    OsElemsApart(c);
    hide ElemName, Mark, LoaderTrees, LoaderElems, KernelArgsTrees, OsTypeTree, OsAttrs, TextTag, Built, NamedAs, AllMarksApart, Leaf;
    NamedAsAppend([OsTypeTree(arch)], LoaderTrees(c), [OsType], LoaderElems(c));
    NamedAsAppend([OsTypeTree(arch)] + LoaderTrees(c), [Leaf(Boot, [("dev", "hd")])], [OsType] + LoaderElems(c), [Boot]);
    NamedAsAppend([OsTypeTree(arch)] + LoaderTrees(c) + [Leaf(Boot, [("dev", "hd")])], KernelArgsTrees(c),
                  [OsType] + LoaderElems(c) + [Boot], if c.kernelArgs.Some? then [Cmdline] else []);
  }

  lemma OsElemsApart(c: DomainConfig)
    ensures AllMarksApart(OsElems(c))
    ensures forall e :: e in OsElems(c) ==> e in {OsType, Loader, Nvram, Boot, Cmdline}
  {
    OsMarks();
    hide Mark, ElemName;
  }

  lemma OsKid(c: DomainConfig, arch: Arch, i: nat)
    requires i < |OsElems(c)|
    ensures Alone(OsTree(c, arch), i, ElemName(OsElems(c)[i]))
  {
    hide *;
    OsShape(c, arch);
    NamesAlone(OsTree(c, arch), OsElems(c), i);
  }

  lemma NamesMissing(m: Markup, es: seq<Elem>, e: Elem)
    requires m.Tag? && NamedAs(m.content, es) && forall d :: d in es ==> Mark(d) != Mark(e)
    ensures Kids(NodeOf(m), ElemName(e)) == []
  {
    hide ElemName, Mark, NodeOf, Kids;
    forall d | d in es
      ensures ElemName(d) != ElemName(e)
    {
      MarksApart(d, e);
    }
    NoKid(m, ElemName(e));
  }

  lemma OsMissing(c: DomainConfig, arch: Arch, e: Elem)
    requires e in {Loader, Nvram, Cmdline} && e !in OsElems(c)
    ensures Kids(NodeOf(OsTree(c, arch)), ElemName(e)) == []
  {
    OsShape(c, arch);
    OsElemsApart(c);
    OsMarks();
    hide ElemName, Mark, OsTree, OsElems, NodeOf, Kids, AllMarksApart, NamedAs;
    NamesMissing(OsTree(c, arch), OsElems(c), e);
  }

  lemma OsContent(c: DomainConfig, arch: Arch)
    ensures var m, n := OsTree(c, arch), |LoaderTrees(c)|;
            && m.Tag? && m.name == ElemName(Os) && m.attrs == OsAttrs(c)
            && |m.content| == n + 2 + (if c.kernelArgs.Some? then 1 else 0)
            && m.content[0] == OsTypeTree(arch) && m.content[n + 1] == Leaf(Boot, [("dev", "hd")])
            && (forall i :: 0 <= i < n ==> m.content[i + 1] == LoaderTrees(c)[i])
            && (c.kernelArgs.Some? ==> m.content[n + 2] == Labelled(Cmdline, c.kernelArgs.value, []))
  {
    hide ElemName, LoaderTrees, OsTypeTree, TextTag, Built, OsAttrs;
  }

  /** The firmware attribute and the elements every document has. */
  lemma OsFixedRead(c: DomainConfig, arch: Arch)
    ensures var os := NodeOf(OsTree(c, arch));
            && AttrOf(os, "firmware") == (if c.firmware != Some(Bios) && c.ovmfCode.None? then Some("efi") else None)
            && Below(os, "boot", "dev") == Some("hd")
  {
    OsContent(c, arch);
    LoaderShape(c);
    OsMarks();
    AttributesOne("firmware", "efi");
    AttributesNone();
    assert OsAttrs(c) == if c.firmware != Some(Bios) && c.ovmfCode.None? then [("firmware", "efi")] else [];
    var m, n := OsTree(c, arch), |LoaderTrees(c)|;
    assert NodeOf(m).attributes == Attributes(OsAttrs(c));
    assert AttrOf(NodeOf(m), "firmware") == if c.firmware != Some(Bios) && c.ovmfCode.None? then Some("efi") else None;
    LeafOne(Boot, ("dev", "hd"));
    assert OsElems(c)[n + 1] == Boot && |OsElems(c)| > n + 1;
    hide ElemName, Mark, OsTree, NodeOf, Below, AttrOf, Attributes, LoaderTrees, Alone, OsElems, Kids, TextBelow, Contents, Leaf;
    OsKid(c, arch, n + 1);
    ReadAlone(m, n + 1, "boot", "dev");
  }

  lemma OsTypeRead(c: DomainConfig, arch: Arch)
    ensures var os := NodeOf(OsTree(c, arch));
            && Below(os, "type", "arch") == Some(if arch.X86_64? then "x86_64" else "aarch64")
            && Below(os, "type", "machine") == Some(if arch.X86_64? then "q35" else "virt")
  {
    OsContent(c, arch);
    OsMarks();
    var m := OsTree(c, arch);
    assert OsElems(c)[0] == OsType;
    OsTypeNode(arch);
    hide ElemName, Mark, OsTree, NodeOf, Below, AttrOf, LoaderTrees, Alone, OsElems, Kids, TextBelow, Contents, OsTypeTree;
    OsKid(c, arch, 0);
    ReadAlone(m, 0, "type", "arch");
    ReadAlone(m, 0, "type", "machine");
  }

  lemma OsTypeNode(arch: Arch)
    ensures var n := NodeOf(OsTypeTree(arch));
            && AttrOf(n, "arch") == Some(if arch.X86_64? then "x86_64" else "aarch64")
            && AttrOf(n, "machine") == Some(if arch.X86_64? then "q35" else "virt")
  {
    LabelNode(OsType, "hvm", [("arch", ArchName(arch)), ("machine", Machine(arch))]);
    AttributesTwo(("arch", ArchName(arch)), ("machine", Machine(arch)));
    hide Attributes, ElemName, TrimSpace, TextTag, NodeOf;
  }

  lemma CmdlineRead(c: DomainConfig, arch: Arch)
    ensures TextBelow(NodeOf(OsTree(c, arch)), "cmdline") ==
            if c.kernelArgs.None? then None else Some(TrimSpace(c.kernelArgs.value))
  {
    LoaderNames();
    var m, n := OsTree(c, arch), |LoaderTrees(c)|;
    if c.kernelArgs.Some? {
      OsContent(c, arch);
      LoaderShape(c);
      assert OsElems(c)[n + 2] == Cmdline && |OsElems(c)| == n + 3;
      LabelNode(Cmdline, c.kernelArgs.value, []);
      hide ElemName, Mark, OsTree, NodeOf, TextBelow, LoaderTrees, LoaderElems, Alone, OsElems, Kids, Below, Contents, Labelled,
        TrimSpace;
      OsKid(c, arch, n + 2);
      ReadAlone(m, n + 2, "cmdline", "");
    } else {
      assert Cmdline !in OsElems(c);
      OsMissing(c, arch, Cmdline);
      BelowIs(NodeOf(m), "cmdline", "");
    }
  }

  lemma LoaderNode(c: DomainConfig)
    requires c.firmware != Some(Bios) && c.ovmfCode.Some?
    ensures var trees, n := LoaderTrees(c), NodeOf(LoaderTrees(c)[0]);
            && |trees| == (if c.nvram.Some? then 2 else 1)
            && n.text == TrimSpace(c.ovmfCode.value.path) && AttrOf(n, "secure") == Some("yes")
            && AttrOf(n, "type") == Some("pflash") && AttrOf(n, "format") == Some(c.ovmfCode.value.format)
  {
    hide ElemName, TrimSpace, Built;
    var attrs := [("readonly", "yes"), ("type", "pflash"), ("format", c.ovmfCode.value.format), ("secure", "yes")];
    LabelNode(Loader, c.ovmfCode.value.path, attrs);
    AttributesFour(attrs[0], attrs[1], attrs[2], attrs[3]);
    assert attrs == [attrs[0], attrs[1], attrs[2], attrs[3]];
    assert LoaderTrees(c)[0] == Labelled(Loader, c.ovmfCode.value.path, attrs);
  }

  lemma NvramNode(c: DomainConfig)
    requires c.firmware != Some(Bios) && c.ovmfCode.Some? && c.nvram.Some?
    ensures |LoaderTrees(c)| == 2
    ensures var n := NodeOf(LoaderTrees(c)[1]);
            n.text == TrimSpace(c.nvram.value.path) && AttrOf(n, "format") == Some(c.nvram.value.format)
  {
    hide ElemName, TrimSpace, Built;
    LabelNode(Nvram, c.nvram.value.path, [("format", c.nvram.value.format)]);
    AttributesOne("format", c.nvram.value.format);
    assert LoaderTrees(c)[1] == Labelled(Nvram, c.nvram.value.path, [("format", c.nvram.value.format)]);
  }

  lemma LoaderAlone(c: DomainConfig, arch: Arch)
    requires LoaderElems(c) != []
    ensures Alone(OsTree(c, arch), 1, ElemName(Loader)) && OsTree(c, arch).content[1] == LoaderTrees(c)[0]
  {
    OsContent(c, arch);
    LoaderShape(c);
    assert OsElems(c)[1] == Loader && |OsElems(c)| >= 3;
    hide ElemName, OsTree, LoaderTrees, LoaderElems, OsElems, Alone;
    OsKid(c, arch, 1);
  }

  lemma NvramAlone(c: DomainConfig, arch: Arch)
    requires c.firmware != Some(Bios) && c.ovmfCode.Some? && c.nvram.Some?
    ensures |LoaderTrees(c)| == 2
    ensures Alone(OsTree(c, arch), 2, ElemName(Nvram)) && OsTree(c, arch).content[2] == LoaderTrees(c)[1]
  {
    OsContent(c, arch);
    LoaderShape(c);
    assert OsElems(c)[2] == Nvram && |OsElems(c)| >= 4;
    hide ElemName, OsTree, LoaderTrees, LoaderElems, OsElems, Alone;
    OsKid(c, arch, 2);
  }

  lemma FileLoaderRead(c: DomainConfig, arch: Arch)
    requires c.firmware != Some(Bios) && c.ovmfCode.Some?
    ensures var os := NodeOf(OsTree(c, arch));
            && TextBelow(os, "loader") == Some(TrimSpace(c.ovmfCode.value.path)) && Below(os, "loader", "secure") == Some("yes")
            && Below(os, "loader", "format") == Some(c.ovmfCode.value.format) && Below(os, "loader", "type") == Some("pflash")
  {
    LoaderNames();
    LoaderNode(c);
    assert LoaderElems(c) != [];
    hide *;
    LoaderAlone(c, arch);
    ReadAlone(OsTree(c, arch), 1, "loader", "secure");
    ReadAlone(OsTree(c, arch), 1, "loader", "type");
    ReadAlone(OsTree(c, arch), 1, "loader", "format");
  }

  lemma NvramRead(c: DomainConfig, arch: Arch)
    requires c.firmware != Some(Bios) && c.ovmfCode.Some?
    ensures var os := NodeOf(OsTree(c, arch));
            if c.nvram.None? then Kids(os, "nvram") == []
            else TextBelow(os, "nvram") == Some(TrimSpace(c.nvram.value.path))
                 && Below(os, "nvram", "format") == Some(c.nvram.value.format)
  {
    LoaderNames();
    if c.nvram.None? {
      assert Nvram !in OsElems(c);
      hide *;
      OsMissing(c, arch, Nvram);
    } else {
      hide *;
      NvramNode(c);
      NvramAlone(c, arch);
      ReadAlone(OsTree(c, arch), 2, "nvram", "format");
    }
  }

  /** An explicit firmware file, with its variables if they are given. */
  lemma ExplicitLoaderRead(c: DomainConfig, arch: Arch)
    requires c.firmware != Some(Bios) && c.ovmfCode.Some?
    ensures LoaderReadBack(NodeOf(OsTree(c, arch)), c)
  {
    FileLoaderRead(c, arch);
    NvramRead(c, arch);
    hide OsTree, NodeOf, TextBelow, Kids, Below, TrimSpace;
  }

  lemma NoLoaderRead(c: DomainConfig, arch: Arch)
    requires c.firmware == Some(Bios) || (c.firmware.None? && c.ovmfCode.None?)
    ensures LoaderReadBack(NodeOf(OsTree(c, arch)), c)
  {
    LoaderNames();
    assert Nvram !in OsElems(c) && Loader !in OsElems(c);
    OsMissing(c, arch, Nvram);
    OsMissing(c, arch, Loader);
    hide ElemName, OsTree, NodeOf, Kids, Below, TextBelow, OsElems;
    BelowIs(NodeOf(OsTree(c, arch)), "loader", "secure");
  }

  lemma NoNvram(c: DomainConfig, arch: Arch)
    requires c.ovmfCode.None?
    ensures Kids(NodeOf(OsTree(c, arch)), ElemName(Nvram)) == []
  {
    assert Nvram !in OsElems(c);
    OsMissing(c, arch, Nvram);
  }

  /** Firmware that libvirt is to choose. */
  lemma ChosenLoaderRead(c: DomainConfig, arch: Arch, answer: string)
    requires c.ovmfCode.None? && c.firmware in {Some(UefiSecure), Some(UefiInsecure)}
    requires answer == if c.firmware == Some(UefiSecure) then "yes" else "no"
    ensures Kids(NodeOf(OsTree(c, arch)), "nvram") == []
    ensures Below(NodeOf(OsTree(c, arch)), "loader", "secure") == Some(answer)
  {
    LoaderNames();
    LoaderChoice(c);
    assert LoaderElems(c) != [];
    hide *;
    NoNvram(c, arch);
    LoaderAlone(c, arch);
    LeafOne(Loader, ("secure", answer));
    ReadAlone(OsTree(c, arch), 1, "loader", "secure");
  }

  lemma AutomaticLoaderRead(c: DomainConfig, arch: Arch)
    requires c.firmware == Some(Bios) || c.ovmfCode.None?
    ensures LoaderReadBack(NodeOf(OsTree(c, arch)), c)
  {
    if c.firmware in {None, Some(Bios)} {
      NoLoaderRead(c, arch);
    } else {
      assert c.firmware.value.UefiSecure? || c.firmware.value.UefiInsecure?;
      ChosenLoaderRead(c, arch, if c.firmware == Some(UefiSecure) then "yes" else "no");
      hide OsTree, NodeOf, Kids, Below, TextBelow;
    }
  }

  lemma LoaderChoice(c: DomainConfig)
    requires c.firmware in {Some(UefiSecure), Some(UefiInsecure)} && c.ovmfCode.None?
    ensures LoaderTrees(c) == [Leaf(Loader, [("secure", if c.firmware == Some(UefiSecure) then "yes" else "no")])]
  {
    hide ElemName;
  }

  lemma OsRead(c: DomainConfig, arch: Arch)
    ensures OsReadBack(NodeOf(OsTree(c, arch)), c, arch)
  {
    OsFixedRead(c, arch);
    OsTypeRead(c, arch);
    CmdlineRead(c, arch);
    if c.firmware != Some(Bios) && c.ovmfCode.Some? {
      ExplicitLoaderRead(c, arch);
    } else {
      AutomaticLoaderRead(c, arch);
    }
    hide OsTree, NodeOf, Below, AttrOf, TextBelow, LoaderReadBack, TrimSpace;
  }

  // ---- Features and clock ---------------------------------------------------------

  function ChildNames(n: XmlNode): seq<string> {
    seq(|n.children|, i requires 0 <= i < |n.children| => n.children[i].name)
  }

  function ChildAttrs(n: XmlNode, key: string): seq<Option<string>> {
    seq(|n.children|, i requires 0 <= i < |n.children| => AttrOf(n.children[i], key))
  }

  predicate FeaturesReadBack(n: XmlNode, c: DomainConfig, arch: Arch) {
    var secure := c.firmware != Some(Bios) && (c.firmware == Some(UefiSecure) || c.ovmfCode.Some?);
    && ChildNames(n) == ["acpi", "apic"] + (if arch.X86_64? then ["vmport"] else [])
                        + (if arch.X86_64? && secure then ["smm"] else [])
    && ChildAttrs(n, "state") == [None, None] + (if arch.X86_64? then [Some("off")] else [])
                                 + (if arch.X86_64? && secure then [Some("on")] else [])
  }

  predicate ClockReadBack(n: XmlNode, arch: Arch) {
    ChildAttrs(n, "name") == [Some("rtc")] + if arch.X86_64? then [Some("pit"), Some("hpet")] else []
  }

  lemma ChildrenRead(m: Markup, key: string)
    requires m.Tag? && NoChars(m.content)
    ensures |ChildNames(NodeOf(m))| == |ChildAttrs(NodeOf(m), key)| == |m.content|
    ensures forall i :: 0 <= i < |m.content| ==>
              && ChildNames(NodeOf(m))[i] == NodeOf(m.content[i]).name
              && ChildAttrs(NodeOf(m), key)[i] == AttrOf(NodeOf(m.content[i]), key)
  {
    NodesAre(m.content);
    assert NodeOf(m).children == NodesOf(m.content);
    hide NodeOf, NodesOf, AttrOf;
  }

  lemma FeatureNames()
    ensures ElemName(Acpi) == "acpi" && ElemName(Apic) == "apic" && ElemName(Vmport) == "vmport" && ElemName(Smm) == "smm"
  {
  }

  const PLAIN := [Leaf(Acpi, []), Leaf(Apic, [])]
  const VMPORT := Leaf(Vmport, [("state", "off")])
  const SMM := Leaf(Smm, [("state", "on")])

  lemma FeaturesShape(c: DomainConfig, arch: Arch)
    ensures var m, secure := FeaturesTree(c, arch), c.firmware != Some(Bios) && (c.firmware == Some(UefiSecure) || c.ovmfCode.Some?);
            && m.Tag? && NoChars(m.content)
            && m.content == if arch.Aarch64? then PLAIN
                            else if secure then PLAIN + [VMPORT, SMM] else PLAIN + [VMPORT]
  {
    hide ElemName, Built;
  }

  /** A plain feature, and one that is switched. */
  lemma FeatureNodes()
    ensures |PLAIN| == 2
    ensures NodeOf(PLAIN[0]).name == "acpi" && AttrOf(NodeOf(PLAIN[0]), "state") == None
    ensures NodeOf(PLAIN[1]).name == "apic" && AttrOf(NodeOf(PLAIN[1]), "state") == None
    ensures NodeOf(VMPORT).name == "vmport" && AttrOf(NodeOf(VMPORT), "state") == Some("off")
    ensures NodeOf(SMM).name == "smm" && AttrOf(NodeOf(SMM), "state") == Some("on")
  {
    FeatureNames();
    AttributesNone();
    LeafOne(Vmport, ("state", "off"));
    LeafOne(Smm, ("state", "on"));
    LeafNode(Acpi, []);
    LeafNode(Apic, []);
    hide ElemName, NodeOf, Attributes;
  }

  lemma FeaturesRead(c: DomainConfig, arch: Arch)
    ensures FeaturesReadBack(NodeOf(FeaturesTree(c, arch)), c, arch)
  {
    var m := FeaturesTree(c, arch);
    FeaturesShape(c, arch);
    FeatureNodes();
    hide ElemName, NodeOf, FeaturesTree, Leaf, AttrOf, NoChars, PLAIN, VMPORT, SMM, ChildNames, ChildAttrs;
    ChildrenRead(m, "state");
  }

  const RTC := Leaf(Timer, [("name", "rtc"), ("tickpolicy", "catchup")])
  const PIT := Leaf(Timer, [("name", "pit"), ("tickpolicy", "delay")])
  const HPET := Leaf(Timer, [("name", "hpet"), ("present", "no")])

  lemma TimerNodes()
    ensures AttrOf(NodeOf(RTC), "name") == Some("rtc") && AttrOf(NodeOf(PIT), "name") == Some("pit")
    ensures AttrOf(NodeOf(HPET), "name") == Some("hpet")
  {
    LeafTwo(Timer, ("name", "rtc"), ("tickpolicy", "catchup"));
    LeafTwo(Timer, ("name", "pit"), ("tickpolicy", "delay"));
    LeafTwo(Timer, ("name", "hpet"), ("present", "no"));
    hide ElemName, NodeOf, AttrOf;
  }

  lemma ClockShape(arch: Arch)
    ensures var m := ClockTree(arch);
            m.Tag? && NoChars(m.content) && m.content == if arch.X86_64? then [RTC, PIT, HPET] else [RTC]
  {
    hide ElemName, Built;
  }

  lemma ClockRead(arch: Arch)
    ensures ClockReadBack(NodeOf(ClockTree(arch)), arch)
  {
    var m := ClockTree(arch);
    TimerNodes();
    ClockShape(arch);
    hide ElemName, NodeOf, ClockTree, Leaf, AttrOf, NoChars, ChildNames, ChildAttrs, RTC, PIT, HPET;
    ChildrenRead(m, "name");
  }

  // ---- Arguments and metadata -----------------------------------------------------

  /** Each fw_cfg entry with its own file, then the other arguments, in order. */
  predicate ArgumentsReadBack(args: seq<Option<string>>, c: DomainConfig) {
    var n := |c.fwCfg|;
    && |args| == 2 * n + |c.qemuArgs|
    && (forall i :: 0 <= i < n ==>
          args[2 * i] == Some("-fw_cfg") && args[2 * i + 1] == Some("name=" + c.fwCfg[i].0 + ",file=" + c.fwCfg[i].1))
    && (forall i :: 0 <= i < |c.qemuArgs| ==> args[2 * n + i] == Some(c.qemuArgs[i]))
  }

  lemma {:induction false} ArgumentsLength(fwCfg: seq<(string, string)>, qemuArgs: seq<string>)
    ensures |QemuArguments(fwCfg, qemuArgs)| == 2 * |fwCfg| + |qemuArgs|
  {
    if fwCfg != [] {
      ArgumentsLength(fwCfg[1..], qemuArgs);
    }
  }

  function EntryArgument(entry: (string, string)): string {
    "name=" + entry.0 + ",file=" + entry.1
  }

  lemma ArgumentsUnfold(fwCfg: seq<(string, string)>, qemuArgs: seq<string>)
    requires fwCfg != []
    ensures var args, rest := QemuArguments(fwCfg, qemuArgs), QemuArguments(fwCfg[1..], qemuArgs);
            && |args| == |rest| + 2 && args[0] == "-fw_cfg" && args[1] == EntryArgument(fwCfg[0])
            && forall k :: 2 <= k < |args| ==> args[k] == rest[k - 2]
  {
  }

  lemma {:induction false} EntryArgumentAt(fwCfg: seq<(string, string)>, qemuArgs: seq<string>, i: nat)
    requires i < |fwCfg|
    ensures var args := QemuArguments(fwCfg, qemuArgs);
            |args| > 2 * i + 1 && args[2 * i] == "-fw_cfg" && args[2 * i + 1] == EntryArgument(fwCfg[i])
  {
    ArgumentsUnfold(fwCfg, qemuArgs);
    hide QemuArguments, EntryArgument;
    if i > 0 {
      EntryArgumentAt(fwCfg[1..], qemuArgs, i - 1);
    }
  }

  lemma {:induction false} PlainArgumentAt(fwCfg: seq<(string, string)>, qemuArgs: seq<string>, i: nat)
    requires i < |qemuArgs|
    ensures var args := QemuArguments(fwCfg, qemuArgs);
            |args| > 2 * |fwCfg| + i && args[2 * |fwCfg| + i] == qemuArgs[i]
  {
    if fwCfg != [] {
      ArgumentsUnfold(fwCfg, qemuArgs);
      hide QemuArguments, EntryArgument;
      PlainArgumentAt(fwCfg[1..], qemuArgs, i);
    }
  }

  lemma ArgTreeNodes(args: seq<string>)
    ensures NoChars(ArgTrees(args))
    ensures forall i :: 0 <= i < |args| ==> AttrOf(NodeOf(ArgTrees(args)[i]), "value") == Some(args[i])
  {
    forall i | 0 <= i < |args|
      ensures !ArgTrees(args)[i].Chars? && AttrOf(NodeOf(ArgTrees(args)[i]), "value") == Some(args[i])
    {
      LeafOne(QemuArg, ("value", args[i]));
      hide ElemName;
      assert ArgTrees(args)[i] == Leaf(QemuArg, [("value", args[i])]);
    }
  }

  lemma CommandlineIs(c: DomainConfig)
    requires HasCommandline(c)
    ensures |CommandlineTrees(c)| == 1 && CommandlineTrees(c)[0].Tag?
    ensures CommandlineTrees(c)[0].content == ArgTrees(QemuArguments(c.fwCfg, c.qemuArgs))
  {
    hide ElemName, ArgTrees, QemuArguments;
  }

  predicate Somes(values: seq<Option<string>>, args: seq<string>) {
    |values| == |args| && forall i :: 0 <= i < |args| ==> values[i] == Some(args[i])
  }

  lemma CommandlineRead(c: DomainConfig)
    requires HasCommandline(c)
    ensures |CommandlineTrees(c)| == 1 && CommandlineTrees(c)[0].Tag?
    ensures Somes(ChildAttrs(NodeOf(CommandlineTrees(c)[0]), "value"), QemuArguments(c.fwCfg, c.qemuArgs))
  {
    var m, args := CommandlineTrees(c)[0], QemuArguments(c.fwCfg, c.qemuArgs);
    CommandlineIs(c);
    ArgTreeNodes(args);
    hide ElemName, NodeOf, QemuArguments, ArgTrees, AttrOf, CommandlineTrees, ChildAttrs, ChildNames, HasCommandline;
    ChildrenRead(m, "value");
  }

  lemma ArgumentsReadAs(values: seq<Option<string>>, c: DomainConfig)
    requires Somes(values, QemuArguments(c.fwCfg, c.qemuArgs))
    ensures ArgumentsReadBack(values, c)
  {
    var n := |c.fwCfg|;
    ArgumentsLength(c.fwCfg, c.qemuArgs);
    hide QemuArguments;
    forall i | 0 <= i < n
      ensures values[2 * i] == Some("-fw_cfg")
      ensures values[2 * i + 1] == Some("name=" + c.fwCfg[i].0 + ",file=" + c.fwCfg[i].1)
    {
      EntryArgumentAt(c.fwCfg, c.qemuArgs, i);
    }
    forall i | 0 <= i < |c.qemuArgs|
      ensures values[2 * n + i] == Some(c.qemuArgs[i])
    {
      PlainArgumentAt(c.fwCfg, c.qemuArgs, i);
    }
  }

  lemma ArgumentsRead(c: DomainConfig)
    requires HasCommandline(c)
    ensures |CommandlineTrees(c)| == 1 && CommandlineTrees(c)[0].Tag?
    ensures ArgumentsReadBack(ChildAttrs(NodeOf(CommandlineTrees(c)[0]), "value"), c)
  {
    hide *;
    CommandlineRead(c);
    ArgumentsReadAs(ChildAttrs(NodeOf(CommandlineTrees(c)[0]), "value"), c);
  }

  /** One entry for every key, under its name with the prefix. */
  predicate MetadataReadBack(entries: seq<XmlNode>, metadata: map<string, string>, order: seq<string>)
    requires forall k :: k in order ==> k in metadata
  {
    && |entries| == |order|
    && forall i :: 0 <= i < |order| ==>
         && entries[i].name == (if StartsWith(order[i], "bootc:") then order[i] else "bootc:" + order[i])
         && entries[i].text == TrimSpace(metadata[order[i]])
  }

  lemma MetadataRead(metadata: map<string, string>, order: seq<string>)
    requires order != [] && forall k :: k in order ==> k in metadata
    ensures var t := MetadataTrees(metadata, order);
            && |t| == 1 && t[0].Tag?
            && |NodeOf(t[0]).children| == 1 && NodeOf(t[0]).children[0].name == "bootc:container"
            && MetadataReadBack(NodeOf(t[0]).children[0].children, metadata, order)
  {
    BasicNames();
    var container := Tag(ElemName(BootcContainer), [("xmlns:bootc", BOOTC_NAMESPACE)], EntryTrees(metadata, order));
    var m := MetadataTrees(metadata, order)[0];
    assert m.content == [container];
    NodesOne(container);
    EntriesRead(metadata, order);
    hide ElemName, EntryTrees, NodesOf, MetadataReadBack, Attributes, TextOf;
  }

  lemma EntriesRead(metadata: map<string, string>, order: seq<string>)
    requires forall k :: k in order ==> k in metadata
    ensures MetadataReadBack(NodesOf(EntryTrees(metadata, order)), metadata, order)
  {
    var trees := EntryTrees(metadata, order);
    forall i | 0 <= i < |order|
      ensures !trees[i].Chars? && NodeOf(trees[i]).name == EntryName(order[i])
      ensures NodeOf(trees[i]).text == TrimSpace(metadata[order[i]])
    {
      TextTagNode(EntryName(order[i]), metadata[order[i]], []);
    }
    hide TrimSpace, NodeOf, NodesOf, TextTag, EntryTrees;
    NodesAre(trees);
  }

  // ---- The whole document ---------------------------------------------------------

  predicate PlatformReadBack(dom: XmlNode, c: DomainConfig, arch: Arch) {
    && |Kids(dom, "os")| == 1 && OsReadBack(Kids(dom, "os")[0], c, arch)
    && |Kids(dom, "features")| == 1 && FeaturesReadBack(Kids(dom, "features")[0], c, arch)
    && |Kids(dom, "clock")| == 1 && ClockReadBack(Kids(dom, "clock")[0], arch)
    && Below(dom, "cpu", "mode") == Some("host-passthrough")
  }

  predicate CommandlineReadBack(dom: XmlNode, c: DomainConfig) {
    && AttrOf(dom, "type") == Some("kvm")
    && if c.qemuArgs == [] && c.fwCfg == [] then
         Kids(dom, "qemu:commandline") == [] && AttrOf(dom, "xmlns:qemu") == None
       else
         && |Kids(dom, "qemu:commandline")| == 1
         && ArgumentsReadBack(ChildAttrs(Kids(dom, "qemu:commandline")[0], "value"), c)
         && AttrOf(dom, "xmlns:qemu") == Some("http://libvirt.org/schemas/domain/qemu/1.0")
  }

  predicate EntriesReadBack(dom: XmlNode, metadata: map<string, string>, order: seq<string>)
    requires forall k :: k in order ==> k in metadata
  {
    if order == [] then Kids(dom, "metadata") == []
    else
      && |Kids(dom, "metadata")| == 1 && |Kids(dom, "metadata")[0].children| == 1
      && Kids(dom, "metadata")[0].children[0].name == "bootc:container"
      && MetadataReadBack(Kids(dom, "metadata")[0].children[0].children, metadata, order)
  }

  /** Every setting of the builder stands where the document's reader looks for it. */
  ghost predicate SettingsReadBack(dom: XmlNode, c: DomainConfig, host: Host, domain: string, order: seq<string>)
    requires forall k :: k in order ==> k in c.metadata
  {
    && dom.name == "domain"
    && BasicsReadBack(dom, c, host, domain)
    && PlatformReadBack(dom, c, host.arch)
    && DevicesReadBack(Contents(dom, "devices"), c, host.arch)
    && CommandlineReadBack(dom, c)
    && EntriesReadBack(dom, c.metadata, order)
  }

  lemma SectionNames()
    ensures ElemName(Features) == "features" && ElemName(Clock) == "clock" && ElemName(Cpu) == "cpu"
  {
  }

  /** A section, found in the document by its name. */
  lemma SectionRead(c: DomainConfig, host: Host, domain: string, order: seq<string>, i: nat, key: string)
    requires forall k :: k in order ==> k in c.metadata
    requires i < |SectionElems(c, order)|
    ensures var m, name := DomainTree(c, host, domain, order), ElemName(SectionElems(c, order)[i]);
            && m.Tag? && i < |m.content| && !m.content[i].Chars?
            && Kids(NodeOf(m), name) == [NodeOf(m.content[i])]
            && Below(NodeOf(m), name, key) == AttrOf(NodeOf(m.content[i]), key)
            && Contents(NodeOf(m), name) == NodeOf(m.content[i]).children
  {
    SectionAlone(c, host, domain, order, i);
    var m, name := DomainTree(c, host, domain, order), ElemName(SectionElems(c, order)[i]);
    AloneIsElement(m, i, name);
    hide *;
    ReadAlone(m, i, name, key);
  }

  lemma AloneIsElement(m: Markup, i: nat, name: string)
    requires Alone(m, i, name)
    ensures m.Tag? && i < |m.content| && !m.content[i].Chars?
  {
  }

  lemma PlatformTreesAre(c: DomainConfig, arch: Arch)
    ensures var p := PlatformTrees(c, arch);
            && |p| == 8 && p[0] == OsTree(c, arch) && p[2] == FeaturesTree(c, arch)
            && p[3] == Leaf(Cpu, [("mode", "host-passthrough")]) && p[4] == ClockTree(arch)
  {
    hide ElemName, OsTree, FeaturesTree, ClockTree, MemoryBackingTree, Leaf;
  }

  lemma PlatformRead(c: DomainConfig, host: Host, domain: string, order: seq<string>)
    requires forall k :: k in order ==> k in c.metadata
    ensures PlatformReadBack(NodeOf(DomainTree(c, host, domain, order)), c, host.arch)
  {
    SectionTrees(c, host, domain, order);
    BasicElems(c, order);
    PlatformTreesAre(c, host.arch);
    SecondMarks();
    SectionNames();
    LeafOne(Cpu, ("mode", "host-passthrough"));
    OsRead(c, host.arch);
    FeaturesRead(c, host.arch);
    ClockRead(host.arch);
    var dom := NodeOf(DomainTree(c, host, domain, order));
    hide ElemName, Mark, DomainTree, SectionElems, NodeOf, Kids, Below, AttrOf, Contents, PlatformTrees, DevicesTree, CommandlineTrees,
      MetadataTrees, Basics, OsTree, FeaturesTree, ClockTree, Leaf, OsReadBack, FeaturesReadBack, ClockReadBack;
    SectionRead(c, host, domain, order, 5, "");
    SectionRead(c, host, domain, order, 7, "");
    SectionRead(c, host, domain, order, 8, "mode");
    SectionRead(c, host, domain, order, 9, "");
  }

  lemma DomainAttrsRead(c: DomainConfig, host: Host, domain: string, order: seq<string>)
    requires forall k :: k in order ==> k in c.metadata
    ensures var dom := NodeOf(DomainTree(c, host, domain, order));
            && dom.name == ElemName(Domain) && AttrOf(dom, "type") == Some("kvm")
            && AttrOf(dom, "xmlns:qemu") ==
               (if c.qemuArgs == [] && c.fwCfg == [] then None else Some("http://libvirt.org/schemas/domain/qemu/1.0"))
  {
    AttributesOne("type", "kvm");
    AttributesTwo(("type", "kvm"), ("xmlns:qemu", QEMU_NAMESPACE));
    DomainTreeIs(c, host, domain, order);
    var m := DomainTree(c, host, domain, order);
    assert NodeOf(m).name == m.name && NodeOf(m).attributes == Attributes(m.attrs) by {
      hide DomainTree, TextOf, NodesOf, Attributes;
    }
    hide ElemName, DomainTree, Attributes, NodeOf;
  }

  lemma CommandlineFound(c: DomainConfig, host: Host, domain: string, order: seq<string>)
    requires forall k :: k in order ==> k in c.metadata
    ensures CommandlineReadBack(NodeOf(DomainTree(c, host, domain, order)), c)
  {
    DomainAttrsRead(c, host, domain, order);
    LastMarks();
    var m := DomainTree(c, host, domain, order);
    if HasCommandline(c) {
      SectionTrees(c, host, domain, order);
      BasicElems(c, order);
      ArgumentsRead(c);
      hide ElemName, Mark, DomainTree, SectionElems, NodeOf, Kids, Below, AttrOf, Contents, PlatformTrees, DevicesTree,
        CommandlineTrees, MetadataTrees, Basics, ArgumentsReadBack, ChildAttrs;
      SectionRead(c, host, domain, order, 14, "");
    } else {
      SectionMissing(c, host, domain, order, QemuCommandline);
    }
  }

  lemma MissingMark(commandline: bool, metadata: bool, e: Elem)
    requires (e == QemuCommandline && !commandline) || (e == Metadata && !metadata)
    ensures forall d :: d in Sections(commandline, metadata) ==> Mark(d) != Mark(e)
  {
    FirstMarks();
    SecondMarks();
    ThirdMarks();
    LastMarks();
    hide Mark, ElemName;
    assert forall d :: d in TOP ==>
        d in {Name, Uuid, Memory, CurrentMemory, Vcpu, Os, MemoryBacking, Features, Cpu, Clock, OnPoweroff, OnReboot, OnCrash,
              Devices};
    hide TOP;
  }

  lemma SectionMissing(c: DomainConfig, host: Host, domain: string, order: seq<string>, e: Elem)
    requires forall k :: k in order ==> k in c.metadata
    requires (e == QemuCommandline && !HasCommandline(c)) || (e == Metadata && order == [])
    ensures Kids(NodeOf(DomainTree(c, host, domain, order)), ElemName(e)) == []
  {
    hide *;
    DocumentSections(c, host, domain, order);
    MissingMark(HasCommandline(c), order != [], e);
    NamesMissing(DomainTree(c, host, domain, order), Sections(HasCommandline(c), order != []), e);
  }

  lemma SectionCount(c: DomainConfig, order: seq<string>)
    ensures |SectionElems(c, order)| == 14 + (if HasCommandline(c) then 1 else 0) + (if order != [] then 1 else 0)
  {
    TopElems();
    hide TOP;
  }

  lemma MetadataSection(c: DomainConfig, host: Host, domain: string, order: seq<string>)
    requires order != [] && forall k :: k in order ==> k in c.metadata
    ensures |MetadataTrees(c.metadata, order)| == 1 && !MetadataTrees(c.metadata, order)[0].Chars?
    ensures Kids(NodeOf(DomainTree(c, host, domain, order)), ElemName(Metadata)) ==
            [NodeOf(MetadataTrees(c.metadata, order)[0])]
  {
    MetadataRead(c.metadata, order);
    SectionTrees(c, host, domain, order);
    BasicElems(c, order);
    SectionCount(c, order);
    hide *;
    SectionRead(c, host, domain, order, |SectionElems(c, order)| - 1, "");
  }

  lemma MetadataFound(c: DomainConfig, host: Host, domain: string, order: seq<string>)
    requires forall k :: k in order ==> k in c.metadata
    ensures EntriesReadBack(NodeOf(DomainTree(c, host, domain, order)), c.metadata, order)
  {
    BasicNames();
    if order != [] {
      MetadataRead(c.metadata, order);
      MetadataSection(c, host, domain, order);
    } else {
      SectionMissing(c, host, domain, order, Metadata);
    }
    hide ElemName, DomainTree, NodeOf, Kids, MetadataTrees, MetadataReadBack;
  }

  lemma DevicesFound(c: DomainConfig, host: Host, domain: string, order: seq<string>)
    requires forall k :: k in order ==> k in c.metadata
    ensures DevicesReadBack(Contents(NodeOf(DomainTree(c, host, domain, order)), "devices"), c, host.arch)
  {
    SectionTrees(c, host, domain, order);
    BasicElems(c, order);
    LastMarks();
    DevicesRead(c, host.arch);
    assert NodeOf(DevicesTree(c, host.arch)).children == NodesOf(DevicesTree(c, host.arch).content) by {
      hide DevicesTree, Attributes, TextOf;
    }
    hide *;
    SectionRead(c, host, domain, order, 13, "");
  }

  /** The document for any settings reads back as those settings. */
  lemma DocumentReadsBack(c: DomainConfig, host: Host, domain: string, order: seq<string>)
    requires forall k :: k in order ==> k in c.metadata
    ensures SettingsReadBack(NodeOf(DomainTree(c, host, domain, order)), c, host, domain, order)
  {
    BasicNames();
    DomainAttrsRead(c, host, domain, order);
    BasicsRead(c, host, domain, order);
    PlatformRead(c, host, domain, order);
    DevicesFound(c, host, domain, order);
    CommandlineFound(c, host, domain, order);
    MetadataFound(c, host, domain, order);
    hide DomainTree, NodeOf, BasicsReadBack, PlatformReadBack, DevicesReadBack, CommandlineReadBack, EntriesReadBack, Contents,
      AttrOf, ElemName;
  }
}
