/** The libvirt domain builder: its settings, and the document it writes for them. */
module DomainXml {
  import opened Wrappers
  import opened Text
  import opened Xml

  // ---- Names and settings ---------------------------------------------------------

  /** The elements of a domain document, other than the metadata entries. */
  datatype Elem =
    | Domain | Name | Uuid | Memory | CurrentMemory | Vcpu
    | Os | OsType | Loader | Nvram | Boot | Cmdline
    | MemoryBacking | Source | Access | Features | Acpi | Apic | Vmport | Smm | Cpu | Clock | Timer
    | OnPoweroff | OnReboot | OnCrash
    | Devices | Disk | Driver | Target | Transient | Serial | Readonly | Interface | Model
    | Console | Log | Channel | Address | Graphics | Listen | Video | Filesystem | Tpm | Backend
    | QemuCommandline | QemuArg | Metadata | BootcContainer

  function ElemName(e: Elem): string {
    match e
    case Domain => "domain" case Name => "name" case Uuid => "uuid" case Memory => "memory"
    case CurrentMemory => "currentMemory" case Vcpu => "vcpu" case Os => "os" case OsType => "type"
    case Loader => "loader" case Nvram => "nvram" case Boot => "boot" case Cmdline => "cmdline"
    case MemoryBacking => "memoryBacking" case Source => "source" case Access => "access"
    case Features => "features" case Acpi => "acpi" case Apic => "apic" case Vmport => "vmport"
    case Smm => "smm" case Cpu => "cpu" case Clock => "clock" case Timer => "timer"
    case OnPoweroff => "on_poweroff" case OnReboot => "on_reboot" case OnCrash => "on_crash"
    case Devices => "devices" case Disk => "disk" case Driver => "driver" case Target => "target"
    case Transient => "transient" case Serial => "serial" case Readonly => "readonly"
    case Interface => "interface" case Model => "model" case Console => "console" case Log => "log"
    case Channel => "channel" case Address => "address" case Graphics => "graphics"
    case Listen => "listen" case Video => "video" case Filesystem => "filesystem" case Tpm => "tpm"
    case Backend => "backend" case QemuCommandline => "qemu:commandline" case QemuArg => "qemu:arg"
    case Metadata => "metadata" case BootcContainer => "bootc:container"
  }

  datatype Arch = X86_64 | Aarch64

  datatype BuildError = NameRequired | UnsupportedArchitecture(arch: string)

  function DetectArch(arch: string): Result<Arch, BuildError> {
    if arch == "x86_64" then Ok(X86_64)
    else if arch == "aarch64" then Ok(Aarch64)
    else Err(UnsupportedArchitecture(arch))
  }

  function ArchName(arch: Arch): string {
    if arch.X86_64? then "x86_64" else "aarch64"
  }

  datatype FirmwareType = UefiSecure | UefiInsecure | Bios

  datatype FirmwareLogOutput = LogFile(path: string) | LogConsole

  datatype VirtiofsFilesystem = VirtiofsFilesystem(sourceDir: string, tag: string, readonly: bool)

  /** A file with its format, as both firmware files are given. */
  datatype FirmwareFile = FirmwareFile(path: string, format: string)

  /** All settings of a builder at one moment. */
  datatype DomainConfig = DomainConfig(
    name: Option<string>, uuid: Option<string>, memory: Option<nat>, vcpus: Option<nat>,
    diskPath: Option<string>, transientDisk: bool, network: Option<string>, graphicalConsole: bool,
    kernelArgs: Option<string>, metadata: map<string, string>, qemuArgs: seq<string>,
    virtiofs: seq<VirtiofsFilesystem>, firmware: Option<FirmwareType>, tpm: bool,
    ovmfCode: Option<FirmwareFile>, nvram: Option<FirmwareFile>, firmwareLog: Option<FirmwareLogOutput>,
    virtioConsoleLog: Option<string>, serialConsoleLog: Option<string>, fwCfg: seq<(string, string)>,
    ignitionDisk: Option<string>, journalChannel: Option<string>, journalInitrdChannel: Option<string>)

  /** What the host supplies where a setting is missing. */
  datatype Host = Host(arch: Arch, cpus: nat, freshUuid: string)

  const DEFAULT_MEMORY_MB := 4096

  function MemoryMb(c: DomainConfig): nat {
    if c.memory.Some? then c.memory.value else DEFAULT_MEMORY_MB
  }

  function Vcpus(c: DomainConfig, host: Host): nat {
    if c.vcpus.Some? then c.vcpus.value else host.cpus
  }

  predicate UseUefi(c: DomainConfig) {
    c.firmware != Some(Bios)
  }

  predicate SecureBoot(c: DomainConfig) {
    UseUefi(c) && (c.firmware == Some(UefiSecure) || c.ovmfCode.Some?)
  }

  // ---- Building blocks ------------------------------------------------------------

  /** All elements in `m` are named elements of a domain document, disks only if allowed. */
  predicate Built(m: Markup, disks: bool) {
    || m.Chars?
    || (IsElemName(m.name, disks) && (m.Tag? ==> forall c :: c in m.content ==> Built(c, disks)))
  }

  predicate IsElemName(name: string, disks: bool) {
    exists e: Elem :: ElemName(e) == name && (disks || !e.Disk?)
  }

  /** An empty tag. */
  function Leaf(e: Elem, attrs: seq<Attr>): (m: Markup)
    ensures forall disks :: disks || !e.Disk? ==> Built(m, disks)
  {
    Closed(ElemName(e), attrs)
  }

  /** An element that holds text. */
  function Labelled(e: Elem, text: string, attrs: seq<Attr>): (m: Markup)
    ensures forall disks :: disks || !e.Disk? ==> Built(m, disks)
  {
    TextTag(ElemName(e), text, attrs)
  }

  /** An element that holds elements. */
  function Branch(e: Elem, attrs: seq<Attr>, content: seq<Markup>): (m: Markup)
    ensures forall disks :: (disks || !e.Disk?) && (forall c :: c in content ==> Built(c, disks)) ==> Built(m, disks)
  {
    Tag(ElemName(e), attrs, content)
  }

  function AndIf(ms: seq<Markup>, p: bool, m: Markup): (r: seq<Markup>)
    ensures forall x :: x in r ==> x in ms || (p && x == m)
  {
    if p then ms + [m] else ms
  }

  predicate AllBuilt(ms: seq<Markup>, disks: bool) {
    forall m :: m in ms ==> Built(m, disks)
  }

  function AddAll(c: Option<Context>, ms: seq<Markup>): Option<Context> {
    if c.None? then None else Some(c.value.(content := c.value.content + ms))
  }

  lemma AddAllEmpty(c: Option<Context>)
    ensures AddAll(c, []) == c
  {
    if c.Some? {
      assert c.value.content + [] == c.value.content;
    }
  }

  lemma AddAllAppend(c: Option<Context>, a: seq<Markup>, b: seq<Markup>)
    ensures AddAll(AddAll(c, a), b) == AddAll(c, a + b)
  {
    if c.Some? {
      assert (c.value.content + a) + b == c.value.content + (a + b);
    }
  }

  // ---- The document ---------------------------------------------------------------

  function Basics(c: DomainConfig, host: Host, name: string): (r: seq<Markup>)
    ensures AllBuilt(r, false)
  {
    [Labelled(Name, name, []),
     Labelled(Uuid, if c.uuid.Some? then c.uuid.value else host.freshUuid, []),
     Labelled(Memory, Decimal(MemoryMb(c)), [("unit", "MiB")]),
     Labelled(CurrentMemory, Decimal(MemoryMb(c)), [("unit", "MiB")]),
     Labelled(Vcpu, Decimal(Vcpus(c, host)), [])]
  }

  function LoaderTrees(c: DomainConfig): (r: seq<Markup>)
    ensures AllBuilt(r, false)
  {
    if !UseUefi(c) then []
    else if c.ovmfCode.Some? then
      [Labelled(Loader, c.ovmfCode.value.path,
                [("readonly", "yes"), ("type", "pflash"), ("format", c.ovmfCode.value.format), ("secure", "yes")])]
      + if c.nvram.Some? then [Labelled(Nvram, c.nvram.value.path, [("format", c.nvram.value.format)])] else []
    else if SecureBoot(c) then [Leaf(Loader, [("secure", "yes")])]
    else if c.firmware == Some(UefiInsecure) then [Leaf(Loader, [("secure", "no")])]
    else []
  }

  function KernelArgsTrees(c: DomainConfig): (r: seq<Markup>)
    ensures AllBuilt(r, false)
  {
    if c.kernelArgs.Some? then [Labelled(Cmdline, c.kernelArgs.value, [])] else []
  }

  function OsAttrs(c: DomainConfig): seq<Attr> {
    if UseUefi(c) && c.ovmfCode.None? then [("firmware", "efi")] else []
  }

  function Machine(arch: Arch): string {
    if arch.X86_64? then "q35" else "virt"
  }

  function OsTypeTree(arch: Arch): (m: Markup)
    ensures Built(m, false)
  {
    Labelled(OsType, "hvm", [("arch", ArchName(arch)), ("machine", Machine(arch))])
  }

  function OsTree(c: DomainConfig, arch: Arch): (m: Markup)
    ensures Built(m, false)
  {
    Branch(Os, OsAttrs(c),
           [OsTypeTree(arch)] + LoaderTrees(c)
           + [Leaf(Boot, [("dev", "hd")])]
           + KernelArgsTrees(c))
  }

  function MemoryBackingTree(): (m: Markup)
    ensures Built(m, false)
  {
    Branch(MemoryBacking, [], [Leaf(Source, [("type", "memfd")]), Leaf(Access, [("mode", "shared")])])
  }

  function FeaturesTree(c: DomainConfig, arch: Arch): (m: Markup)
    ensures Built(m, false)
  {
    var base := [Leaf(Acpi, []), Leaf(Apic, [])];
    var vmport := AndIf(base, arch.X86_64?, Leaf(Vmport, [("state", "off")]));
    Branch(Features, [], AndIf(vmport, arch.X86_64? && SecureBoot(c), Leaf(Smm, [("state", "on")])))
  }

  function ClockTree(arch: Arch): (m: Markup)
    ensures Built(m, false)
  {
    var rtc := [Leaf(Timer, [("name", "rtc"), ("tickpolicy", "catchup")])];
    var pit := AndIf(rtc, arch.X86_64?, Leaf(Timer, [("name", "pit"), ("tickpolicy", "delay")]));
    Branch(Clock, [("offset", "utc")],
           AndIf(pit, arch.X86_64?, Leaf(Timer, [("name", "hpet"), ("present", "no")])))
  }

  function LifecycleTrees(): (r: seq<Markup>)
    ensures AllBuilt(r, false)
  {
    [Labelled(OnPoweroff, "destroy", []), Labelled(OnReboot, "restart", []), Labelled(OnCrash, "destroy", [])]
  }

  const DISK_ATTRS: seq<Attr> := [("type", "file"), ("device", "disk")]

  function DiskTrees(c: DomainConfig): (r: seq<Markup>)
    ensures AllBuilt(r, true) && (c.diskPath.None? ==> r == [])
  {
    if c.diskPath.None? then []
    else
      var format := if EndsWith(c.diskPath.value, ".qcow2") then "qcow2" else "raw";
      [Branch(Disk, DISK_ATTRS,
              AndIf([Leaf(Driver, [("name", "qemu"), ("type", format)]),
                     Leaf(Source, [("file", c.diskPath.value)]),
                     Leaf(Target, [("dev", "vda"), ("bus", "virtio")])],
                    c.transientDisk, Leaf(Transient, [("shareBacking", "yes")])))]
  }

  function IgnitionTrees(c: DomainConfig): (r: seq<Markup>)
    ensures AllBuilt(r, true) && (c.ignitionDisk.None? ==> r == [])
  {
    if c.ignitionDisk.None? then []
    else
      [Branch(Disk, DISK_ATTRS,
              [Leaf(Driver, [("name", "qemu"), ("type", "raw")]),
               Leaf(Source, [("file", c.ignitionDisk.value)]),
               Leaf(Target, [("dev", "vdb"), ("bus", "virtio")]),
               Labelled(Serial, "ignition", []),
               Leaf(Readonly, [])])]
  }

  function InterfaceTree(kind: string, source: seq<Markup>): (m: Markup)
    requires AllBuilt(source, false)
    ensures Built(m, false)
  {
    Branch(Interface, [("type", kind)], source + [Leaf(Model, [("type", "virtio")])])
  }

  function NetworkTrees(c: DomainConfig): (r: seq<Markup>)
    ensures AllBuilt(r, false)
  {
    var network := if c.network.Some? then c.network.value else "default";
    if network == "none" || network == "default" then []
    else if network == "user" then [InterfaceTree("user", [])]
    else if StartsWith(network, "bridge=") then
      [InterfaceTree("bridge", [Leaf(Source, [("bridge", network[7..])])])]
    else [InterfaceTree("network", [Leaf(Source, [("network", network)])])]
  }

  function ConsoleTree(log: Option<string>, target: string): (m: Markup)
    ensures Built(m, false)
  {
    Branch(Console, [("type", "pty")],
           (if log.Some? then [Leaf(Log, [("file", log.value), ("append", "on")])] else [])
           + [Leaf(Target, [("type", target)])])
  }

  function ChannelTrees(file: Option<string>, port: string): (r: seq<Markup>)
    ensures AllBuilt(r, false)
  {
    if file.None? then []
    else
      [Branch(Channel, [("type", "file")],
              [Leaf(Source, [("path", file.value), ("append", "on")]),
               Branch(Target, [("type", "virtio"), ("name", port)], [])])]
  }

  function FirmwareLogTrees(c: DomainConfig, arch: Arch): (r: seq<Markup>)
    ensures AllBuilt(r, false)
  {
    if !arch.X86_64? || c.firmwareLog.None? then []
    else
      var log := c.firmwareLog.value;
      [Branch(Serial, [("type", if log.LogFile? then "file" else "pty")],
              (if log.LogFile? then [Leaf(Source, [("path", log.path)])] else [])
              + [Branch(Target, [("type", "isa-debug"), ("port", "0")], [Leaf(Model, [("name", "isa-debugcon")])]),
                 Leaf(Address, [("type", "isa"), ("iobase", "0x402")])])]
  }

  function GraphicsTrees(c: DomainConfig): (r: seq<Markup>)
    ensures AllBuilt(r, false)
  {
    if !c.graphicalConsole then []
    else
      [Branch(Graphics, [("type", "spice"), ("autoport", "yes")], [Leaf(Listen, [("type", "address")])]),
       Branch(Video, [], [Leaf(Model, [("type", "virtio"), ("heads", "1"), ("primary", "yes")])]),
       Branch(Channel, [("type", "spicevmc")], [Leaf(Target, [("type", "virtio"), ("name", "com.redhat.spice.0")])])]
  }

  function FilesystemTree(fs: VirtiofsFilesystem): (m: Markup)
    ensures Built(m, false)
  {
    Branch(Filesystem, [("type", "mount"), ("accessmode", "passthrough")],
           AndIf([Leaf(Driver, [("type", "virtiofs"), ("queue", "1024")])], fs.readonly, Leaf(Readonly, []))
           + [Leaf(Source, [("dir", fs.sourceDir)]), Leaf(Target, [("dir", fs.tag)])])
  }

  function FilesystemTrees(list: seq<VirtiofsFilesystem>): (r: seq<Markup>)
    ensures AllBuilt(r, false)
  {
    seq(|list|, i requires 0 <= i < |list| => FilesystemTree(list[i]))
  }

  function TpmTrees(c: DomainConfig): (r: seq<Markup>)
    ensures AllBuilt(r, false)
  {
    if !c.tpm then []
    else [Branch(Tpm, [("model", "tpm-tis")], [Leaf(Backend, [("type", "emulator"), ("version", "2.0")])])]
  }

  /** The devices after the disks. */
  function OtherDevices(c: DomainConfig, arch: Arch): (r: seq<Markup>)
    ensures AllBuilt(r, false)
  {
    NetworkTrees(c)
    + [ConsoleTree(c.serialConsoleLog, "serial"), ConsoleTree(c.virtioConsoleLog, "virtio")]
    + ChannelTrees(c.journalChannel, "org.bcvk.journal")
    + ChannelTrees(c.journalInitrdChannel, "org.bcvk.journal.initrd")
    + FirmwareLogTrees(c, arch) + GraphicsTrees(c) + FilesystemTrees(c.virtiofs) + TpmTrees(c)
  }

  function DevicesTree(c: DomainConfig, arch: Arch): Markup {
    Tag(ElemName(Devices), [], DiskTrees(c) + IgnitionTrees(c) + OtherDevices(c, arch))
  }

  /** The arguments handed to QEMU: the fw_cfg entries before the others. */
  function QemuArguments(fwCfg: seq<(string, string)>, qemuArgs: seq<string>): seq<string> {
    if fwCfg == [] then qemuArgs
    else ["-fw_cfg", "name=" + fwCfg[0].0 + ",file=" + fwCfg[0].1] + QemuArguments(fwCfg[1..], qemuArgs)
  }

  predicate HasCommandline(c: DomainConfig) {
    c.qemuArgs != [] || c.fwCfg != []
  }

  function ArgTrees(args: seq<string>): (r: seq<Markup>)
    ensures |r| == |args| && AllBuilt(r, false)
  {
    seq(|args|, i requires 0 <= i < |args| => Leaf(QemuArg, [("value", args[i])]))
  }

  function CommandlineTrees(c: DomainConfig): (r: seq<Markup>)
    ensures AllBuilt(r, false)
  {
    if !HasCommandline(c) then [] else [Branch(QemuCommandline, [], ArgTrees(QemuArguments(c.fwCfg, c.qemuArgs)))]
  }

  const BOOTC_NAMESPACE := "https://github.com/containers/bootc"
  const QEMU_NAMESPACE := "http://libvirt.org/schemas/domain/qemu/1.0"

  /** The element name of a metadata entry. */
  function EntryName(key: string): string {
    if StartsWith(key, "bootc:") then key else "bootc:" + key
  }

  function EntryTrees(metadata: map<string, string>, order: seq<string>): (r: seq<Markup>)
    requires forall k :: k in order ==> k in metadata
    ensures |r| == |order|
  {
    seq(|order|, i requires 0 <= i < |order| => TextTag(EntryName(order[i]), metadata[order[i]], []))
  }

  /** `order` lists every key once. */
  ghost predicate IsOrder(metadata: map<string, string>, order: seq<string>) {
    && (forall k :: k in order <==> k in metadata)
    && (forall i, j :: 0 <= i < j < |order| ==> order[i] != order[j])
  }

  function MetadataTrees(metadata: map<string, string>, order: seq<string>): seq<Markup>
    requires forall k :: k in order ==> k in metadata
  {
    if order == [] then []
    else
      [Tag(ElemName(Metadata), [],
           [Tag(ElemName(BootcContainer), [("xmlns:bootc", BOOTC_NAMESPACE)], EntryTrees(metadata, order))])]
  }

  /** Everything between the basics and the devices. */
  function PlatformTrees(c: DomainConfig, arch: Arch): (r: seq<Markup>)
    ensures AllBuilt(r, false)
  {
    [OsTree(c, arch), MemoryBackingTree(), FeaturesTree(c, arch), Leaf(Cpu, [("mode", "host-passthrough")]),
     ClockTree(arch)]
    + LifecycleTrees()
  }

  function DomainAttrs(c: DomainConfig): seq<Attr> {
    if HasCommandline(c) then [("type", "kvm"), ("xmlns:qemu", QEMU_NAMESPACE)] else [("type", "kvm")]
  }

  /** The document for the settings, with the metadata in the given order. */
  function DomainTree(c: DomainConfig, host: Host, name: string, order: seq<string>): Markup
    requires forall k :: k in order ==> k in c.metadata
  {
    Tag(ElemName(Domain), DomainAttrs(c),
        Basics(c, host, name) + PlatformTrees(c, host.arch) + [DevicesTree(c, host.arch)]
        + CommandlineTrees(c) + MetadataTrees(c.metadata, order))
  }
}
