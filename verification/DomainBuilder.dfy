/** The builder object: its setters, and the writing of the document piece by piece. */
module DomainBuilding {
  import opened Wrappers
  import opened Text
  import opened Xml
  import opened DomainXml
  import DomainInfo
  import DomainReadBack

  class DomainBuilder {
    var name: Option<string>
    var uuid: Option<string>
    var memory: Option<nat>
    var vcpus: Option<nat>
    var diskPath: Option<string>
    var transientDisk: bool
    var network: Option<string>
    var graphicalConsole: bool
    var kernelArgs: Option<string>
    var metadata: map<string, string>
    var qemuArgs: seq<string>
    var virtiofs: seq<VirtiofsFilesystem>
    var firmware: Option<FirmwareType>
    var tpm: bool
    var ovmfCodePath: Option<string>
    var ovmfCodeFormat: Option<string>
    var nvramPath: Option<string>
    var nvramFormat: Option<string>
    var firmwareLog: Option<FirmwareLogOutput>
    var virtioConsoleLog: Option<string>
    var serialConsoleLog: Option<string>
    var fwCfg: seq<(string, string)>
    var ignitionDisk: Option<string>
    var journalChannel: Option<string>
    var journalInitrdChannel: Option<string>

    /** A firmware file never lacks its format, so that the builder cannot fail on it. */
    predicate Valid()
      reads this
    {
      && (ovmfCodePath.Some? <==> ovmfCodeFormat.Some?)
      && (nvramPath.Some? <==> nvramFormat.Some?)
    }

    function Config(): DomainConfig
      requires Valid()
      reads this
    {
      DomainConfig(name, uuid, memory, vcpus, diskPath, transientDisk, network, graphicalConsole, kernelArgs, metadata,
                   qemuArgs, virtiofs, firmware, tpm,
                   if ovmfCodePath.Some? then Some(FirmwareFile(ovmfCodePath.value, ovmfCodeFormat.value)) else None,
                   if nvramPath.Some? then Some(FirmwareFile(nvramPath.value, nvramFormat.value)) else None,
                   firmwareLog, virtioConsoleLog, serialConsoleLog, fwCfg, ignitionDisk, journalChannel,
                   journalInitrdChannel)
    }

    constructor ()
      ensures Valid()
      ensures Config() == DomainConfig(None, None, None, None, None, false, None, false, None, map[], [], [], None,
                                       true, None, None, None, None, None, [], None, None, None)
    {
      name, uuid, memory, vcpus, diskPath := None, None, None, None, None;
      transientDisk, network, graphicalConsole, kernelArgs := false, None, false, None;
      metadata, qemuArgs, virtiofs, firmware, tpm := map[], [], [], None, true;
      ovmfCodePath, ovmfCodeFormat, nvramPath, nvramFormat := None, None, None, None;
      firmwareLog, virtioConsoleLog, serialConsoleLog, fwCfg := None, None, None, [];
      ignitionDisk, journalChannel, journalInitrdChannel := None, None, None;
    }

    method WithName(value: string)
      requires Valid()
      modifies this
      ensures Valid() && Config() == old(Config()).(name := Some(value))
    {
      name := Some(value);
    }

    method WithMemory(megabytes: nat)
      requires Valid()
      modifies this
      ensures Valid() && Config() == old(Config()).(memory := Some(megabytes))
    {
      memory := Some(megabytes);
    }

    method WithVcpus(count: nat)
      requires Valid()
      modifies this
      ensures Valid() && Config() == old(Config()).(vcpus := Some(count))
    {
      vcpus := Some(count);
    }

    method WithDisk(path: string)
      requires Valid()
      modifies this
      ensures Valid() && Config() == old(Config()).(diskPath := Some(path))
    {
      diskPath := Some(path);
    }

    method WithTransientDisk(transient: bool)
      requires Valid()
      modifies this
      ensures Valid() && Config() == old(Config()).(transientDisk := transient)
    {
      transientDisk := transient;
    }

    method WithNetwork(value: string)
      requires Valid()
      modifies this
      ensures Valid() && Config() == old(Config()).(network := Some(value))
    {
      network := Some(value);
    }

    method WithGraphicalConsole()
      requires Valid()
      modifies this
      ensures Valid() && Config() == old(Config()).(graphicalConsole := true)
    {
      graphicalConsole := true;
    }

    method WithKernelArgs(args: string)
      requires Valid()
      modifies this
      ensures Valid() && Config() == old(Config()).(kernelArgs := Some(args))
    {
      kernelArgs := Some(args);
    }

    method WithMetadata(key: string, value: string)
      requires Valid()
      modifies this
      ensures Valid() && Config() == old(Config()).(metadata := old(metadata)[key := value])
    {
      metadata := metadata[key := value];
    }

    method WithQemuArgs(args: seq<string>)
      requires Valid()
      modifies this
      ensures Valid() && Config() == old(Config()).(qemuArgs := args)
    {
      qemuArgs := args;
    }

    method WithVirtiofsFilesystem(filesystem: VirtiofsFilesystem)
      requires Valid()
      modifies this
      ensures Valid() && Config() == old(Config()).(virtiofs := old(virtiofs) + [filesystem])
    {
      virtiofs := virtiofs + [filesystem];
    }

    method WithFirmware(value: FirmwareType)
      requires Valid()
      modifies this
      ensures Valid() && Config() == old(Config()).(firmware := Some(value))
    {
      firmware := Some(value);
    }

    method WithTpm(value: bool)
      requires Valid()
      modifies this
      ensures Valid() && Config() == old(Config()).(tpm := value)
    {
      tpm := value;
    }

    method WithOvmfCodePath(path: string, format: string)
      requires Valid()
      modifies this
      ensures Valid() && Config() == old(Config()).(ovmfCode := Some(FirmwareFile(path, format)))
    {
      ovmfCodePath := Some(path);
      ovmfCodeFormat := Some(format);
    }

    method WithNvram(path: string, format: string)
      requires Valid()
      modifies this
      ensures Valid() && Config() == old(Config()).(nvram := Some(FirmwareFile(path, format)))
    {
      nvramPath := Some(path);
      nvramFormat := Some(format);
    }

    method WithFirmwareLog(output: FirmwareLogOutput)
      requires Valid()
      modifies this
      ensures Valid() && Config() == old(Config()).(firmwareLog := Some(output))
    {
      firmwareLog := Some(output);
    }

    method WithVirtioConsoleLog(path: string)
      requires Valid()
      modifies this
      ensures Valid() && Config() == old(Config()).(virtioConsoleLog := Some(path))
    {
      virtioConsoleLog := Some(path);
    }

    method WithSerialConsoleLog(path: string)
      requires Valid()
      modifies this
      ensures Valid() && Config() == old(Config()).(serialConsoleLog := Some(path))
    {
      serialConsoleLog := Some(path);
    }

    method AddFwCfg(entry: string, path: string)
      requires Valid()
      modifies this
      ensures Valid() && Config() == old(Config()).(fwCfg := old(fwCfg) + [(entry, path)])
    {
      fwCfg := fwCfg + [(entry, path)];
    }

    method WithIgnitionDisk(path: string)
      requires Valid()
      modifies this
      ensures Valid() && Config() == old(Config()).(ignitionDisk := Some(path))
    {
      ignitionDisk := Some(path);
    }

    method WithJournalChannelFile(path: string)
      requires Valid()
      modifies this
      ensures Valid() && Config() == old(Config()).(journalChannel := Some(path))
    {
      journalChannel := Some(path);
    }

    method WithJournalInitrdChannelFile(path: string)
      requires Valid()
      modifies this
      ensures Valid() && Config() == old(Config()).(journalInitrdChannel := Some(path))
    {
      journalInitrdChannel := Some(path);
    }

    /** Writes the document: one well-nested root from which the listing reads back exactly
        the settings. */
    method BuildXml(hostArch: string, cpus: nat, freshUuid: string)
      returns (r: Result<seq<Event>, BuildError>, ghost order: seq<string>)
      requires Valid()
      ensures name.None? ==> r == Err(NameRequired)
      ensures name.Some? && DetectArch(hostArch).Err? ==> r == Err(DetectArch(hostArch).error)
      ensures name.Some? && DetectArch(hostArch).Ok? ==>
                var host := Host(DetectArch(hostArch).value, cpus, freshUuid);
                && r.Ok? && IsOrder(metadata, order)
                && IsDocument(r.value, DomainTree(Config(), host, name.value, order))
                && Parse(Tokens(r.value)).Ok?
                && DomainReadBack.SettingsReadBack(Parse(Tokens(r.value)).value, Config(), host, name.value, order)
                && (DomainInfo.KeysApart(metadata) && Vcpus(Config(), host) < DomainInfo.U32_LIMIT ==>
                      DomainInfo.Extract(Parse(Tokens(r.value)).value) == DomainInfo.Expected(Config(), host))
    {
      order := [];
      if name.None? {
        return Err(NameRequired), [];
      }
      var detected := DetectArch(hostArch);
      if detected.Err? {
        return Err(detected.error), [];
      }
      ghost var host := Host(detected.value, cpus, freshUuid);
      var writer := new XmlWriter();
      order := WriteDomain(writer, name.value, detected.value, cpus, freshUuid);
      ghost var m := DomainTree(Config(), host, name.value, order);
      assert [] + [m] == [m];
      ParsedDocument(writer.events, m);
      DomainReadBack.DocumentReadsBack(Config(), host, name.value, order);
      hide DomainTree, NodeOf;
      if DomainInfo.KeysApart(metadata) && Vcpus(Config(), host) < DomainInfo.U32_LIMIT {
        DomainInfo.ExtractBuilt(Config(), host, name.value, order);
      }
      r := Ok(writer.events);
    }

    method WriteDomain(writer: XmlWriter, domain: string, arch: Arch, cpus: nat, freshUuid: string)
      returns (ghost order: seq<string>)
      requires Valid()
      modifies writer
      ensures IsOrder(metadata, order)
      ensures writer.Tree() ==
              Add(old(writer.Tree()), DomainTree(Config(), Host(arch, cpus, freshUuid), domain, order))
    {
      hide ContextOf, ElemName, Basics, PlatformTrees, DevicesTree, CommandlineTrees, MetadataTrees;
      ghost var c, host := Config(), Host(arch, cpus, freshUuid);
      ghost var before := writer.Tree();
      if qemuArgs == [] && fwCfg == [] {
        writer.StartElement(ElemName(Domain), [("type", "kvm")]);
      } else {
        writer.StartElement(ElemName(Domain), [("type", "kvm"), ("xmlns:qemu", QEMU_NAMESPACE)]);
      }
      ghost var open := writer.Tree();
      AddAllEmpty(open);
      WriteBasics(writer, domain, cpus, freshUuid, host);
      WritePlatform(writer, arch);
      WriteDevices(writer, arch);
      WriteCommandline(writer);
      order := WriteMetadata(writer);
      ghost var content := Basics(c, host, domain) + PlatformTrees(c, arch) + [DevicesTree(c, arch)]
                           + CommandlineTrees(c) + MetadataTrees(c.metadata, order);
      assert [] + Basics(c, host, domain) == Basics(c, host, domain);
      assert writer.Tree() == Enter(before, ElemName(Domain), DomainAttrs(c), content);
      writer.EndElement(ElemName(Domain));
    }

    method WriteBasics(writer: XmlWriter, domain: string, cpus: nat, freshUuid: string, ghost host: Host)
      requires Valid() && host.cpus == cpus && host.freshUuid == freshUuid
      modifies writer
      ensures writer.Tree() == AddAll(old(writer.Tree()), Basics(Config(), host, domain))
    {
      hide ContextOf, ElemName, TextTag;
      var megabytes := if memory.Some? then memory.value else DEFAULT_MEMORY_MB;
      var count := if vcpus.Some? then vcpus.value else cpus;
      var id := if uuid.Some? then uuid.value else freshUuid;
      writer.WriteTextElement(ElemName(Name), domain);
      writer.WriteTextElement(ElemName(Uuid), id);
      writer.WriteTextElementWithAttrs(ElemName(Memory), Decimal(megabytes), [("unit", "MiB")]);
      writer.WriteTextElementWithAttrs(ElemName(CurrentMemory), Decimal(megabytes), [("unit", "MiB")]);
      writer.WriteTextElement(ElemName(Vcpu), Decimal(count));
      ghost var b := Basics(Config(), host, domain);
      AddAllFive(old(writer.Tree()), b);
    }

    method WritePlatform(writer: XmlWriter, arch: Arch)
      requires Valid()
      modifies writer
      ensures writer.Tree() == AddAll(old(writer.Tree()), PlatformTrees(Config(), arch))
    {
      hide ContextOf, ElemName, TextTag, OsTree, FeaturesTree, ClockTree, MemoryBackingTree;
      ghost var before := writer.Tree();
      WriteOs(writer, arch);
      WriteMemoryBacking(writer);
      WriteFeatures(writer, arch);
      writer.WriteEmptyElement(ElemName(Cpu), [("mode", "host-passthrough")]);
      WriteClock(writer, arch);
      ghost var p := PlatformTrees(Config(), arch);
      AddAllFive(before, p[..5]);
      label lifecycle:
      writer.WriteTextElement(ElemName(OnPoweroff), "destroy");
      writer.WriteTextElement(ElemName(OnReboot), "restart");
      writer.WriteTextElement(ElemName(OnCrash), "destroy");
      AddAllThree(old@lifecycle(writer.Tree()), LifecycleTrees());
      AddAllAppend(before, p[..5], LifecycleTrees());
      assert p == p[..5] + LifecycleTrees();
    }

    method WriteOs(writer: XmlWriter, arch: Arch)
      requires Valid()
      modifies writer
      ensures writer.Tree() == Add(old(writer.Tree()), OsTree(Config(), arch))
    {
      hide ContextOf, ElemName, TextTag, Built, AllBuilt;
      ghost var c, before := Config(), writer.Tree();
      var useUefi := firmware != Some(Bios);
      var secureBoot := useUefi && (firmware == Some(UefiSecure) || ovmfCodePath.Some?);
      var attrs: seq<Attr> := if useUefi && ovmfCodePath.None? then [("firmware", "efi")] else [];
      assert attrs == OsAttrs(c);
      hide OsAttrs, OsTypeTree, LoaderTrees, KernelArgsTrees;
      writer.StartElement(ElemName(Os), attrs);
      WriteOsType(writer, arch, secureBoot);
      assert [] + [OsTypeTree(arch)] == [OsTypeTree(arch)];
      ghost var typed := Enter(before, ElemName(Os), attrs, [OsTypeTree(arch)]);
      assert writer.Tree() == typed;
      if useUefi {
        WriteLoader(writer, secureBoot);
      } else {
        NoLoader(c);
        AddAllEmpty(typed);
      }
      assert writer.Tree() == AddAll(typed, LoaderTrees(c));
      WriteBoot(writer);
      writer.EndElement(ElemName(Os));
    }

    /** Secure boot asks for the machine type that x86_64 has anyway. */
    method WriteOsType(writer: XmlWriter, arch: Arch, secureBoot: bool)
      modifies writer
      ensures writer.Tree() == Add(old(writer.Tree()), OsTypeTree(arch))
    {
      var machine := if secureBoot && arch.X86_64? then "q35" else Machine(arch);
      writer.WriteTextElementWithAttrs(ElemName(OsType), "hvm", [("arch", ArchName(arch)), ("machine", machine)]);
    }

    method WriteBoot(writer: XmlWriter)
      requires Valid()
      modifies writer
      ensures writer.Tree() == AddAll(Add(old(writer.Tree()), Leaf(Boot, [("dev", "hd")])), KernelArgsTrees(Config()))
    {
      hide ContextOf, ElemName, TextTag;
      writer.WriteEmptyElement(ElemName(Boot), [("dev", "hd")]);
      AddAllEmpty(writer.Tree());
      if kernelArgs.Some? {
        writer.WriteTextElement(ElemName(Cmdline), kernelArgs.value);
      }
    }

    method WriteLoader(writer: XmlWriter, secureBoot: bool)
      requires Valid() && UseUefi(Config()) && secureBoot == SecureBoot(Config())
      modifies writer
      ensures writer.Tree() == AddAll(old(writer.Tree()), LoaderTrees(Config()))
    {
      hide ContextOf, ElemName, TextTag;
      AddAllEmpty(writer.Tree());
      if ovmfCodePath.Some? {
        var attrs := [("readonly", "yes"), ("type", "pflash"), ("format", ovmfCodeFormat.value)];
        if secureBoot {
          attrs := attrs + [("secure", "yes")];
        }
        assert attrs == [("readonly", "yes"), ("type", "pflash"), ("format", ovmfCodeFormat.value), ("secure", "yes")];
        writer.WriteTextElementWithAttrs(ElemName(Loader), ovmfCodePath.value, attrs);
        if nvramPath.Some? {
          writer.WriteTextElementWithAttrs(ElemName(Nvram), nvramPath.value, [("format", nvramFormat.value)]);
        }
        AddAllTwo(old(writer.Tree()), LoaderTrees(Config()));
      } else if secureBoot {
        writer.WriteEmptyElement(ElemName(Loader), [("secure", "yes")]);
      } else if firmware == Some(UefiInsecure) {
        writer.WriteEmptyElement(ElemName(Loader), [("secure", "no")]);
      }
    }

    method WriteMemoryBacking(writer: XmlWriter)
      modifies writer
      ensures writer.Tree() == Add(old(writer.Tree()), MemoryBackingTree())
    {
      hide ContextOf, ElemName;
      writer.StartElement(ElemName(MemoryBacking), []);
      writer.WriteEmptyElement(ElemName(Source), [("type", "memfd")]);
      writer.WriteEmptyElement(ElemName(Access), [("mode", "shared")]);
      ghost var content := MemoryBackingTree().content;
      assert [] + [content[0]] + [content[1]] == content;
      writer.EndElement(ElemName(MemoryBacking));
    }

    method WriteFeatures(writer: XmlWriter, arch: Arch)
      requires Valid()
      modifies writer
      ensures writer.Tree() == Add(old(writer.Tree()), FeaturesTree(Config(), arch))
    {
      hide ContextOf, ElemName;
      var useUefi := firmware != Some(Bios);
      var secureBoot := useUefi && (firmware == Some(UefiSecure) || ovmfCodePath.Some?);
      writer.StartElement(ElemName(Features), []);
      writer.WriteEmptyElement(ElemName(Acpi), []);
      writer.WriteEmptyElement(ElemName(Apic), []);
      ghost var acpi, apic := Leaf(Acpi, []), Leaf(Apic, []);
      assert [] + [acpi] + [apic] == [acpi, apic];
      if arch.X86_64? {
        writer.WriteEmptyElement(ElemName(Vmport), [("state", "off")]);
        if secureBoot {
          writer.WriteEmptyElement(ElemName(Smm), [("state", "on")]);
        }
      }
      writer.EndElement(ElemName(Features));
    }

    method WriteClock(writer: XmlWriter, arch: Arch)
      modifies writer
      ensures writer.Tree() == Add(old(writer.Tree()), ClockTree(arch))
    {
      hide ContextOf, ElemName;
      writer.StartElement(ElemName(Clock), [("offset", "utc")]);
      writer.WriteEmptyElement(ElemName(Timer), [("name", "rtc"), ("tickpolicy", "catchup")]);
      ghost var rtc := Leaf(Timer, [("name", "rtc"), ("tickpolicy", "catchup")]);
      assert [] + [rtc] == [rtc];
      if arch.X86_64? {
        writer.WriteEmptyElement(ElemName(Timer), [("name", "pit"), ("tickpolicy", "delay")]);
        writer.WriteEmptyElement(ElemName(Timer), [("name", "hpet"), ("present", "no")]);
      }
      writer.EndElement(ElemName(Clock));
    }

    // ---- Devices ------------------------------------------------------------------

    method WriteDevices(writer: XmlWriter, arch: Arch)
      requires Valid()
      modifies writer
      ensures writer.Tree() == Add(old(writer.Tree()), DevicesTree(Config(), arch))
    {
      hide ContextOf, ElemName, DiskTrees, IgnitionTrees, OtherDevices;
      ghost var c, before := Config(), writer.Tree();
      writer.StartElement(ElemName(Devices), []);
      WriteDisk(writer);
      WriteIgnitionDisk(writer);
      WriteOtherDevices(writer, arch);
      assert [] + DiskTrees(c) == DiskTrees(c);
      assert writer.Tree() == Enter(before, ElemName(Devices), [], DevicesTree(c, arch).content);
      writer.EndElement(ElemName(Devices));
    }

    method WriteDisk(writer: XmlWriter)
      requires Valid()
      modifies writer
      ensures writer.Tree() == AddAll(old(writer.Tree()), DiskTrees(Config()))
    {
      hide ContextOf, ElemName;
      AddAllEmpty(writer.Tree());
      if diskPath.Some? {
        var format := if EndsWith(diskPath.value, ".qcow2") then "qcow2" else "raw";
        writer.StartElement(ElemName(Disk), DISK_ATTRS);
        writer.WriteEmptyElement(ElemName(Driver), [("name", "qemu"), ("type", format)]);
        writer.WriteEmptyElement(ElemName(Source), [("file", diskPath.value)]);
        writer.WriteEmptyElement(ElemName(Target), [("dev", "vda"), ("bus", "virtio")]);
        ghost var base := [Leaf(Driver, [("name", "qemu"), ("type", format)]),
                           Leaf(Source, [("file", diskPath.value)]),
                           Leaf(Target, [("dev", "vda"), ("bus", "virtio")])];
        assert [] + [base[0]] + [base[1]] + [base[2]] == base;
        if transientDisk {
          writer.WriteEmptyElement(ElemName(Transient), [("shareBacking", "yes")]);
        }
        writer.EndElement(ElemName(Disk));
      }
    }

    method WriteIgnitionDisk(writer: XmlWriter)
      requires Valid()
      modifies writer
      ensures writer.Tree() == AddAll(old(writer.Tree()), IgnitionTrees(Config()))
    {
      hide ContextOf, ElemName, TextTag;
      AddAllEmpty(writer.Tree());
      if ignitionDisk.Some? {
        writer.StartElement(ElemName(Disk), DISK_ATTRS);
        writer.WriteEmptyElement(ElemName(Driver), [("name", "qemu"), ("type", "raw")]);
        writer.WriteEmptyElement(ElemName(Source), [("file", ignitionDisk.value)]);
        writer.WriteEmptyElement(ElemName(Target), [("dev", "vdb"), ("bus", "virtio")]);
        writer.WriteTextElement(ElemName(Serial), "ignition");
        writer.WriteEmptyElement(ElemName(Readonly), []);
        ghost var content := IgnitionTrees(Config())[0].content;
        assert [] + [content[0]] + [content[1]] + [content[2]] + [content[3]] + [content[4]] == content;
        writer.EndElement(ElemName(Disk));
      }
    }

    method WriteOtherDevices(writer: XmlWriter, arch: Arch)
      requires Valid()
      modifies writer
      ensures writer.Tree() == AddAll(old(writer.Tree()), OtherDevices(Config(), arch))
    {
      hide ContextOf, NetworkTrees, ConsoleTree, ChannelTrees, FirmwareLogTrees, GraphicsTrees, FilesystemTrees, TpmTrees;
      ghost var c, t := Config(), writer.Tree();
      WriteNetwork(writer);
      WriteConsole(writer, serialConsoleLog, "serial");
      WriteConsole(writer, virtioConsoleLog, "virtio");
      ghost var consoles := [ConsoleTree(c.serialConsoleLog, "serial"), ConsoleTree(c.virtioConsoleLog, "virtio")];
      AddAllTwo(AddAll(t, NetworkTrees(c)), consoles);
      WriteChannel(writer, journalChannel, "org.bcvk.journal");
      WriteChannel(writer, journalInitrdChannel, "org.bcvk.journal.initrd");
      WriteFirmwareLog(writer, arch);
      WriteGraphics(writer);
      WriteFilesystems(writer);
      WriteTpm(writer);
      ghost var parts := [NetworkTrees(c), consoles, ChannelTrees(c.journalChannel, "org.bcvk.journal"),
                          ChannelTrees(c.journalInitrdChannel, "org.bcvk.journal.initrd"),
                          FirmwareLogTrees(c, arch), GraphicsTrees(c), FilesystemTrees(c.virtiofs), TpmTrees(c)];
      AddAllEight(t, parts);
    }

    method WriteNetwork(writer: XmlWriter)
      requires Valid()
      modifies writer
      ensures writer.Tree() == AddAll(old(writer.Tree()), NetworkTrees(Config()))
    {
      hide ContextOf, ElemName, InterfaceTree;
      var config := if network.Some? then network.value else "default";
      AddAllEmpty(writer.Tree());
      if config == "none" || config == "default" {
      } else if config == "user" {
        WriteInterface(writer, "user", []);
      } else if StartsWith(config, "bridge=") {
        WriteInterface(writer, "bridge", [("bridge", config[7..])]);
      } else {
        WriteInterface(writer, "network", [("network", config)]);
      }
    }

    /** One interface element; `source` is empty for user-mode networking. */
    method WriteInterface(writer: XmlWriter, kind: string, source: seq<Attr>)
      modifies writer
      ensures writer.Tree() ==
              Add(old(writer.Tree()), InterfaceTree(kind, if source == [] then [] else [Leaf(Source, source)]))
    {
      hide ContextOf, ElemName;
      writer.StartElement(ElemName(Interface), [("type", kind)]);
      ghost var sources := if source == [] then [] else [Leaf(Source, source)];
      if source != [] {
        writer.WriteEmptyElement(ElemName(Source), source);
        assert [] + [Leaf(Source, source)] == sources;
      }
      writer.WriteEmptyElement(ElemName(Model), [("type", "virtio")]);
      writer.EndElement(ElemName(Interface));
    }

    method WriteConsole(writer: XmlWriter, log: Option<string>, target: string)
      modifies writer
      ensures writer.Tree() == Add(old(writer.Tree()), ConsoleTree(log, target))
    {
      hide ContextOf, ElemName;
      writer.StartElement(ElemName(Console), [("type", "pty")]);
      if log.Some? {
        writer.WriteEmptyElement(ElemName(Log), [("file", log.value), ("append", "on")]);
        ghost var first := Leaf(Log, [("file", log.value), ("append", "on")]);
        assert [] + [first] == [first];
      }
      writer.WriteEmptyElement(ElemName(Target), [("type", target)]);
      writer.EndElement(ElemName(Console));
    }

    method WriteChannel(writer: XmlWriter, file: Option<string>, port: string)
      modifies writer
      ensures writer.Tree() == AddAll(old(writer.Tree()), ChannelTrees(file, port))
    {
      hide ContextOf, ElemName;
      AddAllEmpty(writer.Tree());
      if file.Some? {
        writer.StartElement(ElemName(Channel), [("type", "file")]);
        writer.WriteEmptyElement(ElemName(Source), [("path", file.value), ("append", "on")]);
        writer.StartElement(ElemName(Target), [("type", "virtio"), ("name", port)]);
        writer.EndElement(ElemName(Target));
        ghost var content := ChannelTrees(file, port)[0].content;
        assert [] + [content[0]] + [content[1]] == content;
        writer.EndElement(ElemName(Channel));
      }
    }

    method WriteFirmwareLog(writer: XmlWriter, arch: Arch)
      requires Valid()
      modifies writer
      ensures writer.Tree() == AddAll(old(writer.Tree()), FirmwareLogTrees(Config(), arch))
    {
      hide ContextOf, ElemName;
      AddAllEmpty(writer.Tree());
      if arch.X86_64? && firmwareLog.Some? {
        var kind := if firmwareLog.value.LogFile? then "file" else "pty";
        writer.StartElement(ElemName(Serial), [("type", kind)]);
        if firmwareLog.value.LogFile? {
          writer.WriteEmptyElement(ElemName(Source), [("path", firmwareLog.value.path)]);
        }
        WriteHolder(writer, Target, [("type", "isa-debug"), ("port", "0")], Model, [("name", "isa-debugcon")]);
        writer.WriteEmptyElement(ElemName(Address), [("type", "isa"), ("iobase", "0x402")]);
        ghost var content := FirmwareLogTrees(Config(), arch)[0].content;
        if firmwareLog.value.LogFile? {
          assert [] + [content[0]] + [content[1]] + [content[2]] == content;
        } else {
          assert [] + [content[0]] + [content[1]] == content;
        }
        writer.EndElement(ElemName(Serial));
      }
    }

    method WriteGraphics(writer: XmlWriter)
      requires Valid()
      modifies writer
      ensures writer.Tree() == AddAll(old(writer.Tree()), GraphicsTrees(Config()))
    {
      hide ContextOf, ElemName;
      AddAllEmpty(writer.Tree());
      if graphicalConsole {
        WriteHolder(writer, Graphics, [("type", "spice"), ("autoport", "yes")], Listen, [("type", "address")]);
        WriteHolder(writer, Video, [], Model, [("type", "virtio"), ("heads", "1"), ("primary", "yes")]);
        WriteHolder(writer, Channel, [("type", "spicevmc")],
                    Target, [("type", "virtio"), ("name", "com.redhat.spice.0")]);
        AddAllThree(old(writer.Tree()), GraphicsTrees(Config()));
      }
    }

    /** An element that holds one empty element. */
    method WriteHolder(writer: XmlWriter, outer: Elem, attrs: seq<Attr>, inner: Elem, innerAttrs: seq<Attr>)
      modifies writer
      ensures writer.Tree() == Add(old(writer.Tree()), Branch(outer, attrs, [Leaf(inner, innerAttrs)]))
    {
      hide ContextOf, ElemName;
      writer.StartElement(ElemName(outer), attrs);
      writer.WriteEmptyElement(ElemName(inner), innerAttrs);
      assert [] + [Leaf(inner, innerAttrs)] == [Leaf(inner, innerAttrs)];
      writer.EndElement(ElemName(outer));
    }

    method WriteFilesystems(writer: XmlWriter)
      requires Valid()
      modifies writer
      ensures writer.Tree() == AddAll(old(writer.Tree()), FilesystemTrees(Config().virtiofs))
    {
      hide ContextOf, FilesystemTree;
      ghost var before := writer.Tree();
      AddAllEmpty(before);
      for i := 0 to |virtiofs|
        invariant writer.Tree() == AddAll(before, FilesystemTrees(virtiofs)[..i])
      {
        WriteFilesystem(writer, virtiofs[i]);
        ghost var trees := FilesystemTrees(virtiofs);
        AddAllAppend(before, trees[..i], [trees[i]]);
        assert trees[..i + 1] == trees[..i] + [trees[i]];
      }
      assert FilesystemTrees(virtiofs)[..|virtiofs|] == FilesystemTrees(virtiofs);
    }

    method WriteFilesystem(writer: XmlWriter, filesystem: VirtiofsFilesystem)
      modifies writer
      ensures writer.Tree() == Add(old(writer.Tree()), FilesystemTree(filesystem))
    {
      hide ContextOf, ElemName;
      writer.StartElement(ElemName(Filesystem), [("type", "mount"), ("accessmode", "passthrough")]);
      writer.WriteEmptyElement(ElemName(Driver), [("type", "virtiofs"), ("queue", "1024")]);
      if filesystem.readonly {
        writer.WriteEmptyElement(ElemName(Readonly), []);
      }
      writer.WriteEmptyElement(ElemName(Source), [("dir", filesystem.sourceDir)]);
      writer.WriteEmptyElement(ElemName(Target), [("dir", filesystem.tag)]);
      ghost var content := FilesystemTree(filesystem).content;
      if filesystem.readonly {
        assert [] + [content[0]] + [content[1]] + [content[2]] + [content[3]] == content;
      } else {
        assert [] + [content[0]] + [content[1]] + [content[2]] == content;
      }
      writer.EndElement(ElemName(Filesystem));
    }

    method WriteTpm(writer: XmlWriter)
      requires Valid()
      modifies writer
      ensures writer.Tree() == AddAll(old(writer.Tree()), TpmTrees(Config()))
    {
      hide ContextOf, ElemName;
      AddAllEmpty(writer.Tree());
      if tpm {
        WriteHolder(writer, Tpm, [("model", "tpm-tis")], Backend, [("type", "emulator"), ("version", "2.0")]);
      }
    }

    // ---- Command line and metadata ------------------------------------------------

    method WriteCommandline(writer: XmlWriter)
      requires Valid()
      modifies writer
      ensures writer.Tree() == AddAll(old(writer.Tree()), CommandlineTrees(Config()))
    {
      hide ContextOf, ElemName, QemuArguments, ArgTrees;
      AddAllEmpty(writer.Tree());
      if qemuArgs != [] || fwCfg != [] {
        ghost var args := QemuArguments(fwCfg, qemuArgs);
        writer.StartElement(ElemName(QemuCommandline), []);
        WriteArguments(writer);
        assert [] + ArgTrees(args) == ArgTrees(args);
        writer.EndElement(ElemName(QemuCommandline));
      }
    }

    method WriteArguments(writer: XmlWriter)
      requires Valid()
      modifies writer
      ensures writer.Tree() == AddAll(old(writer.Tree()), ArgTrees(QemuArguments(fwCfg, qemuArgs)))
    {
      hide *;
      ghost var inside := writer.Tree();
      AddAllEmpty(inside);
      ArgTreesEmpty();
      ghost var args := QemuArguments(fwCfg, qemuArgs);
      ghost var done: seq<string> := [];
      for i := 0 to |fwCfg|
        invariant writer.Tree() == AddAll(inside, ArgTrees(done))
        invariant done + QemuArguments(fwCfg[i..], qemuArgs) == args
      {
        WriteArgument(writer, inside, done, "-fw_cfg");
        WriteArgument(writer, inside, done + ["-fw_cfg"], "name=" + fwCfg[i].0 + ",file=" + fwCfg[i].1);
        QemuArgumentsHead(fwCfg[i..], qemuArgs);
        assert fwCfg[i..][1..] == fwCfg[i + 1..];
        done := done + ["-fw_cfg"] + ["name=" + fwCfg[i].0 + ",file=" + fwCfg[i].1];
      }
      QemuArgumentsEnd(qemuArgs);
      for i := 0 to |qemuArgs|
        invariant writer.Tree() == AddAll(inside, ArgTrees(done))
        invariant done + qemuArgs[i..] == args
      {
        WriteArgument(writer, inside, done, qemuArgs[i]);
        done := done + [qemuArgs[i]];
      }
      assert done == args;
    }

    method WriteArgument(writer: XmlWriter, ghost inside: Option<Context>, ghost done: seq<string>, arg: string)
      requires writer.Tree() == AddAll(inside, ArgTrees(done))
      modifies writer
      ensures writer.Tree() == AddAll(inside, ArgTrees(done + [arg]))
    {
      hide ContextOf;
      writer.WriteEmptyElement(ElemName(QemuArg), [("value", arg)]);
      ArgTreesAdd(inside, done, arg);
    }

    /** Writes the entries in the order the map yields them, which is any order. */
    method WriteMetadata(writer: XmlWriter) returns (ghost order: seq<string>)
      requires Valid()
      modifies writer
      ensures IsOrder(metadata, order)
      ensures writer.Tree() == AddAll(old(writer.Tree()), MetadataTrees(metadata, order))
    {
      hide ContextOf, ElemName, EntryName, TextTag;
      order := [];
      AddAllEmpty(writer.Tree());
      if metadata != map[] {
        writer.StartElement(ElemName(Metadata), []);
        writer.StartElement(ElemName(BootcContainer), [("xmlns:bootc", BOOTC_NAMESPACE)]);
        ghost var inside := writer.Tree();
        AddAllEmpty(inside);
        assert EntryTrees(metadata, order) == [];
        var rest := metadata.Keys;
        while rest != {}
          invariant forall k :: k in order <==> k in metadata.Keys - rest
          invariant forall i, j :: 0 <= i < j < |order| ==> order[i] != order[j]
          invariant rest <= metadata.Keys
          invariant writer.Tree() == AddAll(inside, EntryTrees(metadata, order))
          decreases rest
        {
          var key :| key in rest;
          writer.WriteTextElement(EntryName(key), metadata[key]);
          EntryTreesAdd(inside, metadata, order, key);
          assert key !in order && forall k :: k in order + [key] <==> k in order || k == key;
          order := order + [key];
          rest := rest - {key};
        }
        assert order != [] by {
          var k :| k in metadata;
          assert k in order;
        }
        ghost var entries := EntryTrees(metadata, order);
        assert [] + entries == entries;
        writer.EndElement(ElemName(BootcContainer));
        ghost var container := Tag(ElemName(BootcContainer), [("xmlns:bootc", BOOTC_NAMESPACE)], entries);
        assert [] + [container] == [container];
        writer.EndElement(ElemName(Metadata));
      }
    }
  }

  // ---- Helper lemmas --------------------------------------------------------------

  lemma AddAllTwo(c: Option<Context>, ms: seq<Markup>)
    ensures |ms| == 2 ==> AddAll(c, ms) == Add(Add(c, ms[0]), ms[1])
    ensures |ms| == 1 ==> AddAll(c, ms) == Add(c, ms[0])
  {
    if c.Some? && |ms| == 2 {
      assert c.value.content + ms == c.value.content + [ms[0]] + [ms[1]];
    }
    if |ms| == 1 {
      assert ms == [ms[0]];
    }
  }

  lemma AddAllThree(c: Option<Context>, ms: seq<Markup>)
    requires |ms| == 3
    ensures AddAll(c, ms) == Add(Add(Add(c, ms[0]), ms[1]), ms[2])
  {
    if c.Some? {
      assert c.value.content + ms == c.value.content + [ms[0]] + [ms[1]] + [ms[2]];
    }
  }

  lemma AddAllFive(c: Option<Context>, ms: seq<Markup>)
    requires |ms| == 5
    ensures AddAll(c, ms) == Add(Add(Add(Add(Add(c, ms[0]), ms[1]), ms[2]), ms[3]), ms[4])
  {
    if c.Some? {
      assert c.value.content + ms == c.value.content + [ms[0]] + [ms[1]] + [ms[2]] + [ms[3]] + [ms[4]];
    }
  }

  lemma AddAllEight(c: Option<Context>, p: seq<seq<Markup>>)
    requires |p| == 8
    ensures AddAll(AddAll(AddAll(AddAll(AddAll(AddAll(AddAll(AddAll(c, p[0]), p[1]), p[2]), p[3]), p[4]), p[5]), p[6]), p[7])
         == AddAll(c, p[0] + p[1] + p[2] + p[3] + p[4] + p[5] + p[6] + p[7])
  {
    AddAllAppend(c, p[0], p[1]);
    AddAllAppend(c, p[0] + p[1], p[2]);
    AddAllAppend(c, p[0] + p[1] + p[2], p[3]);
    AddAllAppend(c, p[0] + p[1] + p[2] + p[3], p[4]);
    AddAllAppend(c, p[0] + p[1] + p[2] + p[3] + p[4], p[5]);
    AddAllAppend(c, p[0] + p[1] + p[2] + p[3] + p[4] + p[5], p[6]);
    AddAllAppend(c, p[0] + p[1] + p[2] + p[3] + p[4] + p[5] + p[6], p[7]);
  }

  lemma NoLoader(c: DomainConfig)
    requires !UseUefi(c)
    ensures LoaderTrees(c) == []
  {
  }

  lemma ArgTreesEmpty()
    ensures ArgTrees([]) == []
  {
  }

  lemma ArgTreesAdd(c: Option<Context>, args: seq<string>, arg: string)
    ensures AddAll(c, ArgTrees(args + [arg])) == Add(AddAll(c, ArgTrees(args)), Leaf(QemuArg, [("value", arg)]))
  {
    assert ArgTrees(args + [arg]) == ArgTrees(args) + [Leaf(QemuArg, [("value", arg)])];
    AddAllAppend(c, ArgTrees(args), [Leaf(QemuArg, [("value", arg)])]);
  }

  lemma QemuArgumentsHead(fwCfg: seq<(string, string)>, qemuArgs: seq<string>)
    requires fwCfg != []
    ensures QemuArguments(fwCfg, qemuArgs) ==
            ["-fw_cfg"] + ["name=" + fwCfg[0].0 + ",file=" + fwCfg[0].1] + QemuArguments(fwCfg[1..], qemuArgs)
  {
  }

  lemma QemuArgumentsEnd(qemuArgs: seq<string>)
    ensures QemuArguments([], qemuArgs) == qemuArgs
  {
  }

  lemma EntryTreesAdd(c: Option<Context>, metadata: map<string, string>, order: seq<string>, key: string)
    requires (forall k :: k in order ==> k in metadata) && key in metadata
    ensures AddAll(c, EntryTrees(metadata, order + [key])) ==
            Add(AddAll(c, EntryTrees(metadata, order)), TextTag(EntryName(key), metadata[key], []))
  {
    var tag := TextTag(EntryName(key), metadata[key], []);
    assert EntryTrees(metadata, order + [key]) == EntryTrees(metadata, order) + [tag];
    AddAllAppend(c, EntryTrees(metadata, order), [tag]);
  }
}
