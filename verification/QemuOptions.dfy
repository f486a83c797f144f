/** The options on the generated command line, read word by word as QEMU reads them, give back
    the configuration. */
module QemuOptions {
  import opened Wrappers
  import opened Text
  import opened Qemu
  import opened QemuReferences

  // ---- Reading words --------------------------------------------------------------

  datatype Opt = Flag(name: string) | Valued(name: string, value: string)

  /** The options used here that take no value. */
  predicate IsFlag(word: string) {
    word in {"-enable-kvm", "-nographic", "-no-reboot"}
  }

  /** The words of the plain settings, in order. */
  function Words(args: seq<Arg>): seq<string> {
    if args == [] then []
    else
      var last := args[|args| - 1];
      Words(args[..|args| - 1]) + if last.Setting? then last.words else []
  }

  /** Each word is an option; the next one is its value, unless the option takes none. */
  function Options(words: seq<string>): seq<Opt> {
    if words == [] then []
    else if IsFlag(words[0]) || |words| == 1 then [Flag(words[0])] + Options(words[1..])
    else [Valued(words[0], words[1])] + Options(words[2..])
  }

  /** No option at the end lacks its value. */
  predicate Complete(words: seq<string>) {
    if words == [] then true
    else if IsFlag(words[0]) then Complete(words[1..])
    else |words| > 1 && Complete(words[2..])
  }

  /** The values given for an option, in order. */
  function Values(options: seq<Opt>, name: string): seq<string> {
    if options == [] then []
    else
      (if options[0].Valued? && options[0].name == name then [options[0].value] else []) + Values(options[1..], name)
  }

  /** What the command line says for an option. */
  function Given(args: seq<Arg>, name: string): seq<string> {
    Values(Options(Words(args)), name)
  }

  // ---- Reading part by part -------------------------------------------------------

  lemma {:induction false} WordsAppend(a: seq<Arg>, b: seq<Arg>)
    ensures Words(a + b) == Words(a) + Words(b)
  {
    if b == [] {
      assert a + b == a;
    } else {
      assert (a + b)[..|a + b| - 1] == a + b[..|b| - 1];
      WordsAppend(a, b[..|b| - 1]);
    }
  }

  lemma AppendTail<T>(a: seq<T>, b: seq<T>, n: nat)
    requires n <= |a|
    ensures (a + b)[n..] == a[n..] + b
    ensures forall i :: 0 <= i < n ==> (a + b)[i] == a[i]
  {
  }

  lemma {:induction false} OptionsAppend(a: seq<string>, b: seq<string>)
    requires Complete(a)
    ensures Options(a + b) == Options(a) + Options(b)
    ensures Complete(b) ==> Complete(a + b)
    decreases |a|
  {
    if a == [] {
      assert a + b == b;
    } else if IsFlag(a[0]) {
      OptionsAppend(a[1..], b);
      AppendTail(a, b, 1);
    } else {
      OptionsAppend(a[2..], b);
      AppendTail(a, b, 2);
    }
  }

  lemma {:induction false} ValuesAppend(a: seq<Opt>, b: seq<Opt>, name: string)
    ensures Values(a + b, name) == Values(a, name) + Values(b, name)
  {
    if a == [] {
      assert a + b == b;
    } else {
      assert (a + b)[1..] == a[1..] + b;
      ValuesAppend(a[1..], b, name);
    }
  }

  /** The part ends with its last option. */
  predicate Whole(args: seq<Arg>) {
    Complete(Words(args))
  }

  lemma GivenAppend(a: seq<Arg>, b: seq<Arg>, name: string)
    requires Whole(a)
    ensures Given(a + b, name) == Given(a, name) + Given(b, name)
    ensures Whole(b) ==> Whole(a + b)
  {
    WordsAppend(a, b);
    OptionsAppend(Words(a), Words(b));
    ValuesAppend(Options(Words(a)), Options(Words(b)), name);
  }

  /** Other arguments than plain settings give no options. */
  lemma {:induction false} NoSettings(args: seq<Arg>)
    requires forall a :: a in args ==> !a.Setting?
    ensures Words(args) == []
  {
    if args != [] {
      NoSettings(args[..|args| - 1]);
    }
  }

  lemma NothingGiven(args: seq<Arg>, name: string)
    requires forall a :: a in args ==> !a.Setting?
    ensures Whole(args) && Given(args, name) == []
  {
    NoSettings(args);
  }

  /** One option with its value. */
  lemma OneGiven(option: string, value: string, name: string)
    requires !IsFlag(option)
    ensures Whole([Setting([option, value])])
    ensures Given([Setting([option, value])], name) == if option == name then [value] else []
  {
    var args, words := [Setting([option, value])], [option, value];
    assert args[..0] == [];
    assert Words(args) == words;
    OneOption(option, value);
    OneValue(Valued(option, value), name);
  }

  lemma OneOption(option: string, value: string)
    requires !IsFlag(option)
    ensures Options([option, value]) == [Valued(option, value)] && Complete([option, value])
  {
    var words := [option, value];
    assert words[2..] == [];
  }

  lemma OneValue(o: Opt, name: string)
    ensures Values([o], name) == if o.Valued? && o.name == name then [o.value] else []
  {
    assert [o][1..] == [];
  }

  lemma WordsOfOne(words: seq<string>)
    ensures Words([Setting(words)]) == words
  {
    assert [Setting(words)][..0] == [];
  }

  /** Two settings that were given in one call read as two. */
  lemma SplitSetting(a: seq<string>, b: seq<string>, name: string)
    requires Complete(a)
    ensures Given([Setting(a + b)], name) == Given([Setting(a)], name) + Given([Setting(b)], name)
    ensures Complete(b) ==> Whole([Setting(a + b)])
  {
    WordsOfOne(a);
    WordsOfOne(b);
    WordsOfOne(a + b);
    OptionsAppend(a, b);
    ValuesAppend(Options(a), Options(b), name);
  }

  lemma FlagGiven(flag: string, name: string)
    requires IsFlag(flag)
    ensures Whole([Setting([flag])]) && Given([Setting([flag])], name) == [] && Complete([flag])
  {
    WordsOfOne([flag]);
    assert [flag][1..] == [];
    assert Options([flag]) == [Flag(flag)];
    OneValue(Flag(flag), name);
  }

  // ---- The parts ------------------------------------------------------------------

  function If(p: bool, value: string): seq<string> {
    if p then [value] else []
  }

  lemma MachineGiven(c: Config, name: string)
    ensures Whole(MachineType(c))
    ensures Given(MachineType(c), name) ==
            if c.machine.Some? && name == "-machine" then [c.machine.value] else []
  {
    if c.machine.Some? {
      OneGiven("-machine", c.machine.value, name);
    }
  }

  const FIXED := ["-enable-kvm", "-cpu", "host", "-audio", "none"]

  lemma FixedGiven(name: string)
    requires name !in {"-cpu", "-audio"}
    ensures Complete(FIXED) && Given([Setting(FIXED)], name) == []
  {
    FixedOf("-enable-kvm", "-cpu", "host", "-audio", "none", name);
  }

  lemma FixedOf(flag: string, a: string, v: string, b: string, w: string, name: string)
    requires IsFlag(flag) && !IsFlag(a) && !IsFlag(b) && name !in {a, b}
    ensures Complete([flag, a, v, b, w]) && Given([Setting([flag, a, v, b, w])], name) == []
  {
    hide IsFlag;
    FlagGiven(flag, name);
    OneGiven(a, v, name);
    OneGiven(b, w, name);
    OneOption(a, v);
    OneOption(b, w);
    var first, second := [a, v], [b, w];
    hide *;
    SplitSetting(first, second, name);
    WordsOfOne(first + second);
    WholeOne(first + second);
    SplitSetting([flag], first + second, name);
    WholeOne([flag] + (first + second));
    assert [flag, a, v, b, w] == [flag] + (first + second);
  }

  lemma WholeOne(words: seq<string>)
    ensures Whole([Setting(words)]) <==> Complete(words)
  {
    WordsOfOne(words);
  }

  lemma SizeGiven(c: Config, name: string)
    requires name !in {"-cpu", "-audio"}
    ensures Whole(SizeArgs(c))
    ensures Given(SizeArgs(c), name) == If(name == "-m", Decimal(c.memoryMb) + "M") + If(name == "-smp", Decimal(c.vcpus))
  {
    var sizes := ["-m", Decimal(c.memoryMb) + "M", "-smp", Decimal(c.vcpus)];
    TwoGiven("-m", Decimal(c.memoryMb) + "M", "-smp", Decimal(c.vcpus), name);
    FixedGiven(name);
    assert SizeArgs(c) == [Setting(sizes + FIXED)] by {
      hide Decimal;
      assert sizes + FIXED == SizeArgs(c)[0].words;
    }
    hide *;
    SplitSetting(sizes, FIXED, name);
  }

  lemma MachinePartGiven(c: Config, name: string)
    requires name !in {"-cpu", "-audio"}
    ensures Whole(MachineArgs(c))
    ensures Given(MachineArgs(c), name) ==
            (if c.machine.Some? && name == "-machine" then [c.machine.value] else [])
            + (If(name == "-m", Decimal(c.memoryMb) + "M") + If(name == "-smp", Decimal(c.vcpus)))
  {
    MachineGiven(c, name);
    SizeGiven(c, name);
    var objects := [MemoryObject(MEMORY_ID, c.memoryMb), Numa(MEMORY_ID)];
    NothingGiven(objects, name);
    RebootGiven(c, name);
    hide Given, Whole, MachineType, SizeArgs, RebootArgs, If, Decimal;
    GivenAppend(MachineType(c), SizeArgs(c), name);
    GivenAppend(MachineType(c) + SizeArgs(c), objects, name);
    GivenAppend(MachineType(c) + SizeArgs(c) + objects, RebootArgs(c), name);
  }

  lemma RebootGiven(c: Config, name: string)
    ensures Whole(RebootArgs(c)) && Given(RebootArgs(c), name) == []
  {
    if c.noReboot {
      FlagGiven("-no-reboot", name);
    }
  }

  /** What the boot mode asks for under an option. */
  function BootValues(boot: Option<BootMode>, name: string): seq<string> {
    match boot
    case None => []
    case Some(IsoBoot(iso)) => If(name == "-cdrom", iso)
    case Some(DirectBoot(kernel, initramfs, cmdline, _)) =>
      If(name == "-kernel", kernel) + If(name == "-initrd", initramfs) + If(name == "-append", Join(cmdline, " "))
  }

  lemma BootGiven(boot: Option<BootMode>, name: string)
    ensures Whole(BootArgs(boot)) && Given(BootArgs(boot), name) == BootValues(boot, name)
  {
    match boot {
      case None =>
      case Some(IsoBoot(iso)) =>
        OneGiven("-cdrom", iso, name);
      case Some(DirectBoot(kernel, initramfs, cmdline, socket)) =>
        DirectBootGiven(kernel, initramfs, cmdline, socket, name);
    }
  }

  lemma DirectBootGiven(kernel: string, initramfs: string, cmdline: seq<string>, socket: string, name: string)
    ensures var boot := Some(DirectBoot(kernel, initramfs, cmdline, socket));
            Whole(BootArgs(boot)) && Given(BootArgs(boot), name) == BootValues(boot, name)
  {
    var devices := [SocketChardev(CharId(0), socket), FsDevice(CharId(0), "rootfs")];
    DirectOf("-kernel", kernel, "-initrd", initramfs, "-append", Join(cmdline, " "), devices, name);
    assert [Setting(["-kernel", kernel, "-initrd", initramfs])] + devices + [Setting(["-append", Join(cmdline, " ")])]
        == BootArgs(Some(DirectBoot(kernel, initramfs, cmdline, socket))) by {
      hide CharId, Join;
    }
    hide Given, Whole, Complete, Options, IsFlag, Join, CharId, BootArgs, If;
  }

  lemma DirectOf(k: string, kernel: string, i: string, initramfs: string, a: string, append: string, devices: seq<Arg>,
                 name: string)
    requires !IsFlag(k) && !IsFlag(i) && !IsFlag(a)
    requires forall d :: d in devices ==> !d.Setting?
    ensures var args := [Setting([k, kernel, i, initramfs])] + devices + [Setting([a, append])];
            Whole(args) && Given(args, name) == If(name == k, kernel) + If(name == i, initramfs) + If(name == a, append)
  {
    TwoGiven(k, kernel, i, initramfs, name);
    OneGiven(a, append, name);
    NothingGiven(devices, name);
    hide Given, Whole, IsFlag;
    GivenAppend([Setting([k, kernel, i, initramfs])], devices, name);
    GivenAppend([Setting([k, kernel, i, initramfs])] + devices, [Setting([a, append])], name);
  }

  /** Two options in one call. */
  lemma TwoGiven(a: string, v: string, b: string, w: string, name: string)
    requires !IsFlag(a) && !IsFlag(b)
    ensures Complete([a, v, b, w]) && Whole([Setting([a, v, b, w])])
    ensures Given([Setting([a, v, b, w])], name) == If(name == a, v) + If(name == b, w)
  {
    var first, second := [a, v], [b, w];
    OneGiven(a, v, name);
    OneGiven(b, w, name);
    OneOption(a, v);
    OneOption(b, w);
    assert first + second == [a, v, b, w];
    hide Given, Whole, Complete, Options, IsFlag;
    SplitSetting(first, second, name);
    WholeOne(first + second);
  }

  lemma ControllerGiven(name: string)
    requires name != "-device"
    ensures var args := [Setting(["-device", "virtio-serial"])]; Whole(args) && Given(args, name) == []
  {
    OneGiven("-device", "virtio-serial", name);
  }

  function SerialValue(c: Config): string {
    if c.serialLog.Some? then "file:" + c.serialLog.value else "none"
  }

  lemma SerialLogGiven(c: Config, name: string)
    requires name != "-display"
    ensures Whole(SerialLogArgs(c)) && Given(SerialLogArgs(c), name) == If(name == "-serial", SerialValue(c))
  {
    var first, second := [Setting(["-serial", SerialValue(c)])], [Setting(["-nographic"] + ["-display", "none"])];
    OneGiven("-serial", SerialValue(c), name);
    FlagGiven("-nographic", name);
    OneGiven("-display", "none", name);
    OneOption("-display", "none");
    SplitSetting(["-nographic"], ["-display", "none"], name);
    assert ["-nographic"] + ["-display", "none"] == ["-nographic", "-display", "none"];
    assert SerialLogArgs(c) == first + second;
    hide Given, Whole, Complete, Options, IsFlag, SerialValue, SerialLogArgs;
    GivenAppend(first, second, name);
  }

  lemma DisplayGiven(c: Config, name: string)
    ensures Whole(DisplayArgs(c))
    ensures Given(DisplayArgs(c), name) == If(!c.console && name == "-monitor", "none")
  {
    if c.console {
      NothingGiven(DisplayArgs(c), name);
    } else {
      OneGiven("-monitor", "none", name);
    }
  }

  lemma ConsoleGiven(c: Config, name: string)
    requires name != "-display"
    ensures Whole(ConsoleArgs(c))
    ensures Given(ConsoleArgs(c), name) ==
            If(name == "-serial", SerialValue(c)) + If(!c.console && name == "-monitor", "none")
  {
    var net := [Netdev(NET_ID, c.hostfwd), NetDevice(NET_ID)];
    NothingGiven(net, name);
    SerialLogGiven(c, name);
    DisplayGiven(c, name);
    hide Given, Whole, SerialLogArgs, DisplayArgs, If, SerialValue;
    GivenAppend(net, SerialLogArgs(c), name);
    GivenAppend(net + SerialLogArgs(c), DisplayArgs(c), name);
  }

  function Credentials(credentials: seq<string>): (r: seq<string>)
    ensures |r| == |credentials| && forall i :: 0 <= i < |r| ==> r[i] == "type=11,value=" + credentials[i]
  {
    seq(|credentials|, i requires 0 <= i < |credentials| => "type=11,value=" + credentials[i])
  }

  function Entries(entries: seq<(string, string)>): (r: seq<string>)
    ensures |r| == |entries| && forall i :: 0 <= i < |r| ==> r[i] == "name=" + entries[i].0 + ",file=" + entries[i].1
  {
    seq(|entries|, i requires 0 <= i < |entries| => "name=" + entries[i].0 + ",file=" + entries[i].1)
  }

  /** A list of settings of one option. */
  lemma {:induction false} ListGiven(args: seq<Arg>, option: string, values: seq<string>, name: string)
    requires !IsFlag(option) && |args| == |values|
    requires forall i :: 0 <= i < |args| ==> args[i] == Setting([option, values[i]])
    ensures Whole(args) && Given(args, name) == if option == name then values else []
  {
    if args == [] {
      NothingGiven(args, name);
      assert values == [];
    } else {
      var n := |args| - 1;
      ListGiven(args[..n], option, values[..n], name);
      OneGiven(option, values[n], name);
      assert args == args[..n] + [args[n]] && values == values[..n] + [values[n]];
      hide Given, Whole;
      GivenAppend(args[..n], [args[n]], name);
    }
  }

  lemma SmbiosGiven(credentials: seq<string>, name: string)
    ensures Whole(SmbiosArgs(credentials))
    ensures Given(SmbiosArgs(credentials), name) == if name == "-smbios" then Credentials(credentials) else []
  {
    ListGiven(SmbiosArgs(credentials), "-smbios", Credentials(credentials), name);
  }

  lemma FwCfgGiven(entries: seq<(string, string)>, name: string)
    ensures Whole(FwCfgArgs(entries))
    ensures Given(FwCfgArgs(entries), name) == if name == "-fw_cfg" then Entries(entries) else []
  {
    ListGiven(FwCfgArgs(entries), "-fw_cfg", Entries(entries), name);
  }

  lemma {:induction false} DiskArgsPlain(disks: seq<BlkDevice>, n: nat)
    requires n <= |disks|
    ensures forall a :: a in DiskArgs(disks, n) ==> !a.Setting?
  {
    hide DriveId;
    if n > 0 {
      DiskArgsPlain(disks, n - 1);
    }
  }

  lemma {:induction false} MountArgsPlain(mounts: seq<Mount>, n: nat)
    requires n <= |mounts|
    ensures forall a :: a in MountArgs(mounts, n) ==> !a.Setting?
  {
    hide CharId;
    if n > 0 {
      MountArgsPlain(mounts, n - 1);
    }
  }

  lemma {:induction false} SerialArgsPlain(serials: seq<SerialOut>, n: nat)
    requires n <= |serials|
    ensures forall a :: a in SerialArgs(serials, n) ==> !a.Setting?
  {
    hide SerialId;
    if n > 0 {
      SerialArgsPlain(serials, n - 1);
    }
  }

  lemma FdArgsPlain(n: nat)
    ensures forall a :: a in FdArgs(n) ==> !a.Setting?
  {
    forall a ensures a in FdArgs(n) ==> !a.Setting? {
      FdMembers(n, a);
    }
  }

  // ---- The whole command line -----------------------------------------------------

  /** What the configuration asks for under an option. */
  function Asked(c: Config, extra: seq<string>, name: string): seq<string> {
    (if c.machine.Some? && name == "-machine" then [c.machine.value] else [])
    + (If(name == "-m", Decimal(c.memoryMb) + "M") + If(name == "-smp", Decimal(c.vcpus)))
    + BootValues(c.boot, name)
    + (If(name == "-serial", SerialValue(c)) + If(!c.console && name == "-monitor", "none"))
    + (if name == "-smbios" then Credentials(c.smbios) else [])
    + (if name == "-smbios" then Credentials(extra) else [])
    + (if name == "-fw_cfg" then Entries(c.fwCfg) else [])
  }

  /** The part gives nothing under the option. */
  predicate Silent(args: seq<Arg>, name: string) {
    Whole(args) && Given(args, name) == []
  }

  lemma SilentAfter(a: seq<Arg>, b: seq<Arg>, name: string)
    requires Whole(a) && Silent(b, name)
    ensures Whole(a + b) && Given(a + b, name) == Given(a, name)
  {
    hide Given, Whole;
    GivenAppend(a, b, name);
  }

  lemma FirstPartsGiven(a: seq<Arg>, q: seq<Arg>, u: seq<Arg>, b: seq<Arg>, v: seq<Arg>, w: seq<Arg>, name: string)
    requires Whole(a) && Silent(q, name) && Silent(u, name) && Whole(b) && Silent(v, name) && Silent(w, name)
    ensures Whole(a + q + u + b + v + w)
    ensures Given(a + q + u + b + v + w, name) == Given(a, name) + Given(b, name)
  {
    hide *;
    SilentAfter(a, q, name);
    SilentAfter(a + q, u, name);
    GivenAppend(a + q + u, b, name);
    SilentAfter(a + q + u + b, v, name);
    SilentAfter(a + q + u + b + v, w, name);
  }

  lemma LastPartsGiven(all: seq<Arg>, q: seq<Arg>, b: seq<Arg>, u: seq<Arg>, d: seq<Arg>, e: seq<Arg>, f: seq<Arg>, name: string)
    requires Whole(all) && Silent(q, name) && Whole(b) && Silent(u, name) && Whole(d) && Whole(e) && Whole(f)
    ensures Given(all + q + b + u + d + e + f, name) ==
            Given(all, name) + Given(b, name) + Given(d, name) + Given(e, name) + Given(f, name)
  {
    hide *;
    SilentAfter(all, q, name);
    GivenAppend(all + q, b, name);
    SilentAfter(all + q + b, u, name);
    GivenAppend(all + q + b + u, d, name);
    GivenAppend(all + q + b + u + d, e, name);
    GivenAppend(all + q + b + u + d + e, f, name);
  }

  lemma QuietPartsSilent(c: Config, vsock: Option<(Fd, nat)>, name: string)
    requires name != "-device"
    ensures Silent(FdArgs(|c.fdset|), name) && Silent(DiskArgs(c.disks, |c.disks|), name)
    ensures Silent(MountArgs(c.mounts, |c.mounts|), name) && Silent(SerialArgs(c.serials, |c.serials|), name)
    ensures Silent(VsockArgs(vsock), name) && Silent([Setting(["-device", "virtio-serial"])], name)
  {
    FdArgsPlain(|c.fdset|);
    DiskArgsPlain(c.disks, |c.disks|);
    MountArgsPlain(c.mounts, |c.mounts|);
    SerialArgsPlain(c.serials, |c.serials|);
    ControllerGiven(name);
    NothingGiven(VsockArgs(vsock), name);
    hide Whole, Given, FdArgs, DiskArgs, MountArgs, SerialArgs, VsockArgs;
    NothingGiven(FdArgs(|c.fdset|), name);
    NothingGiven(DiskArgs(c.disks, |c.disks|), name);
    NothingGiven(MountArgs(c.mounts, |c.mounts|), name);
    NothingGiven(SerialArgs(c.serials, |c.serials|), name);
  }

  lemma ArgvParts(c: Config, extra: seq<string>, vsock: Option<(Fd, nat)>)
    ensures var first := MachineArgs(c) + FdArgs(|c.fdset|) + DiskArgs(c.disks, |c.disks|) + BootArgs(c.boot)
                         + MountArgs(c.mounts, |c.mounts|) + [Setting(["-device", "virtio-serial"])];
            Argv(c, extra, vsock) ==
            first + SerialArgs(c.serials, |c.serials|) + ConsoleArgs(c) + VsockArgs(vsock)
            + SmbiosArgs(c.smbios) + SmbiosArgs(extra) + FwCfgArgs(c.fwCfg)
  {
    hide MachineArgs, FdArgs, DiskArgs, BootArgs, MountArgs, SerialArgs, ConsoleArgs, VsockArgs, SmbiosArgs, FwCfgArgs;
  }

  lemma GivenIsAsked(c: Config, extra: seq<string>, vsock: Option<(Fd, nat)>, name: string)
    requires name !in {"-cpu", "-audio", "-device", "-display"}
    ensures Given(Argv(c, extra, vsock), name) == Asked(c, extra, name)
  {
    var controller := [Setting(["-device", "virtio-serial"])];
    var first := MachineArgs(c) + FdArgs(|c.fdset|) + DiskArgs(c.disks, |c.disks|) + BootArgs(c.boot)
                 + MountArgs(c.mounts, |c.mounts|) + controller;
    ArgvParts(c, extra, vsock);
    assert name != "-device" && name != "-display" && name !in {"-cpu", "-audio"};
    hide *;
    MachinePartGiven(c, name);
    QuietPartsSilent(c, vsock, name);
    BootGiven(c.boot, name);
    ConsoleGiven(c, name);
    SmbiosGiven(c.smbios, name);
    SmbiosGiven(extra, name);
    FwCfgGiven(c.fwCfg, name);
    FirstPartsGiven(MachineArgs(c), FdArgs(|c.fdset|), DiskArgs(c.disks, |c.disks|), BootArgs(c.boot),
                    MountArgs(c.mounts, |c.mounts|), controller, name);
    LastPartsGiven(first, SerialArgs(c.serials, |c.serials|), ConsoleArgs(c), VsockArgs(vsock), SmbiosArgs(c.smbios),
                   SmbiosArgs(extra), FwCfgArgs(c.fwCfg), name);
    AskedParts(c, extra, name);
  }

  lemma AskedParts(c: Config, extra: seq<string>, name: string)
    ensures Asked(c, extra, name) ==
            (if c.machine.Some? && name == "-machine" then [c.machine.value] else [])
            + (If(name == "-m", Decimal(c.memoryMb) + "M") + If(name == "-smp", Decimal(c.vcpus)))
            + BootValues(c.boot, name)
            + (If(name == "-serial", SerialValue(c)) + If(!c.console && name == "-monitor", "none"))
            + (if name == "-smbios" then Credentials(c.smbios) else [])
            + (if name == "-smbios" then Credentials(extra) else [])
            + (if name == "-fw_cfg" then Entries(c.fwCfg) else [])
  {
    hide If, Decimal, BootValues, SerialValue, Credentials, Entries;
  }

  /** Kernel, initial file system and kernel arguments of a direct boot, or the image of an ISO
      boot, each under its own option. */
  predicate BootReadBack(args: seq<Arg>, boot: Option<BootMode>) {
    match boot
    case Some(DirectBoot(kernel, initramfs, cmdline, _)) =>
      && Given(args, "-kernel") == [kernel] && Given(args, "-initrd") == [initramfs]
      && Given(args, "-append") == [Join(cmdline, " ")] && Given(args, "-cdrom") == []
    case Some(IsoBoot(iso)) =>
      && Given(args, "-cdrom") == [iso] && Given(args, "-kernel") == [] && Given(args, "-initrd") == []
      && Given(args, "-append") == []
    case None =>
      && Given(args, "-cdrom") == [] && Given(args, "-kernel") == [] && Given(args, "-initrd") == []
      && Given(args, "-append") == []
  }

  predicate SizeReadBack(args: seq<Arg>, c: Config) {
    && Given(args, "-m") == [Decimal(c.memoryMb) + "M"] && Given(args, "-smp") == [Decimal(c.vcpus)]
    && Given(args, "-machine") == (if c.machine.Some? then [c.machine.value] else [])
  }

  /** The serial log goes to its own file; only a machine with a console keeps a monitor. */
  predicate OutputReadBack(args: seq<Arg>, c: Config) {
    && Given(args, "-serial") == [if c.serialLog.Some? then "file:" + c.serialLog.value else "none"]
    && Given(args, "-monitor") == (if c.console then [] else ["none"])
  }

  /** The credentials of the configuration come first, then those of the call. */
  predicate CredentialsReadBack(args: seq<Arg>, c: Config, extra: seq<string>) {
    CredentialsOf(Given(args, "-smbios"), c.smbios, extra) && EntriesOf(Given(args, "-fw_cfg"), c.fwCfg)
  }

  predicate CredentialsOf(values: seq<string>, first: seq<string>, extra: seq<string>) {
    && |values| == |first| + |extra|
    && (forall i :: 0 <= i < |first| ==> values[i] == "type=11,value=" + first[i])
    && (forall i :: 0 <= i < |extra| ==> values[|first| + i] == "type=11,value=" + extra[i])
  }

  /** Each entry with its own path. */
  predicate EntriesOf(values: seq<string>, entries: seq<(string, string)>) {
    && |values| == |entries|
    && (forall i :: 0 <= i < |values| ==> values[i] == "name=" + entries[i].0 + ",file=" + entries[i].1)
  }

  lemma BootReads(c: Config, extra: seq<string>, vsock: Option<(Fd, nat)>)
    ensures BootReadBack(Argv(c, extra, vsock), c.boot)
  {
    BootOption(c, extra, vsock, "-kernel");
    BootOption(c, extra, vsock, "-initrd");
    BootOption(c, extra, vsock, "-append");
    BootOption(c, extra, vsock, "-cdrom");
    BootValuesByName(c.boot);
    hide Argv, Given, BootValues, Join;
  }

  lemma BootOption(c: Config, extra: seq<string>, vsock: Option<(Fd, nat)>, name: string)
    requires name in {"-kernel", "-initrd", "-append", "-cdrom"}
    ensures Given(Argv(c, extra, vsock), name) == BootValues(c.boot, name)
  {
    OnlyBoot(c, extra, name);
    assert name !in {"-cpu", "-audio", "-device", "-display"};
    hide *;
    GivenIsAsked(c, extra, vsock, name);
  }

  lemma BootValuesByName(boot: Option<BootMode>)
    ensures match boot
            case Some(DirectBoot(kernel, initramfs, cmdline, _)) =>
              && BootValues(boot, "-kernel") == [kernel] && BootValues(boot, "-initrd") == [initramfs]
              && BootValues(boot, "-append") == [Join(cmdline, " ")] && BootValues(boot, "-cdrom") == []
            case Some(IsoBoot(iso)) =>
              && BootValues(boot, "-cdrom") == [iso] && BootValues(boot, "-kernel") == []
              && BootValues(boot, "-initrd") == [] && BootValues(boot, "-append") == []
            case None => forall name :: BootValues(boot, name) == []
  {
    hide Join;
  }

  lemma OnlyBoot(c: Config, extra: seq<string>, name: string)
    requires name in {"-kernel", "-initrd", "-append", "-cdrom"}
    ensures Asked(c, extra, name) == BootValues(c.boot, name)
  {
    assert name !in {"-machine", "-m", "-smp", "-serial", "-monitor", "-smbios", "-fw_cfg"};
    hide Decimal, SerialValue, Credentials, Entries, Join, BootValues;
  }

  lemma NoBoot(boot: Option<BootMode>, name: string)
    requires name !in {"-kernel", "-initrd", "-append", "-cdrom"}
    ensures BootValues(boot, name) == []
  {
    hide Join;
  }

  lemma SizeReads(c: Config, extra: seq<string>, vsock: Option<(Fd, nat)>)
    ensures SizeReadBack(Argv(c, extra, vsock), c)
  {
    GivenIsAsked(c, extra, vsock, "-m");
    GivenIsAsked(c, extra, vsock, "-smp");
    GivenIsAsked(c, extra, vsock, "-machine");
    hide Argv, Given, Asked, Decimal;
    AskedMemory(c, extra);
    AskedCpus(c, extra);
    AskedMachine(c, extra);
  }

  lemma AskedMemory(c: Config, extra: seq<string>)
    ensures Asked(c, extra, "-m") == [Decimal(c.memoryMb) + "M"]
  {
    NoBoot(c.boot, "-m");
    hide Decimal, SerialValue, Credentials, Entries, BootValues;
  }

  lemma AskedCpus(c: Config, extra: seq<string>)
    ensures Asked(c, extra, "-smp") == [Decimal(c.vcpus)]
  {
    NoBoot(c.boot, "-smp");
    hide Decimal, SerialValue, Credentials, Entries, BootValues;
  }

  lemma AskedMachine(c: Config, extra: seq<string>)
    ensures Asked(c, extra, "-machine") == if c.machine.Some? then [c.machine.value] else []
  {
    NoBoot(c.boot, "-machine");
    hide Decimal, SerialValue, Credentials, Entries, BootValues;
  }

  lemma OutputReads(c: Config, extra: seq<string>, vsock: Option<(Fd, nat)>)
    ensures OutputReadBack(Argv(c, extra, vsock), c)
  {
    GivenIsAsked(c, extra, vsock, "-serial");
    GivenIsAsked(c, extra, vsock, "-monitor");
    hide Argv, Given, Asked;
    AskedSerial(c, extra);
    AskedMonitor(c, extra);
  }

  lemma AskedSerial(c: Config, extra: seq<string>)
    ensures Asked(c, extra, "-serial") == [SerialValue(c)]
  {
    NoBoot(c.boot, "-serial");
    hide Decimal, SerialValue, Credentials, Entries, BootValues;
  }

  lemma AskedMonitor(c: Config, extra: seq<string>)
    ensures Asked(c, extra, "-monitor") == if c.console then [] else ["none"]
  {
    NoBoot(c.boot, "-monitor");
    hide Decimal, SerialValue, Credentials, Entries, BootValues;
  }

  lemma CredentialsRead(c: Config, extra: seq<string>, vsock: Option<(Fd, nat)>)
    ensures CredentialsReadBack(Argv(c, extra, vsock), c, extra)
  {
    GivenIsAsked(c, extra, vsock, "-smbios");
    GivenIsAsked(c, extra, vsock, "-fw_cfg");
    AskedSmbios(c, extra);
    AskedFwCfg(c, extra);
    CredentialsOfBoth(c.smbios, extra);
    assert EntriesOf(Entries(c.fwCfg), c.fwCfg);
    hide Argv, Given, Asked, Credentials, Entries, CredentialsOf, EntriesOf;
  }

  lemma CredentialsOfBoth(first: seq<string>, extra: seq<string>)
    ensures CredentialsOf(Credentials(first) + Credentials(extra), first, extra)
  {
  }

  lemma AskedSmbios(c: Config, extra: seq<string>)
    ensures Asked(c, extra, "-smbios") == Credentials(c.smbios) + Credentials(extra)
  {
    NoBoot(c.boot, "-smbios");
    hide Decimal, SerialValue, Credentials, Entries, BootValues;
  }

  lemma AskedFwCfg(c: Config, extra: seq<string>)
    ensures Asked(c, extra, "-fw_cfg") == Entries(c.fwCfg)
  {
    NoBoot(c.boot, "-fw_cfg");
    hide Decimal, SerialValue, Credentials, Entries, BootValues;
  }

  /** Read option by option, the generated command line gives back the whole configuration. */
  lemma OptionsReadBack(c: Config, extra: seq<string>, vsock: Option<(Fd, nat)>)
    ensures var argv := Argv(c, extra, vsock);
            && BootReadBack(argv, c.boot) && SizeReadBack(argv, c) && OutputReadBack(argv, c)
            && CredentialsReadBack(argv, c, extra)
  {
    BootReads(c, extra, vsock);
    SizeReads(c, extra, vsock);
    OutputReads(c, extra, vsock);
    CredentialsRead(c, extra, vsock);
    hide *;
  }

  /** The machine stops at a reboot exactly when the configuration asks for it. */
  lemma StopsAtReboot(c: Config, extra: seq<string>, vsock: Option<(Fd, nat)>)
    ensures Setting(["-no-reboot"]) in Argv(c, extra, vsock) <==> c.noReboot
  {
    var a := Setting(["-no-reboot"]);
    ArgvMember(c, extra, vsock, a);
    FdArgsPlain(|c.fdset|);
    DiskArgsPlain(c.disks, |c.disks|);
    MountArgsPlain(c.mounts, |c.mounts|);
    SerialArgsPlain(c.serials, |c.serials|);
    LongSettings(c, extra, a);
    hide Argv, MachineArgs, FdArgs, DiskArgs, BootArgs, MountArgs, SerialArgs, ConsoleArgs, SmbiosArgs, FwCfgArgs;
  }

  lemma LongSettings(c: Config, extra: seq<string>, a: Arg)
    requires a == Setting(["-no-reboot"])
    ensures a in MachineArgs(c) <==> c.noReboot
    ensures a !in BootArgs(c.boot) && a != Setting(["-device", "virtio-serial"]) && a !in ConsoleArgs(c)
    ensures a !in SmbiosArgs(c.smbios) && a !in SmbiosArgs(extra) && a !in FwCfgArgs(c.fwCfg)
  {
    assert |a.words| == 1;
    hide Decimal, Join, CharId;
  }

  // ---- The devices ----------------------------------------------------------------

  /** The devices without a list of their own: each is there exactly as configured, and no
      other of its kind. */
  ghost predicate SingleDevice(args: seq<Arg>, c: Config, vsock: Option<(Fd, nat)>, a: Arg) {
    a in args <==>
    match a
    case MemoryObject(id, megabytes) => id == MEMORY_ID && megabytes == c.memoryMb
    case Numa(memdev) => memdev == MEMORY_ID
    case Netdev(id, hostfwd) => id == NET_ID && hostfwd == c.hostfwd
    case NetDevice(netdev) => netdev == NET_ID
    case ConsoleDevice(chardev) => c.console && chardev == CONSOLE_ID
    case StdioChardev(id) => c.console && id == CONSOLE_ID
    case Monitor(chardev) => c.console && chardev == CONSOLE_ID
    case VsockDevice(cid, number) => vsock.Some? && cid == vsock.value.1 && number == VSOCK_FD
    case _ => a in args
  }

  predicate IsSingle(a: Arg) {
    || a.MemoryObject? || a.Numa? || a.Netdev? || a.NetDevice? || a.ConsoleDevice? || a.StdioChardev? || a.Monitor?
    || a.VsockDevice?
  }

  lemma SingleDevices(c: Config, extra: seq<string>, vsock: Option<(Fd, nat)>, a: Arg)
    ensures SingleDevice(Argv(c, extra, vsock), c, vsock, a)
  {
    if IsSingle(a) {
      ArgvMember(c, extra, vsock, a);
      NotInLists(c, extra, a);
      SinglesByPart(c, vsock, a);
      hide Argv, MachineArgs, FdArgs, DiskArgs, BootArgs, MountArgs, SerialArgs, ConsoleArgs, SmbiosArgs, FwCfgArgs, VsockArgs;
    }
  }

  lemma NotInLists(c: Config, extra: seq<string>, a: Arg)
    requires IsSingle(a)
    ensures a !in FdArgs(|c.fdset|) && a !in DiskArgs(c.disks, |c.disks|) && a !in BootArgs(c.boot)
    ensures a !in MountArgs(c.mounts, |c.mounts|) && a !in SerialArgs(c.serials, |c.serials|)
    ensures a != Setting(["-device", "virtio-serial"])
    ensures a !in SmbiosArgs(c.smbios) && a !in SmbiosArgs(extra) && a !in FwCfgArgs(c.fwCfg)
  {
    FdMembers(|c.fdset|, a);
    ListedDevices(c.disks, |c.disks|, c.mounts, |c.mounts|, c.serials, |c.serials|, a);
    hide FdArgs, DiskArgs, MountArgs, SerialArgs, SmbiosArgs, FwCfgArgs, CharId;
  }

  /** What stands in the lists of devices comes from the configuration's lists. */
  lemma {:induction false} ListedDevices(disks: seq<BlkDevice>, d: nat, mounts: seq<Mount>, m: nat,
                                         serials: seq<SerialOut>, s: nat, a: Arg)
    requires d <= |disks| && m <= |mounts| && s <= |serials|
    ensures a in DiskArgs(disks, d) ==> IsDisk(disks, a)
    ensures a in MountArgs(mounts, m) ==> IsMount(mounts, a)
    ensures a in SerialArgs(serials, s) ==> IsSerial(serials, a)
    decreases d + m + s
  {
    hide DriveId, CharId, SerialId;
    if d > 0 {
      ListedDevices(disks, d - 1, mounts, m, serials, s, a);
    } else if m > 0 {
      ListedDevices(disks, d, mounts, m - 1, serials, s, a);
    } else if s > 0 {
      ListedDevices(disks, d, mounts, m, serials, s - 1, a);
    }
  }

  ghost predicate IsDisk(disks: seq<BlkDevice>, a: Arg) {
    exists i: nat :: i < |disks|
      && (a == Drive(DriveId(i), disks[i].diskFile, disks[i].format, disks[i].readonly)
          || a == BlockDevice(DriveId(i), disks[i].serial))
  }

  ghost predicate IsMount(mounts: seq<Mount>, a: Arg) {
    exists i: nat :: i < |mounts|
      && (a == SocketChardev(CharId(i + 1), mounts[i].socketPath) || a == FsDevice(CharId(i + 1), mounts[i].tag))
  }

  ghost predicate IsSerial(serials: seq<SerialOut>, a: Arg) {
    exists i: nat :: i < |serials|
      && (a == FileChardev(SerialId(i), serials[i].outputFile, serials[i].append)
          || a == SerialPort(SerialId(i), serials[i].name))
  }

  lemma SinglesByPart(c: Config, vsock: Option<(Fd, nat)>, a: Arg)
    requires IsSingle(a)
    ensures a in MachineArgs(c) <==> (a == MemoryObject(MEMORY_ID, c.memoryMb) || a == Numa(MEMORY_ID))
    ensures a in ConsoleArgs(c) <==>
            || a == Netdev(NET_ID, c.hostfwd) || a == NetDevice(NET_ID)
            || (c.console && (a == ConsoleDevice(CONSOLE_ID) || a == StdioChardev(CONSOLE_ID) || a == Monitor(CONSOLE_ID)))
    ensures a in VsockArgs(vsock) <==> vsock.Some? && a == VsockDevice(vsock.value.1, VSOCK_FD)
  {
    hide MachineType, SizeArgs, RebootArgs, SerialLogArgs;
  }

  predicate IsListed(a: Arg) {
    a.Drive? || a.BlockDevice? || a.SocketChardev? || a.FsDevice? || a.FileChardev? || a.SerialPort?
  }

  ghost predicate IsRoot(boot: Option<BootMode>, a: Arg) {
    && boot.Some? && boot.value.DirectBoot?
    && (a == SocketChardev(CharId(0), boot.value.virtiofsSocket) || a == FsDevice(CharId(0), "rootfs"))
  }

  lemma ListedKinds(c: Config, extra: seq<string>, vsock: Option<(Fd, nat)>, a: Arg)
    requires IsListed(a)
    ensures a !in MachineArgs(c) && a !in FdArgs(|c.fdset|) && a !in ConsoleArgs(c) && a !in VsockArgs(vsock)
    ensures a != Setting(["-device", "virtio-serial"])
    ensures a !in SmbiosArgs(c.smbios) && a !in SmbiosArgs(extra) && a !in FwCfgArgs(c.fwCfg)
    ensures a in BootArgs(c.boot) ==> IsRoot(c.boot, a)
  {
    FdMembers(|c.fdset|, a);
    hide FdArgs, SmbiosArgs, FwCfgArgs, CharId, MachineType, SizeArgs, RebootArgs, SerialLogArgs;
  }

  /** A disk, mount or serial device on the command line is a configured one, or the root. */
  lemma NothingElseAttached(c: Config, extra: seq<string>, vsock: Option<(Fd, nat)>, a: Arg)
    requires a in Argv(c, extra, vsock)
    ensures a.Drive? || a.BlockDevice? ==> IsDisk(c.disks, a)
    ensures a.FileChardev? || a.SerialPort? ==> IsSerial(c.serials, a)
    ensures a.SocketChardev? || a.FsDevice? ==> IsMount(c.mounts, a) || IsRoot(c.boot, a)
  {
    if IsListed(a) {
      ArgvMember(c, extra, vsock, a);
      ListedDevices(c.disks, |c.disks|, c.mounts, |c.mounts|, c.serials, |c.serials|, a);
      ListedKinds(c, extra, vsock, a);
      hide Argv, MachineArgs, FdArgs, DiskArgs, BootArgs, MountArgs, SerialArgs, ConsoleArgs, SmbiosArgs, FwCfgArgs, VsockArgs;
      hide CharId, DriveId, SerialId;
    }
  }

  /** The vsock device carries the given guest number, and the file number it names is that of
      the given file alone. */
  lemma VsockReachesItsFile(c: Config, extra: seq<string>, fd: Fd, cid: nat)
    ensures exists number: nat ::
              && VsockDevice(cid, number) in Argv(c, extra, Some((fd, cid)))
              && (fd, number) in Passed(c.fdset, Some((fd, cid)))
              && forall p :: p in Passed(c.fdset, Some((fd, cid))) && p.1 == number ==> p.0 == fd
  {
    SingleDevices(c, extra, Some((fd, cid)), VsockDevice(cid, VSOCK_FD));
    hide Argv;
    var passed := Passed(c.fdset, Some((fd, cid)));
    assert passed[|c.fdset|] == (fd, VSOCK_FD);
  }
}
