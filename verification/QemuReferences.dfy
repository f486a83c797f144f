/** Every name on the generated command line is defined once, and every device reference
    leads to what was configured. */
module QemuReferences {
  import opened Wrappers
  import opened Text
  import opened Qemu

  // ---- Definitions on a command line ----------------------------------------------

  /** The names defined, in order. */
  function Defs(args: seq<Arg>): seq<Ref> {
    if args == [] then []
    else
      var last := Defines(args[|args| - 1]);
      Defs(args[..|args| - 1]) + if last.Some? then [last.value] else []
  }

  predicate Distinct<T(==)>(s: seq<T>) {
    forall i, j :: 0 <= i < j < |s| ==> s[i] != s[j]
  }

  /** The argument that defines a name. */
  function Resolve(args: seq<Arg>, ref: Ref): (r: Option<Arg>)
    ensures r.Some? ==> r.value in args && Defines(r.value) == Some(ref)
    ensures r.None? ==> forall a :: a in args ==> Defines(a) != Some(ref)
  {
    if args == [] then None
    else if Defines(args[0]) == Some(ref) then Some(args[0])
    else Resolve(args[1..], ref)
  }

  lemma {:induction false} DefsAppend(a: seq<Arg>, b: seq<Arg>)
    ensures Defs(a + b) == Defs(a) + Defs(b)
  {
    if b == [] {
      assert a + b == a;
    } else {
      assert (a + b)[..|a + b| - 1] == a + b[..|b| - 1];
      DefsAppend(a, b[..|b| - 1]);
    }
  }

  lemma {:induction false} DefinedIsDef(args: seq<Arg>, a: Arg)
    requires a in args && Defines(a).Some?
    ensures Defines(a).value in Defs(args)
  {
    if a != args[|args| - 1] {
      DefinedIsDef(args[..|args| - 1], a);
    }
  }

  /** With distinct names, whatever defines a name is what the name resolves to. */
  lemma {:induction false} ResolvesUniquely(args: seq<Arg>, a: Arg)
    requires Distinct(Defs(args)) && a in args && Defines(a).Some?
    ensures Resolve(args, Defines(a).value) == Some(a)
  {
    var ref := Defines(a).value;
    var found := Resolve(args, ref).value;
    var i, j :| 0 <= i < |args| && 0 <= j < |args| && args[i] == a && args[j] == found;
    if found != a {
      if i < j {
        TwiceDefined(args, i, j);
      } else {
        TwiceDefined(args, j, i);
      }
    }
  }

  lemma TwiceDefined(args: seq<Arg>, i: nat, j: nat)
    requires i < j < |args| && Defines(args[i]).Some? && Defines(args[i]) == Defines(args[j])
    ensures !Distinct(Defs(args))
  {
    var ref := Defines(args[i]).value;
    assert args == args[..j] + args[j..];
    DefsAppend(args[..j], args[j..]);
    assert args[..j][i] == args[i] && args[j..][0] == args[j];
    DefinedIsDef(args[..j], args[i]);
    DefinedIsDef(args[j..], args[j]);
    var p :| 0 <= p < |Defs(args[..j])| && Defs(args[..j])[p] == ref;
    var q :| 0 <= q < |Defs(args[j..])| && Defs(args[j..])[q] == ref;
    assert Defs(args)[p] == ref && Defs(args)[|Defs(args[..j])| + q] == ref;
  }

  // ---- The names of a configuration -----------------------------------------------

  function DiskRefs(n: nat): (r: seq<Ref>)
    ensures |r| == n && forall i :: 0 <= i < n ==> r[i] == DriveRef(DriveId(i))
  {
    if n == 0 then [] else DiskRefs(n - 1) + [DriveRef(DriveId(n - 1))]
  }

  function MountRefs(n: nat): (r: seq<Ref>)
    ensures |r| == n && forall i :: 0 <= i < n ==> r[i] == CharRef(CharId(i + 1))
  {
    if n == 0 then [] else MountRefs(n - 1) + [CharRef(CharId(n))]
  }

  function SerialRefs(n: nat): (r: seq<Ref>)
    ensures |r| == n && forall i :: 0 <= i < n ==> r[i] == CharRef(SerialId(i))
  {
    if n == 0 then [] else SerialRefs(n - 1) + [CharRef(SerialId(n - 1))]
  }

  function BootRefs(boot: Option<BootMode>): seq<Ref> {
    if boot.Some? && boot.value.DirectBoot? then [CharRef(CharId(0))] else []
  }

  function ConsoleRefs(c: Config): seq<Ref> {
    [NetRef(NET_ID)] + if c.console then [CharRef(CONSOLE_ID)] else []
  }

  function AllRefs(c: Config): seq<Ref> {
    [MemRef(MEMORY_ID)] + DiskRefs(|c.disks|) + BootRefs(c.boot) + MountRefs(|c.mounts|)
    + SerialRefs(|c.serials|) + ConsoleRefs(c)
  }

  lemma MachineDefs(c: Config)
    ensures Defs(MachineArgs(c)) == [MemRef(MEMORY_ID)]
  {
    hide MachineType, SizeArgs, RebootArgs, Defs;
    var before := MachineType(c) + SizeArgs(c);
    SettingsDefs(before);
    PairDefs(before, MemoryObject(MEMORY_ID, c.memoryMb), Numa(MEMORY_ID));
    SettingsDefs(RebootArgs(c));
    DefsAppend(before + [MemoryObject(MEMORY_ID, c.memoryMb), Numa(MEMORY_ID)], RebootArgs(c));
  }

  lemma OneDef(a: Arg)
    ensures Defs([a]) == if Defines(a).Some? then [Defines(a).value] else []
  {
  }

  lemma {:induction false} SettingsDefs(args: seq<Arg>)
    requires forall a :: a in args ==> Defines(a).None?
    ensures Defs(args) == []
  {
    if args != [] {
      SettingsDefs(args[..|args| - 1]);
    }
  }

  lemma PairDefs(before: seq<Arg>, a: Arg, b: Arg)
    requires Defines(a).Some? && Defines(b).None?
    ensures Defs(before + [a, b]) == Defs(before) + [Defines(a).value]
  {
    DefsAppend(before, [a, b]);
    DefsAppend([a], [b]);
    OneDef(a);
    OneDef(b);
    assert [a, b] == [a] + [b];
  }

  lemma {:induction false} DiskDefs(disks: seq<BlkDevice>, n: nat)
    requires n <= |disks|
    ensures Defs(DiskArgs(disks, n)) == DiskRefs(n)
  {
    hide DriveId;
    if n > 0 {
      DiskDefs(disks, n - 1);
      var d := disks[n - 1];
      PairDefs(DiskArgs(disks, n - 1), Drive(DriveId(n - 1), d.diskFile, d.format, d.readonly),
               BlockDevice(DriveId(n - 1), d.serial));
    }
  }

  lemma {:induction false} MountDefs(mounts: seq<Mount>, n: nat)
    requires n <= |mounts|
    ensures Defs(MountArgs(mounts, n)) == MountRefs(n)
  {
    hide CharId;
    if n > 0 {
      MountDefs(mounts, n - 1);
      PairDefs(MountArgs(mounts, n - 1), SocketChardev(CharId(n), mounts[n - 1].socketPath),
               FsDevice(CharId(n), mounts[n - 1].tag));
    }
  }

  lemma {:induction false} SerialDefs(serials: seq<SerialOut>, n: nat)
    requires n <= |serials|
    ensures Defs(SerialArgs(serials, n)) == SerialRefs(n)
  {
    hide SerialId;
    if n > 0 {
      SerialDefs(serials, n - 1);
      var s := serials[n - 1];
      PairDefs(SerialArgs(serials, n - 1), FileChardev(SerialId(n - 1), s.outputFile, s.append),
               SerialPort(SerialId(n - 1), s.name));
    }
  }

  lemma BootDefs(boot: Option<BootMode>)
    ensures Defs(BootArgs(boot)) == BootRefs(boot)
  {
    hide CharId;
    var args := BootArgs(boot);
    if boot.Some? && boot.value.DirectBoot? {
      assert args == [args[0]] + [args[1], args[2]] + [args[3]];
      DefsAppend([args[0]] + [args[1], args[2]], [args[3]]);
      PairDefs([args[0]], args[1], args[2]);
      OneDef(args[0]);
      OneDef(args[3]);
    }
  }

  lemma ConsoleDefs(c: Config)
    ensures Defs(ConsoleArgs(c)) == ConsoleRefs(c)
  {
    hide SerialLogArgs, DisplayArgs;
    var net := [Netdev(NET_ID, c.hostfwd), NetDevice(NET_ID)];
    PairDefs([], net[0], net[1]);
    assert [] + [net[0], net[1]] == net;
    SettingsDefs(SerialLogArgs(c));
    DisplayDefs(c);
    hide Defs;
    DefsAppend(net, SerialLogArgs(c));
    DefsAppend(net + SerialLogArgs(c), DisplayArgs(c));
  }

  lemma DisplayDefs(c: Config)
    ensures Defs(DisplayArgs(c)) == if c.console then [CharRef(CONSOLE_ID)] else []
  {
    if c.console {
      var device := [ConsoleDevice(CONSOLE_ID)];
      assert DisplayArgs(c) == device + [StdioChardev(CONSOLE_ID), Monitor(CONSOLE_ID)];
      hide DisplayArgs;
      PairDefs(device, StdioChardev(CONSOLE_ID), Monitor(CONSOLE_ID));
      OneDef(device[0]);
    } else {
      SettingsDefs(DisplayArgs(c));
    }
  }

  lemma {:induction false} FdMembers(n: nat, a: Arg)
    ensures a in FdArgs(n) <==> a.PassFd? && 1 <= a.set_ <= n && a.fd == FIRST_FD + a.set_ - 1
  {
    if n > 0 {
      FdMembers(n - 1, a);
    }
  }

  lemma {:induction false} FdDefs(n: nat)
    ensures Defs(FdArgs(n)) == []
  {
    if n > 0 {
      FdDefs(n - 1);
      DefsAppend(FdArgs(n - 1), [PassFd(FIRST_FD + n - 1, n)]);
      OneDef(PassFd(FIRST_FD + n - 1, n));
    }
  }

  lemma RestDefs(c: Config, extra: seq<string>, vsock: Option<(Fd, nat)>)
    ensures Defs(VsockArgs(vsock)) == Defs(SmbiosArgs(c.smbios)) == Defs(SmbiosArgs(extra)) == Defs(FwCfgArgs(c.fwCfg)) == []
  {
    SettingsDefs(VsockArgs(vsock));
    SettingsDefs(SmbiosArgs(c.smbios));
    SettingsDefs(SmbiosArgs(extra));
    SettingsDefs(FwCfgArgs(c.fwCfg));
  }

  lemma ArgvDefs(c: Config, extra: seq<string>, vsock: Option<(Fd, nat)>)
    ensures Defs(Argv(c, extra, vsock)) == AllRefs(c)
  {
    MachineDefs(c);
    FdDefs(|c.fdset|);
    DiskDefs(c.disks, |c.disks|);
    BootDefs(c.boot);
    MountDefs(c.mounts, |c.mounts|);
    SerialDefs(c.serials, |c.serials|);
    ConsoleDefs(c);
    RestDefs(c, extra, vsock);
    var controller := [Setting(["-device", "virtio-serial"])];
    OneDef(controller[0]);
    hide MachineArgs, FdArgs, DiskArgs, BootArgs, MountArgs, SerialArgs, ConsoleArgs, SmbiosArgs, FwCfgArgs, VsockArgs;
    hide DiskRefs, MountRefs, SerialRefs, BootRefs, ConsoleRefs, Defs;
    EightDefs(MachineArgs(c), FdArgs(|c.fdset|), DiskArgs(c.disks, |c.disks|), BootArgs(c.boot),
              MountArgs(c.mounts, |c.mounts|), controller, SerialArgs(c.serials, |c.serials|), ConsoleArgs(c));
    FiveDefs(MachineArgs(c) + FdArgs(|c.fdset|) + DiskArgs(c.disks, |c.disks|) + BootArgs(c.boot)
             + MountArgs(c.mounts, |c.mounts|) + controller + SerialArgs(c.serials, |c.serials|) + ConsoleArgs(c),
             VsockArgs(vsock), SmbiosArgs(c.smbios), SmbiosArgs(extra), FwCfgArgs(c.fwCfg));
  }

  lemma EightDefs(a: seq<Arg>, none: seq<Arg>, b: seq<Arg>, d: seq<Arg>, e: seq<Arg>, nil: seq<Arg>, f: seq<Arg>, g: seq<Arg>)
    requires Defs(none) == [] && Defs(nil) == []
    ensures Defs(a + none + b + d + e + nil + f + g) == Defs(a) + Defs(b) + Defs(d) + Defs(e) + Defs(f) + Defs(g)
  {
    hide Defs;
    DefsAppend(a, none);
    DefsAppend(a + none, b);
    DefsAppend(a + none + b, d);
    DefsAppend(a + none + b + d, e);
    DefsAppend(a + none + b + d + e, nil);
    DefsAppend(a + none + b + d + e + nil, f);
    DefsAppend(a + none + b + d + e + nil + f, g);
  }

  lemma FiveDefs(a: seq<Arg>, b: seq<Arg>, d: seq<Arg>, e: seq<Arg>, f: seq<Arg>)
    requires Defs(b) == [] && Defs(d) == [] && Defs(e) == [] && Defs(f) == []
    ensures Defs(a + b + d + e + f) == Defs(a)
  {
    hide Defs;
    DefsAppend(a, b);
    DefsAppend(a + b, d);
    DefsAppend(a + b + d, e);
    DefsAppend(a + b + d + e, f);
  }

  /** An argument belongs to one of the parts. */
  lemma ArgvMember(c: Config, extra: seq<string>, vsock: Option<(Fd, nat)>, a: Arg)
    ensures a in Argv(c, extra, vsock) <==>
            || a in MachineArgs(c) || a in FdArgs(|c.fdset|) || a in DiskArgs(c.disks, |c.disks|) || a in BootArgs(c.boot)
            || a in MountArgs(c.mounts, |c.mounts|) || a == Setting(["-device", "virtio-serial"])
            || a in SerialArgs(c.serials, |c.serials|) || a in ConsoleArgs(c) || a in VsockArgs(vsock)
            || a in SmbiosArgs(c.smbios) || a in SmbiosArgs(extra) || a in FwCfgArgs(c.fwCfg)
  {
  }

  // ---- Distinct names -------------------------------------------------------------

  lemma DistinctAppend<T>(a: seq<T>, b: seq<T>)
    requires Distinct(a) && Distinct(b) && forall x :: x in a ==> x !in b
    ensures Distinct(a + b)
  {
    forall i, j | 0 <= i < j < |a + b|
      ensures (a + b)[i] != (a + b)[j]
    {
      if i < |a| <= j {
        assert a[i] in a && b[j - |a|] in b;
      }
    }
  }

  lemma IdsInjective(i: nat, j: nat)
    ensures i != j ==> DriveId(i) != DriveId(j) && CharId(i) != CharId(j) && SerialId(i) != SerialId(j)
  {
    if i != j {
      if Decimal(i) == Decimal(j) {
        DecimalInjective(i, j);
      }
      assert DriveId(i)[5..] == Decimal(i) && DriveId(j)[5..] == Decimal(j);
      assert CharId(i)[4..] == Decimal(i) && CharId(j)[4..] == Decimal(j);
      assert SerialId(i)[11..] == Decimal(i) && SerialId(j)[11..] == Decimal(j);
    }
  }

  /** The families of names, in the order they appear: no family shares a name with another. */
  function Family(r: Ref): nat {
    match r
    case MemRef(_) => 0
    case DriveRef(_) => 1
    case CharRef(id) => if |id| < 2 then 6 else if id[0] == 's' then 3 else if id[1] == 'h' then 2 else 5
    case NetRef(_) => 4
  }

  predicate Families(s: seq<Ref>, low: nat, high: nat) {
    forall r :: r in s ==> low <= Family(r) <= high
  }

  lemma FamiliesAppend(a: seq<Ref>, b: seq<Ref>, low: nat, middle: nat, high: nat)
    requires Distinct(a) && Distinct(b) && Families(a, low, middle) && Families(b, middle + 1, high)
    requires low <= middle <= high
    ensures Distinct(a + b) && Families(a + b, low, high)
  {
    hide Family;
    DistinctAppend(a, b);
  }

  lemma DiskFamily(n: nat)
    ensures Distinct(DiskRefs(n)) && Families(DiskRefs(n), 1, 1)
  {
    forall i, j | 0 <= i < j < n
      ensures DriveId(i) != DriveId(j)
    {
      IdsInjective(i, j);
    }
    hide DriveId, DiskRefs;
  }

  lemma CharFamily(boot: Option<BootMode>, n: nat)
    ensures Distinct(BootRefs(boot) + MountRefs(n)) && Families(BootRefs(boot) + MountRefs(n), 2, 2)
  {
    var refs := BootRefs(boot) + MountRefs(n);
    var first := if BootRefs(boot) == [] then 1 else 0;
    hide CharId, MountRefs;
    assert forall i :: 0 <= i < |refs| ==> refs[i] == CharRef(CharId(i + first));
    forall i, j | 0 <= i < j < |refs|
      ensures refs[i] != refs[j]
    {
      IdsInjective(i + first, j + first);
    }
    forall r | r in refs
      ensures Family(r) == 2
    {
      var i :| 0 <= i < |refs| && refs[i] == r;
      CharIdFamily(i + first);
    }
  }

  lemma CharIdFamily(i: nat)
    ensures Family(CharRef(CharId(i))) == 2 && Family(CharRef(SerialId(i))) == 3
  {
  }

  lemma SerialFamily(n: nat)
    ensures Distinct(SerialRefs(n)) && Families(SerialRefs(n), 3, 3)
  {
    forall i, j | 0 <= i < j < n
      ensures SerialId(i) != SerialId(j)
    {
      IdsInjective(i, j);
    }
    forall i: nat
      ensures Family(CharRef(SerialId(i))) == 3
    {
      CharIdFamily(i);
    }
    hide SerialId, SerialRefs;
  }

  lemma AllRefsDistinct(c: Config)
    ensures Distinct(AllRefs(c))
  {
    hide Families, Distinct, DiskRefs, MountRefs, SerialRefs, BootRefs, ConsoleRefs;
    DiskFamily(|c.disks|);
    CharFamily(c.boot, |c.mounts|);
    SerialFamily(|c.serials|);
    SingleFamilies(c);
    var memory, disks, chars := [MemRef(MEMORY_ID)], DiskRefs(|c.disks|), BootRefs(c.boot) + MountRefs(|c.mounts|);
    FamiliesAppend(memory, disks, 0, 0, 1);
    FamiliesAppend(memory + disks, chars, 0, 1, 2);
    FamiliesAppend(memory + disks + chars, SerialRefs(|c.serials|), 0, 2, 3);
    FamiliesAppend(memory + disks + chars + SerialRefs(|c.serials|), ConsoleRefs(c), 0, 3, 5);
    assert memory + disks + BootRefs(c.boot) + MountRefs(|c.mounts|) == memory + disks + chars;
  }

  lemma SingleFamilies(c: Config)
    ensures Distinct([MemRef(MEMORY_ID)]) && Families([MemRef(MEMORY_ID)], 0, 0)
    ensures Distinct(ConsoleRefs(c)) && Families(ConsoleRefs(c), 4, 5)
  {
  }

  // ---- Every reference resolves ---------------------------------------------------

  /** Every reference on the command line has one definition: names are distinct, and each
      name used is among them. */
  lemma ArgvResolves(c: Config, extra: seq<string>, vsock: Option<(Fd, nat)>)
    ensures Distinct(Defs(Argv(c, extra, vsock)))
    ensures forall a :: a in Argv(c, extra, vsock) && Uses(a).Some? ==>
              Resolve(Argv(c, extra, vsock), Uses(a).value).Some?
  {
    var argv := Argv(c, extra, vsock);
    ArgvDefs(c, extra, vsock);
    AllRefsDistinct(c);
    forall a | a in argv && Uses(a).Some?
      ensures Resolve(argv, Uses(a).value).Some?
    {
      UsedHasDefinition(c, extra, vsock, a);
    }
  }

  lemma UsedHasDefinition(c: Config, extra: seq<string>, vsock: Option<(Fd, nat)>, a: Arg)
    requires a in Argv(c, extra, vsock) && Uses(a).Some?
    ensures exists d :: d in Argv(c, extra, vsock) && Defines(d) == Uses(a)
  {
    ArgvMember(c, extra, vsock, a);
    QuietParts(c, extra, vsock, a);
    DiskPaired(c.disks, |c.disks|);
    MountPaired(c.mounts, |c.mounts|);
    SerialPaired(c.serials, |c.serials|);
    SinglePairs(c);
    hide *;
    if a in MachineArgs(c) {
      FromPart(c, extra, vsock, MachineArgs(c), a);
    } else if a in DiskArgs(c.disks, |c.disks|) {
      FromPart(c, extra, vsock, DiskArgs(c.disks, |c.disks|), a);
    } else if a in BootArgs(c.boot) {
      FromPart(c, extra, vsock, BootArgs(c.boot), a);
    } else if a in MountArgs(c.mounts, |c.mounts|) {
      FromPart(c, extra, vsock, MountArgs(c.mounts, |c.mounts|), a);
    } else if a in SerialArgs(c.serials, |c.serials|) {
      FromPart(c, extra, vsock, SerialArgs(c.serials, |c.serials|), a);
    } else {
      FromPart(c, extra, vsock, ConsoleArgs(c), a);
    }
  }

  lemma FromPart(c: Config, extra: seq<string>, vsock: Option<(Fd, nat)>, part: seq<Arg>, a: Arg)
    requires || part == MachineArgs(c) || part == DiskArgs(c.disks, |c.disks|) || part == BootArgs(c.boot)
             || part == MountArgs(c.mounts, |c.mounts|) || part == SerialArgs(c.serials, |c.serials|)
             || part == ConsoleArgs(c)
    requires Paired(part) && a in part && Uses(a).Some?
    ensures exists d :: d in Argv(c, extra, vsock) && Defines(d) == Uses(a)
  {
  }

  /** The parts with no references. */
  lemma QuietParts(c: Config, extra: seq<string>, vsock: Option<(Fd, nat)>, a: Arg)
    requires Uses(a).Some?
    ensures a !in FdArgs(|c.fdset|) && a !in VsockArgs(vsock) && a != Setting(["-device", "virtio-serial"])
    ensures a !in SmbiosArgs(c.smbios) && a !in SmbiosArgs(extra) && a !in FwCfgArgs(c.fwCfg)
  {
    FdMembers(|c.fdset|, a);
    hide FdArgs, SmbiosArgs, FwCfgArgs;
  }

  lemma SinglePairs(c: Config)
    ensures Paired(MachineArgs(c)) && Paired(BootArgs(c.boot)) && Paired(ConsoleArgs(c))
  {
    MachinePaired(c);
    ConsolePaired(c);
    hide CharId;
    if c.boot.Some? && c.boot.value.DirectBoot? {
      assert BootArgs(c.boot)[1] in BootArgs(c.boot);
    }
  }

  lemma MachinePaired(c: Config)
    ensures Paired(MachineArgs(c))
  {
    hide MachineType, SizeArgs, RebootArgs;
    assert MemoryObject(MEMORY_ID, c.memoryMb) in MachineArgs(c);
  }

  lemma ConsolePaired(c: Config)
    ensures Paired(ConsoleArgs(c))
  {
    hide SerialLogArgs;
    assert Netdev(NET_ID, c.hostfwd) in ConsoleArgs(c);
    if c.console {
      assert DisplayArgs(c)[1] == StdioChardev(CONSOLE_ID);
      assert StdioChardev(CONSOLE_ID) in ConsoleArgs(c);
    }
  }

  predicate Paired(args: seq<Arg>) {
    forall a :: a in args && Uses(a).Some? ==> exists d :: d in args && Defines(d) == Uses(a)
  }

  lemma PairedAdd(args: seq<Arg>, d: Arg, a: Arg)
    requires Paired(args) && Uses(d).None? && Defines(d) == Uses(a)
    ensures Paired(args + [d, a])
  {
  }

  lemma {:induction false} DiskPaired(disks: seq<BlkDevice>, n: nat)
    requires n <= |disks|
    ensures Paired(DiskArgs(disks, n))
  {
    hide DriveId;
    if n > 0 {
      DiskPaired(disks, n - 1);
      var d := disks[n - 1];
      PairedAdd(DiskArgs(disks, n - 1), Drive(DriveId(n - 1), d.diskFile, d.format, d.readonly),
                BlockDevice(DriveId(n - 1), d.serial));
    }
  }

  lemma {:induction false} DiskMembers(disks: seq<BlkDevice>, n: nat, i: nat)
    requires i < n <= |disks|
    ensures Drive(DriveId(i), disks[i].diskFile, disks[i].format, disks[i].readonly) in DiskArgs(disks, n)
    ensures BlockDevice(DriveId(i), disks[i].serial) in DiskArgs(disks, n)
  {
    hide DriveId;
    if i < n - 1 {
      DiskMembers(disks, n - 1, i);
    }
  }

  lemma {:induction false} MountPaired(mounts: seq<Mount>, n: nat)
    requires n <= |mounts|
    ensures Paired(MountArgs(mounts, n))
  {
    hide CharId;
    if n > 0 {
      MountPaired(mounts, n - 1);
      var d := mounts[n - 1];
      PairedAdd(MountArgs(mounts, n - 1), SocketChardev(CharId(n), d.socketPath),
                FsDevice(CharId(n), d.tag));
    }
  }

  lemma {:induction false} MountMembers(mounts: seq<Mount>, n: nat, i: nat)
    requires i < n <= |mounts|
    ensures SocketChardev(CharId(i + 1), mounts[i].socketPath) in MountArgs(mounts, n)
    ensures FsDevice(CharId(i + 1), mounts[i].tag) in MountArgs(mounts, n)
  {
    hide CharId;
    if i < n - 1 {
      MountMembers(mounts, n - 1, i);
    }
  }

  lemma {:induction false} SerialPaired(serials: seq<SerialOut>, n: nat)
    requires n <= |serials|
    ensures Paired(SerialArgs(serials, n))
  {
    hide SerialId;
    if n > 0 {
      SerialPaired(serials, n - 1);
      var d := serials[n - 1];
      PairedAdd(SerialArgs(serials, n - 1), FileChardev(SerialId(n - 1), d.outputFile, d.append),
                SerialPort(SerialId(n - 1), d.name));
    }
  }

  lemma {:induction false} SerialMembers(serials: seq<SerialOut>, n: nat, i: nat)
    requires i < n <= |serials|
    ensures FileChardev(SerialId(i), serials[i].outputFile, serials[i].append) in SerialArgs(serials, n)
    ensures SerialPort(SerialId(i), serials[i].name) in SerialArgs(serials, n)
  {
    hide SerialId;
    if i < n - 1 {
      SerialMembers(serials, n - 1, i);
    }
  }

  /** An argument of the command line that defines a name is what the name resolves to. */
  lemma ArgvResolve(c: Config, extra: seq<string>, vsock: Option<(Fd, nat)>, d: Arg)
    requires Defines(d).Some?
    requires || d in DiskArgs(c.disks, |c.disks|) || d in MountArgs(c.mounts, |c.mounts|)
             || d in SerialArgs(c.serials, |c.serials|) || d in BootArgs(c.boot)
    ensures Resolve(Argv(c, extra, vsock), Defines(d).value) == Some(d)
  {
    hide Argv, Resolve, Defs, Distinct;
    ArgvMember(c, extra, vsock, d);
    ArgvResolves(c, extra, vsock);
    ResolvesUniquely(Argv(c, extra, vsock), d);
  }

  /** Each configured disk is on the command line, and its drive leads to its own file. */
  lemma DisksReachTheirFiles(c: Config, extra: seq<string>, vsock: Option<(Fd, nat)>, i: nat)
    requires i < |c.disks|
    ensures BlockDevice(DriveId(i), c.disks[i].serial) in Argv(c, extra, vsock)
    ensures Resolve(Argv(c, extra, vsock), DriveRef(DriveId(i))) ==
            Some(Drive(DriveId(i), c.disks[i].diskFile, c.disks[i].format, c.disks[i].readonly))
  {
    DiskMembers(c.disks, |c.disks|, i);
    hide Argv, Resolve, Paired, MachineArgs, BootArgs, ConsoleArgs, DiskArgs, DriveId;
    ArgvMember(c, extra, vsock, BlockDevice(DriveId(i), c.disks[i].serial));
    ArgvResolve(c, extra, vsock, Drive(DriveId(i), c.disks[i].diskFile, c.disks[i].format, c.disks[i].readonly));
  }

  /** Each mount is on the command line, and its channel leads to its own socket. */
  lemma MountsReachTheirSockets(c: Config, extra: seq<string>, vsock: Option<(Fd, nat)>, i: nat)
    requires i < |c.mounts|
    ensures FsDevice(CharId(i + 1), c.mounts[i].tag) in Argv(c, extra, vsock)
    ensures Resolve(Argv(c, extra, vsock), CharRef(CharId(i + 1))) ==
            Some(SocketChardev(CharId(i + 1), c.mounts[i].socketPath))
  {
    MountMembers(c.mounts, |c.mounts|, i);
    hide Argv, Resolve, Paired, MachineArgs, BootArgs, ConsoleArgs, MountArgs, CharId;
    ArgvMember(c, extra, vsock, FsDevice(CharId(i + 1), c.mounts[i].tag));
    ArgvResolve(c, extra, vsock, SocketChardev(CharId(i + 1), c.mounts[i].socketPath));
  }

  /** The root file system's device leads to the root socket. */
  lemma RootReachesItsSocket(c: Config, extra: seq<string>, vsock: Option<(Fd, nat)>)
    requires c.boot.Some? && c.boot.value.DirectBoot?
    ensures FsDevice(CharId(0), "rootfs") in Argv(c, extra, vsock)
    ensures Resolve(Argv(c, extra, vsock), CharRef(CharId(0))) ==
            Some(SocketChardev(CharId(0), c.boot.value.virtiofsSocket))
  {
    hide Argv, Resolve, CharId;
    assert BootArgs(c.boot)[1] == SocketChardev(CharId(0), c.boot.value.virtiofsSocket);
    assert BootArgs(c.boot)[2] == FsDevice(CharId(0), "rootfs");
    hide BootArgs;
    ArgvMember(c, extra, vsock, FsDevice(CharId(0), "rootfs"));
    ArgvResolve(c, extra, vsock, SocketChardev(CharId(0), c.boot.value.virtiofsSocket));
  }

  /** Each serial device is on the command line, and its channel leads to its own file. */
  lemma SerialsReachTheirFiles(c: Config, extra: seq<string>, vsock: Option<(Fd, nat)>, i: nat)
    requires i < |c.serials|
    ensures SerialPort(SerialId(i), c.serials[i].name) in Argv(c, extra, vsock)
    ensures Resolve(Argv(c, extra, vsock), CharRef(SerialId(i))) ==
            Some(FileChardev(SerialId(i), c.serials[i].outputFile, c.serials[i].append))
  {
    SerialMembers(c.serials, |c.serials|, i);
    hide Argv, Resolve, Paired, MachineArgs, BootArgs, ConsoleArgs, SerialArgs, SerialId;
    ArgvMember(c, extra, vsock, SerialPort(SerialId(i), c.serials[i].name));
    ArgvResolve(c, extra, vsock, FileChardev(SerialId(i), c.serials[i].outputFile, c.serials[i].append));
  }

  // ---- Passed files ---------------------------------------------------------------

  /** Builder calls only add to the lists. */
  lemma CallExtends(c: Config, call: Call)
    ensures var d := After(c, call);
            c.fdset <= d.fdset && c.serials <= d.serials && c.disks <= d.disks && c.mounts <= d.mounts
  {
  }

  lemma {:induction false} CallsExtend(c: Config, calls: seq<Call>)
    ensures var d := AfterAll(c, calls);
            c.fdset <= d.fdset && c.serials <= d.serials && c.disks <= d.disks && c.mounts <= d.mounts
    decreases |calls|
  {
    hide After;
    if calls != [] {
      CallExtends(c, calls[0]);
      CallsExtend(After(c, calls[0]), calls[1..]);
    }
  }

  /** The set named by a path carries one file, and it is this one. */
  ghost predicate SetCarries(argv: seq<Arg>, passed: seq<(Fd, nat)>, path: string, fd: Fd) {
    exists number: nat, n: nat ::
      && path == FdsetPath(n) && PassFd(number, n) in argv && (fd, number) in passed
      && (forall a :: a in argv && a.PassFd? && a.set_ == n ==> a.fd == number)
      && (forall p :: p in passed && p.1 == number ==> p.0 == fd)
  }

  ghost predicate NumbersApart(passed: seq<(Fd, nat)>) {
    forall i, j :: 0 <= i < j < |passed| ==> passed[i].1 != passed[j].1
  }

  /** The child's numbers for passed files differ from one another and from the vsock's, and
      the path a call returned for a file names that file's set after any further calls. */
  lemma FdPathStays(c: Config, fd: Fd, calls: seq<Call>, extra: seq<string>, vsock: Option<(Fd, nat)>)
    ensures var first := After(c, AddFd(fd));
            var last := AfterAll(first, calls);
            && SetCarries(Argv(last, extra, vsock), Passed(last.fdset, vsock), FdsetPath(|first.fdset|), fd)
            && NumbersApart(Passed(last.fdset, vsock))
  {
    var first := After(c, AddFd(fd));
    CallsExtend(first, calls);
    hide SetCarries, Argv, AfterAll, FdsetPath, Passed, NumbersApart;
    SetOfMember(AfterAll(first, calls), |c.fdset|, extra, vsock);
    PassedApart(AfterAll(first, calls).fdset, vsock);
  }

  lemma PassedApart(fdset: seq<Fd>, vsock: Option<(Fd, nat)>)
    ensures NumbersApart(Passed(fdset, vsock))
  {
  }

  lemma SetOfMember(c: Config, i: nat, extra: seq<string>, vsock: Option<(Fd, nat)>)
    requires i < |c.fdset|
    ensures SetCarries(Argv(c, extra, vsock), Passed(c.fdset, vsock), FdsetPath(i + 1), c.fdset[i])
  {
    var argv, passed := Argv(c, extra, vsock), Passed(c.fdset, vsock);
    var number, n := FIRST_FD + i, i + 1;
    forall a: Arg
      ensures a.PassFd? ==> (a in argv <==> 1 <= a.set_ <= |c.fdset| && a.fd == FIRST_FD + a.set_ - 1)
    {
      if a.PassFd? {
        PassedArgs(c, extra, vsock, a);
      }
    }
    assert PassFd(number, n) in argv;
    OneFileAtNumber(c.fdset, vsock, i);
    hide FdArgs, Argv, Passed, FdsetPath;
  }

  lemma OneFileAtNumber(fdset: seq<Fd>, vsock: Option<(Fd, nat)>, i: nat)
    requires i < |fdset|
    ensures (fdset[i], FIRST_FD + i) in Passed(fdset, vsock)
    ensures forall p :: p in Passed(fdset, vsock) && p.1 == FIRST_FD + i ==> p.0 == fdset[i]
  {
  }

  lemma PassedArgs(c: Config, extra: seq<string>, vsock: Option<(Fd, nat)>, a: Arg)
    requires a.PassFd?
    ensures a in Argv(c, extra, vsock) <==> 1 <= a.set_ <= |c.fdset| && a.fd == FIRST_FD + a.set_ - 1
  {
    ArgvMember(c, extra, vsock, a);
    FdMembers(|c.fdset|, a);
    NoFdElsewhere(c.disks, |c.disks|, c.mounts, |c.mounts|, c.serials, |c.serials|);
    NoFdInSingles(c, vsock, a);
    hide Argv, MachineArgs, FdArgs, DiskArgs, BootArgs, MountArgs, SerialArgs, ConsoleArgs, SmbiosArgs, FwCfgArgs, VsockArgs;
  }

  lemma NoFdInSingles(c: Config, vsock: Option<(Fd, nat)>, a: Arg)
    requires a.PassFd?
    ensures a !in MachineArgs(c) && a !in BootArgs(c.boot) && a !in ConsoleArgs(c) && a !in VsockArgs(vsock)
  {
  }

  lemma {:induction false} NoFdElsewhere(disks: seq<BlkDevice>, d: nat, mounts: seq<Mount>, m: nat,
                                         serials: seq<SerialOut>, s: nat)
    requires d <= |disks| && m <= |mounts| && s <= |serials|
    ensures forall a :: a in DiskArgs(disks, d) || a in MountArgs(mounts, m) || a in SerialArgs(serials, s) ==> !a.PassFd?
    decreases d + m + s
  {
    hide DriveId, CharId, SerialId;
    if d > 0 {
      NoFdElsewhere(disks, d - 1, mounts, m, serials, s);
    } else if m > 0 {
      NoFdElsewhere(disks, d, mounts, m - 1, serials, s);
    } else if s > 0 {
      NoFdElsewhere(disks, d, mounts, m, serials, s - 1);
    }
  }

  /** A pipe's serial port writes into the set that carries the pipe's own write end, after
      any further calls. */
  lemma PipePortReachesPipe(c: Config, name: string, writeEnd: Fd, calls: seq<Call>, extra: seq<string>,
                            vsock: Option<(Fd, nat)>)
    ensures var last := AfterAll(After(c, AddSerialPipe(name, writeEnd)), calls);
            var argv := Argv(last, extra, vsock);
            var id := SerialId(|c.serials|);
            && SerialPort(id, name) in argv
            && Resolve(argv, CharRef(id)) == Some(FileChardev(id, FdsetPath(|c.fdset| + 1), true))
            && SetCarries(argv, Passed(last.fdset, vsock), FdsetPath(|c.fdset| + 1), writeEnd)
  {
    var first := After(c, AddSerialPipe(name, writeEnd));
    var last := AfterAll(first, calls);
    CallsExtend(first, calls);
    assert last.serials[|c.serials|] == first.serials[|c.serials|];
    assert last.fdset[|c.fdset|] == first.fdset[|c.fdset|];
    hide SetCarries, Argv, Resolve, AfterAll, SerialId, FdsetPath, Passed;
    SerialsReachTheirFiles(last, extra, vsock, |c.serials|);
    SetOfMember(last, |c.fdset|, extra, vsock);
  }
}
