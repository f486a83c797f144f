/** The QEMU configuration builder and the command line it is compiled to. Values are taken
    to hold no commas; how an argument is spelled is not modelled. */
module Qemu {
  import opened Wrappers
  import opened Text

  // ---- Configuration --------------------------------------------------------------

  /** An open file, known by its identity. */
  type Fd = nat

  datatype DiskFormat = Raw | Qcow2

  datatype BlkDevice = BlkDevice(diskFile: string, serial: string, format: DiskFormat, readonly: bool)

  datatype Mount = Mount(socketPath: string, tag: string)

  datatype SerialOut = SerialOut(name: string, outputFile: string, append: bool)

  datatype BootMode =
    | DirectBoot(kernel: string, initramfs: string, cmdline: seq<string>, virtiofsSocket: string)
    | IsoBoot(iso: string)

  datatype Config = Config(
    memoryMb: nat, vcpus: nat, machine: Option<string>, boot: Option<BootMode>, fdset: seq<Fd>,
    mounts: seq<Mount>, serials: seq<SerialOut>, disks: seq<BlkDevice>, console: bool, hostfwd: seq<string>,
    smbios: seq<string>, serialLog: Option<string>, noReboot: bool, fwCfg: seq<(string, string)>)

  /** The path under which QEMU opens a member of a file descriptor set. */
  function FdsetPath(set_: nat): string {
    "/dev/fdset/" + Decimal(set_)
  }

  const SYSTEMD_CREDENTIAL_PREFIX := "opt/io.systemd.credentials/"

  /** A builder call. The pipe of the serial device comes from the system. */
  datatype Call =
    | AddBlk(disk: BlkDevice)
    | AddVirtiofs(socketPath: string, tag: string)
    | AddSerialOut(name: string, outputFile: string, append: bool)
    | AddFd(fd: Fd)
    | AddSerialPipe(name: string, writeEnd: Fd)
    | AddSmbios(credential: string)
    | EnableSsh(hostPort: Option<nat>)
    | AddFwCfg(entry: string, path: string)
    | AddSystemdCredential(entry: string, path: string)
    | SetKernelCmdline(cmdline: seq<string>)
    | SetConsole(enable: bool)

  function After(c: Config, call: Call): Config {
    match call
    case AddBlk(disk) => c.(disks := c.disks + [disk])
    case AddVirtiofs(socketPath, tag) => c.(mounts := c.mounts + [Mount(socketPath, tag)])
    case AddSerialOut(name, outputFile, append) => c.(serials := c.serials + [SerialOut(name, outputFile, append)])
    case AddFd(fd) => c.(fdset := c.fdset + [fd])
    case AddSerialPipe(name, writeEnd) =>
      c.(fdset := c.fdset + [writeEnd], serials := c.serials + [SerialOut(name, FdsetPath(|c.fdset| + 1), true)])
    case AddSmbios(credential) => c.(smbios := c.smbios + [credential])
    case EnableSsh(port) =>
      c.(hostfwd := ["tcp::" + Decimal(if port.Some? then port.value else 2222) + "-:22"])
    case AddFwCfg(entry, path) => c.(fwCfg := c.fwCfg + [(entry, path)])
    case AddSystemdCredential(entry, path) => c.(fwCfg := c.fwCfg + [(SYSTEMD_CREDENTIAL_PREFIX + entry, path)])
    case SetKernelCmdline(cmdline) =>
      if c.boot.Some? && c.boot.value.DirectBoot? then c.(boot := Some(c.boot.value.(cmdline := cmdline))) else c
    case SetConsole(enable) => if enable then c.(console := true) else c
  }

  function AfterAll(c: Config, calls: seq<Call>): Config
    decreases |calls|
  {
    if calls == [] then c else AfterAll(After(c, calls[0]), calls[1..])
  }

  // ---- Arguments ------------------------------------------------------------------

  datatype Arg =
    | Setting(words: seq<string>)
    | MemoryObject(id: string, megabytes: nat)
    | Numa(memdev: string)
    | PassFd(fd: nat, set_: nat)
    | Drive(id: string, file: string, format: DiskFormat, readonly: bool)
    | BlockDevice(drive: string, serial: string)
    | SocketChardev(id: string, path: string)
    | FileChardev(id: string, path: string, append: bool)
    | StdioChardev(id: string)
    | FsDevice(chardev: string, tag: string)
    | SerialPort(chardev: string, name: string)
    | ConsoleDevice(chardev: string)
    | Monitor(chardev: string)
    | Netdev(id: string, hostfwd: seq<string>)
    | NetDevice(netdev: string)
    | VsockDevice(cid: nat, fd: nat)

  /** What an argument gives a name to. */
  datatype Ref = DriveRef(id: string) | CharRef(id: string) | NetRef(id: string) | MemRef(id: string)

  function Defines(a: Arg): Option<Ref> {
    match a
    case MemoryObject(id, _) => Some(MemRef(id))
    case Drive(id, _, _, _) => Some(DriveRef(id))
    case SocketChardev(id, _) => Some(CharRef(id))
    case FileChardev(id, _, _) => Some(CharRef(id))
    case StdioChardev(id) => Some(CharRef(id))
    case Netdev(id, _) => Some(NetRef(id))
    case _ => None
  }

  function Uses(a: Arg): Option<Ref> {
    match a
    case Numa(memdev) => Some(MemRef(memdev))
    case BlockDevice(drive, _) => Some(DriveRef(drive))
    case FsDevice(chardev, _) => Some(CharRef(chardev))
    case SerialPort(chardev, _) => Some(CharRef(chardev))
    case ConsoleDevice(chardev) => Some(CharRef(chardev))
    case Monitor(chardev) => Some(CharRef(chardev))
    case NetDevice(netdev) => Some(NetRef(netdev))
    case _ => None
  }

  function DriveId(i: nat): string {
    "drive" + Decimal(i)
  }

  function CharId(i: nat): string {
    "char" + Decimal(i)
  }

  function SerialId(i: nat): string {
    "serial_char" + Decimal(i)
  }

  const CONSOLE_ID := "console0"
  const NET_ID := "net0"
  const MEMORY_ID := "mem"
  const FIRST_FD := 100
  const VSOCK_FD := 42

  // ---- The builder object ---------------------------------------------------------

  class QemuConfig {
    var memoryMb: nat
    var vcpus: nat
    var machine: Option<string>
    var boot: Option<BootMode>
    var fdset: seq<Fd>
    var mounts: seq<Mount>
    var serials: seq<SerialOut>
    var disks: seq<BlkDevice>
    var console: bool
    var hostfwd: seq<string>
    var smbios: seq<string>
    var serialLog: Option<string>
    var noReboot: bool
    var fwCfg: seq<(string, string)>

    function Value(): Config
      reads this
    {
      Config(memoryMb, vcpus, machine, boot, fdset, mounts, serials, disks, console, hostfwd, smbios, serialLog,
             noReboot, fwCfg)
    }

    constructor (memory: nat, cpus: nat, machineType: Option<string>, mode: BootMode)
      ensures Value() == Config(memory, cpus, machineType, Some(mode), [], [], [], [], false, [], [], None, false, [])
    {
      memoryMb, vcpus, machine, boot := memory, cpus, machineType, Some(mode);
      fdset, mounts, serials, disks := [], [], [], [];
      console, hostfwd, smbios, serialLog, noReboot, fwCfg := false, [], [], None, false, [];
    }

    method AddVirtioBlkDevice(disk: BlkDevice)
      modifies this
      ensures Value() == After(old(Value()), AddBlk(disk))
      ensures Value() == old(Value()).(disks := old(disks) + [disk])
    {
      disks := disks + [disk];
    }

    method AddVirtiofs(socketPath: string, tag: string)
      modifies this
      ensures Value() == After(old(Value()), Call.AddVirtiofs(socketPath, tag))
      ensures Value() == old(Value()).(mounts := old(mounts) + [Mount(socketPath, tag)])
    {
      mounts := mounts + [Mount(socketPath, tag)];
    }

    method AddVirtioSerialOut(name: string, outputFile: string, append: bool)
      modifies this
      ensures Value() == After(old(Value()), AddSerialOut(name, outputFile, append))
      ensures Value() == old(Value()).(serials := old(serials) + [SerialOut(name, outputFile, append)])
    {
      serials := serials + [SerialOut(name, outputFile, append)];
    }

    /** The returned path names the set that will carry the file. */
    method AddFd(fd: Fd) returns (path: string)
      modifies this
      ensures Value() == After(old(Value()), Call.AddFd(fd))
      ensures path == FdsetPath(|fdset|) && Value() == old(Value()).(fdset := old(fdset) + [fd])
    {
      fdset := fdset + [fd];
      path := "/dev/fdset/" + Decimal(|fdset|);
    }

    method AddVirtioSerialPipe(name: string, readEnd: Fd, writeEnd: Fd) returns (r: Fd)
      modifies this
      ensures Value() == After(old(Value()), AddSerialPipe(name, writeEnd)) && r == readEnd
      ensures Value() == old(Value()).(fdset := old(fdset) + [writeEnd],
                                       serials := old(serials) + [SerialOut(name, FdsetPath(|fdset|), true)])
    {
      var path := AddFd(writeEnd);
      AddVirtioSerialOut(name, path, true);
      r := readEnd;
    }

    method AddSmbiosCredential(credential: string)
      modifies this
      ensures Value() == After(old(Value()), AddSmbios(credential))
      ensures Value() == old(Value()).(smbios := old(smbios) + [credential])
    {
      smbios := smbios + [credential];
    }

    method EnableSshAccess(hostPort: Option<nat>)
      modifies this
      ensures Value() == After(old(Value()), EnableSsh(hostPort))
      ensures hostPort.Some? ==> hostfwd == ["tcp::" + Decimal(hostPort.value) + "-:22"]
      ensures hostPort.None? ==> hostfwd == ["tcp::" + Decimal(2222) + "-:22"]
      ensures Value() == old(Value()).(hostfwd := hostfwd)
    {
      var port := if hostPort.Some? then hostPort.value else 2222;
      hostfwd := ["tcp::" + Decimal(port) + "-:22"];
    }

    method AddFwCfg(entry: string, path: string)
      modifies this
      ensures Value() == After(old(Value()), Call.AddFwCfg(entry, path))
      ensures Value() == old(Value()).(fwCfg := old(fwCfg) + [(entry, path)])
    {
      fwCfg := fwCfg + [(entry, path)];
    }

    method AddSystemdCredentialFile(entry: string, path: string)
      modifies this
      ensures Value() == After(old(Value()), AddSystemdCredential(entry, path))
      ensures Value() == old(Value()).(fwCfg := old(fwCfg) + [("opt/io.systemd.credentials/" + entry, path)])
    {
      AddFwCfg(SYSTEMD_CREDENTIAL_PREFIX + entry, path);
    }

    method SetKernelCmdline(cmdline: seq<string>)
      modifies this
      ensures Value() == After(old(Value()), Call.SetKernelCmdline(cmdline))
      ensures old(boot).Some? && old(boot).value.DirectBoot? ==>
                Value() == old(Value()).(boot := Some(old(boot).value.(cmdline := cmdline)))
      ensures !(old(boot).Some? && old(boot).value.DirectBoot?) ==> Value() == old(Value())
    {
      if boot.Some? && boot.value.DirectBoot? {
        boot := Some(boot.value.(cmdline := cmdline));
      }
    }

    method SetConsole(enable: bool)
      modifies this
      ensures Value() == After(old(Value()), Call.SetConsole(enable))
      ensures Value() == old(Value()).(console := old(console) || enable)
    {
      if enable {
        console := true;
      }
    }

    // ---- Compiling to arguments ---------------------------------------------------

    /** Compiles the configuration to arguments and to the files passed under a number. */
    method Spawn(extraCredentials: seq<string>, vsock: Option<(Fd, nat)>)
      returns (args: seq<Arg>, passed: seq<(Fd, nat)>)
      ensures args == Argv(Value(), extraCredentials, vsock)
      ensures passed == Passed(fdset, vsock)
    {
      hide MachineArgs, FdArgs, DiskArgs, BootArgs, MountArgs, SerialArgs, ConsoleArgs, VsockArgs, SmbiosArgs, FwCfgArgs;
      args := SpawnMachine();
      args, passed := SpawnFds(args);
      args := SpawnDisks(args);
      args := SpawnBoot(args);
      args := SpawnMounts(args);
      args := args + [Setting(["-device", "virtio-serial"])];
      args := SpawnSerials(args);
      args := SpawnConsole(args);
      args, passed := SpawnVsock(args, passed, vsock);
      args := SpawnCredentials(args, smbios);
      args := SpawnCredentials(args, extraCredentials);
      args := SpawnFwCfg(args);
    }

    method SpawnMachine() returns (args: seq<Arg>)
      ensures args == MachineArgs(Value())
    {
      args := if machine.Some? then [Setting(["-machine", machine.value])] else [];
      args := args + [Setting(["-m", Decimal(memoryMb) + "M", "-smp", Decimal(vcpus), "-enable-kvm", "-cpu", "host",
                               "-audio", "none"]),
                      MemoryObject(MEMORY_ID, memoryMb), Numa(MEMORY_ID)];
      if noReboot {
        args := args + [Setting(["-no-reboot"])];
      }
    }

    method SpawnFds(before: seq<Arg>) returns (args: seq<Arg>, passed: seq<(Fd, nat)>)
      ensures args == before + FdArgs(|fdset|) && passed == Numbered(fdset)
    {
      args, passed := before, [];
      for idx := 0 to |fdset|
        invariant args == before + FdArgs(idx)
        invariant passed == Numbered(fdset)[..idx]
      {
        passed := passed + [(fdset[idx], FIRST_FD + idx)];
        args := args + [PassFd(FIRST_FD + idx, idx + 1)];
      }
    }

    method SpawnDisks(before: seq<Arg>) returns (args: seq<Arg>)
      ensures args == before + DiskArgs(disks, |disks|)
    {
      hide DriveId;
      args := before;
      for idx := 0 to |disks|
        invariant args == before + DiskArgs(disks, idx)
      {
        args := args + [Drive(DriveId(idx), disks[idx].diskFile, disks[idx].format, disks[idx].readonly),
                        BlockDevice(DriveId(idx), disks[idx].serial)];
      }
    }

    method SpawnBoot(before: seq<Arg>) returns (args: seq<Arg>)
      ensures args == before + BootArgs(boot)
    {
      hide CharId;
      args := before;
      if boot.Some? {
        match boot.value {
          case DirectBoot(kernel, initramfs, cmdline, socket) =>
            args := args + [Setting(["-kernel", kernel, "-initrd", initramfs]), SocketChardev(CharId(0), socket),
                            FsDevice(CharId(0), "rootfs"), Setting(["-append", Join(cmdline, " ")])];
          case IsoBoot(iso) =>
            args := args + [Setting(["-cdrom", iso])];
        }
      }
    }

    method SpawnMounts(before: seq<Arg>) returns (args: seq<Arg>)
      ensures args == before + MountArgs(mounts, |mounts|)
    {
      hide CharId;
      args := before;
      for idx := 0 to |mounts|
        invariant args == before + MountArgs(mounts, idx)
      {
        args := args + [SocketChardev(CharId(idx + 1), mounts[idx].socketPath),
                        FsDevice(CharId(idx + 1), mounts[idx].tag)];
      }
    }

    method SpawnSerials(before: seq<Arg>) returns (args: seq<Arg>)
      ensures args == before + SerialArgs(serials, |serials|)
    {
      hide SerialId;
      args := before;
      for idx := 0 to |serials|
        invariant args == before + SerialArgs(serials, idx)
      {
        args := args + [FileChardev(SerialId(idx), serials[idx].outputFile, serials[idx].append),
                        SerialPort(SerialId(idx), serials[idx].name)];
      }
    }

    method SpawnConsole(before: seq<Arg>) returns (args: seq<Arg>)
      ensures args == before + ConsoleArgs(Value())
    {
      args := before + [Netdev(NET_ID, hostfwd), NetDevice(NET_ID)];
      args := args + [Setting(["-serial", if serialLog.Some? then "file:" + serialLog.value else "none"]),
                      Setting(["-nographic", "-display", "none"])];
      if console {
        args := args + [ConsoleDevice(CONSOLE_ID), StdioChardev(CONSOLE_ID), Monitor(CONSOLE_ID)];
      } else {
        args := args + [Setting(["-monitor", "none"])];
      }
    }

    method SpawnVsock(before: seq<Arg>, numbered: seq<(Fd, nat)>, vsock: Option<(Fd, nat)>)
      returns (args: seq<Arg>, passed: seq<(Fd, nat)>)
      ensures args == before + VsockArgs(vsock)
      ensures passed == numbered + if vsock.Some? then [(vsock.value.0, VSOCK_FD)] else []
    {
      args, passed := before, numbered;
      if vsock.Some? {
        passed := passed + [(vsock.value.0, VSOCK_FD)];
        args := args + [VsockDevice(vsock.value.1, VSOCK_FD)];
      }
    }

    method SpawnCredentials(before: seq<Arg>, credentials: seq<string>) returns (args: seq<Arg>)
      ensures args == before + SmbiosArgs(credentials)
    {
      args := before;
      for i := 0 to |credentials|
        invariant args == before + SmbiosArgs(credentials)[..i]
      {
        args := args + [Setting(["-smbios", "type=11,value=" + credentials[i]])];
      }
    }

    method SpawnFwCfg(before: seq<Arg>) returns (args: seq<Arg>)
      ensures args == before + FwCfgArgs(fwCfg)
    {
      args := before;
      for i := 0 to |fwCfg|
        invariant args == before + FwCfgArgs(fwCfg)[..i]
      {
        args := args + [Setting(["-fw_cfg", "name=" + fwCfg[i].0 + ",file=" + fwCfg[i].1])];
      }
    }
  }

  // ---- The arguments, part by part ------------------------------------------------

  function MachineType(c: Config): (r: seq<Arg>)
    ensures forall a :: a in r ==> a.Setting?
  {
    if c.machine.Some? then [Setting(["-machine", c.machine.value])] else []
  }

  function SizeArgs(c: Config): (r: seq<Arg>)
    ensures forall a :: a in r ==> a.Setting?
  {
    [Setting(["-m", Decimal(c.memoryMb) + "M", "-smp", Decimal(c.vcpus), "-enable-kvm", "-cpu", "host", "-audio", "none"])]
  }

  function RebootArgs(c: Config): (r: seq<Arg>)
    ensures forall a :: a in r ==> a.Setting?
  {
    if c.noReboot then [Setting(["-no-reboot"])] else []
  }

  function MachineArgs(c: Config): seq<Arg> {
    MachineType(c) + SizeArgs(c) + [MemoryObject(MEMORY_ID, c.memoryMb), Numa(MEMORY_ID)] + RebootArgs(c)
  }

  function FdArgs(n: nat): seq<Arg> {
    if n == 0 then [] else FdArgs(n - 1) + [PassFd(FIRST_FD + n - 1, n)]
  }

  function DiskArgs(disks: seq<BlkDevice>, n: nat): seq<Arg>
    requires n <= |disks|
  {
    if n == 0 then []
    else
      var d := disks[n - 1];
      DiskArgs(disks, n - 1)
      + [Drive(DriveId(n - 1), d.diskFile, d.format, d.readonly), BlockDevice(DriveId(n - 1), d.serial)]
  }

  function BootArgs(boot: Option<BootMode>): seq<Arg> {
    match boot
    case None => []
    case Some(IsoBoot(iso)) => [Setting(["-cdrom", iso])]
    case Some(DirectBoot(kernel, initramfs, cmdline, socket)) =>
      [Setting(["-kernel", kernel, "-initrd", initramfs]), SocketChardev(CharId(0), socket),
       FsDevice(CharId(0), "rootfs"), Setting(["-append", Join(cmdline, " ")])]
  }

  function MountArgs(mounts: seq<Mount>, n: nat): seq<Arg>
    requires n <= |mounts|
  {
    if n == 0 then []
    else MountArgs(mounts, n - 1)
         + [SocketChardev(CharId(n), mounts[n - 1].socketPath), FsDevice(CharId(n), mounts[n - 1].tag)]
  }

  function SerialArgs(serials: seq<SerialOut>, n: nat): seq<Arg>
    requires n <= |serials|
  {
    if n == 0 then []
    else
      var s := serials[n - 1];
      SerialArgs(serials, n - 1)
      + [FileChardev(SerialId(n - 1), s.outputFile, s.append), SerialPort(SerialId(n - 1), s.name)]
  }

  function SerialLogArgs(c: Config): (r: seq<Arg>)
    ensures forall a :: a in r ==> a.Setting?
  {
    [Setting(["-serial", if c.serialLog.Some? then "file:" + c.serialLog.value else "none"]),
     Setting(["-nographic", "-display", "none"])]
  }

  function DisplayArgs(c: Config): seq<Arg> {
    if c.console then [ConsoleDevice(CONSOLE_ID), StdioChardev(CONSOLE_ID), Monitor(CONSOLE_ID)]
    else [Setting(["-monitor", "none"])]
  }

  function ConsoleArgs(c: Config): seq<Arg> {
    [Netdev(NET_ID, c.hostfwd), NetDevice(NET_ID)] + SerialLogArgs(c) + DisplayArgs(c)
  }

  function VsockArgs(vsock: Option<(Fd, nat)>): seq<Arg> {
    if vsock.Some? then [VsockDevice(vsock.value.1, VSOCK_FD)] else []
  }

  function SmbiosArgs(credentials: seq<string>): (r: seq<Arg>)
    ensures forall a :: a in r ==> a.Setting?
  {
    seq(|credentials|, i requires 0 <= i < |credentials| => Setting(["-smbios", "type=11,value=" + credentials[i]]))
  }

  function FwCfgArgs(entries: seq<(string, string)>): (r: seq<Arg>)
    ensures forall a :: a in r ==> a.Setting?
  {
    seq(|entries|, i requires 0 <= i < |entries| =>
        Setting(["-fw_cfg", "name=" + entries[i].0 + ",file=" + entries[i].1]))
  }

  function Argv(c: Config, extraCredentials: seq<string>, vsock: Option<(Fd, nat)>): seq<Arg> {
    MachineArgs(c) + FdArgs(|c.fdset|) + DiskArgs(c.disks, |c.disks|) + BootArgs(c.boot)
    + MountArgs(c.mounts, |c.mounts|) + [Setting(["-device", "virtio-serial"])]
    + SerialArgs(c.serials, |c.serials|) + ConsoleArgs(c) + VsockArgs(vsock)
    + SmbiosArgs(c.smbios) + SmbiosArgs(extraCredentials) + FwCfgArgs(c.fwCfg)
  }

  /** The files of the sets, each with its number in the child process. */
  function Numbered(fdset: seq<Fd>): (r: seq<(Fd, nat)>)
    ensures |r| == |fdset| && forall i :: 0 <= i < |r| ==> r[i] == (fdset[i], FIRST_FD + i)
  {
    seq(|fdset|, i requires 0 <= i < |fdset| => (fdset[i], FIRST_FD + i))
  }

  function Passed(fdset: seq<Fd>, vsock: Option<(Fd, nat)>): seq<(Fd, nat)> {
    Numbered(fdset) + if vsock.Some? then [(vsock.value.0, VSOCK_FD)] else []
  }
}
