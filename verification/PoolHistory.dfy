/** The commands that change the storage pool and its VMs as the steps of a history, and the
    exact condition under which every VM disk keeps its base disk through the whole history. */
module PoolHistory {
  import opened Wrappers
  import opened Text
  import opened CacheMetadata
  import opened DiskNames
  import opened ToDisk
  import opened BaseDiskCreators
  import opened StoragePool

  datatype Domain = Domain(disk: string, persistent: bool, state: string)

  const RUNNING := "running"
  const SHUT_OFF := "shut off"

  datatype PoolState = PoolState(files: Files, domains: map<string, Domain>)

  /** How the outside operations of one find-or-create command end. */
  datatype CreateScript = CreateScript(
    readBase: bool, removeStale: bool, makeTemp: bool, install: Script, verify: bool, persist: bool)

  datatype VolumeDeletion = Deleted | NotFound | Refused

  datatype CloneScript = CloneScript(delete: VolumeDeletion, removeFile: bool, info: bool, create: bool)

  datatype RunScript = RunScript(create: CreateScript, clone: CloneScript, define: bool, start: bool)

  datatype RemoveScript = RemoveScript(destroy: bool, removeFile: bool, undefine: bool)

  /** `Remove` is the removal of one VM by name, `RemoveListed` that of one VM of a list;
      `Operate` is a change of a VM's state by its operator, its guest or the start and stop
      commands. */
  datatype Command =
    | Create(r: Request, create: CreateScript)
    | RunVm(vm: string, r: Request, transient: bool, run: RunScript)
    | Prune(dryRun: bool, unreadable: set<string>)
    | Remove(vm: string, stop: bool, remove: RemoveScript)
    | RemoveListed(vm: string, stop: bool, remove: RemoveScript)
    | Operate(vm: string, state: string)

  // ---- Finding or creating a base disk --------------------------------------------

  predicate InstallsAndStamps(s: Script) {
    s.inspect && s.remove && (s.create.Works? || s.create.Progress?) && (s.install.Works? || s.install.Progress?)
    && s.stampHash
  }

  /** No base disk is there, or a stale one that can be read and removed. */
  predicate Building(cfg: Setting, files: Files, r: Request, script: CreateScript) {
    var base := BaseOf(cfg, r);
    base in files ==>
      && script.readBase && script.removeStale
      && var verdict := CheckCachedDisk(Some(files[base]), Key(r));
         !verdict.Valid? && !verdict.ReadError?
  }

  predicate Builds(r: Request, script: CreateScript) {
    script.makeTemp && InstallsAndStamps(script.install) && script.verify && script.persist && PlainSource(r)
  }

  predicate Creates(cfg: Setting, files: Files, r: Request, script: CreateScript) {
    if Building(cfg, files, r, script) then Builds(r, script)
    else script.readBase && CheckCachedDisk(FileAt(files, BaseOf(cfg, r)), Key(r)).Valid?
  }

  predicate FreshBase(f: DiskFile, r: Request) {
    StampedFor(f, Key(r)) && TruthfulFile(f) && f.backing.None?
  }

  ghost predicate CreateStep(cfg: Setting, files: Files, r: Request, script: CreateScript, files': Files) {
    var base := BaseOf(cfg, r);
    if !Building(cfg, files, r, script) then files' == files
    else if Builds(r, script) then
      base in files' && FreshBase(files'[base], r) && files' == files[base := files'[base]]
    else files' == files - {base}
  }

  // ---- Cloning --------------------------------------------------------------------

  /** The VM's earlier disk cannot be got out of the way. */
  predicate DiskStays(files: Files, disk: string, script: CloneScript) {
    script.delete.Refused? || (script.delete.NotFound? && disk in files && !script.removeFile)
  }

  predicate Clones(files: Files, base: string, disk: string, script: CloneScript) {
    !DiskStays(files, disk, script) && base in files && script.info && script.create
  }

  function CloneOf(dir: string, base: string): DiskFile {
    EMPTY_FILE.(backing := Some(BackingPath(dir, base)))
  }

  function AfterClone(dir: string, files: Files, base: string, disk: string, script: CloneScript): Files {
    if DiskStays(files, disk, script) then files
    else if Clones(files, base, disk, script) then files[disk := CloneOf(dir, base)]
    else files - {disk}
  }

  // ---- Making and removing VMs ----------------------------------------------------

  /** What follows once the base disk was looked for: a transient VM boots from the base disk
      itself, a persistent one from a clone. */
  function AfterCreate(cfg: Setting, dir: string, s: PoolState, files: Files, vm: string, r: Request,
                       transient: bool, script: RunScript): PoolState {
    var base, disk := BaseOf(cfg, r), VmDiskName(vm);
    if !Creates(cfg, s.files, r, script.create) then PoolState(files, s.domains)
    else if transient then
      PoolState(files, if script.define then s.domains[vm := Domain(base, false, RUNNING)] else s.domains)
    else
      PoolState(AfterClone(dir, files, base, disk, script.clone),
                if Clones(files, base, disk, script.clone) && script.define
                then s.domains[vm := Domain(disk, true, if script.start then RUNNING else SHUT_OFF)]
                else s.domains)
  }

  ghost predicate RunStep(cfg: Setting, dir: string, s: PoolState, vm: string, r: Request,
                          transient: bool, script: RunScript, s': PoolState) {
    if vm in s.domains then s' == s
    else exists files :: CreateStep(cfg, s.files, r, script.create, files)
                         && s' == AfterCreate(cfg, dir, s, files, vm, r, transient, script)
  }

  ghost predicate PruneStep(s: PoolState, dryRun: bool, unreadable: set<string>, s': PoolState) {
    var gone := s.files.Keys - s'.files.Keys;
    && s'.domains == s.domains
    && s'.files == s.files - gone
    && (dryRun ==> gone == {})
    && forall b :: b in gone ==> Prunable(s.files, unreadable, b)
  }

  /** The running VM is not stopped, so its removal is given up. */
  predicate KeepsRunning(d: Domain, stop: bool, script: RemoveScript) {
    d.state == RUNNING && !(stop && script.destroy)
  }

  function Stopped(d: Domain): Domain {
    if d.state == RUNNING then d.(state := SHUT_OFF) else d
  }

  function AfterRemove(s: PoolState, vm: string, stop: bool, script: RemoveScript): PoolState {
    if vm !in s.domains then s
    else
      var d := s.domains[vm];
      if KeepsRunning(d, stop, script) then s
      else if d.state == RUNNING && !d.persistent then s.(domains := s.domains - {vm})
      else if d.disk in s.files && !script.removeFile then s.(domains := s.domains[vm := Stopped(d)])
      else PoolState(s.files - {d.disk},
                     if d.persistent && script.undefine then s.domains - {vm} else s.domains[vm := Stopped(d)])
  }

  /** The removal of a list does not ask whether a VM is transient, and goes on when the disk
      file cannot be removed. */
  function AfterRemoveListed(s: PoolState, vm: string, stop: bool, script: RemoveScript): PoolState {
    if vm !in s.domains then s
    else
      var d := s.domains[vm];
      if KeepsRunning(d, stop, script) then s
      else
        PoolState(if script.removeFile then s.files - {d.disk} else s.files,
                  if (if d.persistent then script.undefine else d.state == RUNNING) then s.domains - {vm}
                  else s.domains[vm := Stopped(d)])
  }

  /** A transient VM that is shut off is gone. */
  function AfterOperate(s: PoolState, vm: string, state: string): PoolState {
    if vm !in s.domains then s
    else if state == SHUT_OFF && !s.domains[vm].persistent then s.(domains := s.domains - {vm})
    else s.(domains := s.domains[vm := s.domains[vm].(state := state)])
  }

  ghost predicate PoolStep(cfg: Setting, dir: string, s: PoolState, c: Command, s': PoolState) {
    match c
    case Create(r, create) =>
      r in cfg.requests && s'.domains == s.domains && CreateStep(cfg, s.files, r, create, s'.files)
    case RunVm(vm, r, transient, run) =>
      r in cfg.requests && IsVmVolume(VmDiskName(vm)) && RunStep(cfg, dir, s, vm, r, transient, run, s')
    case Prune(dryRun, unreadable) => PruneStep(s, dryRun, unreadable, s')
    case Remove(vm, stop, remove) => s' == AfterRemove(s, vm, stop, remove)
    case RemoveListed(vm, stop, remove) => s' == AfterRemoveListed(s, vm, stop, remove)
    case Operate(vm, state) => s' == AfterOperate(s, vm, state)
  }

  ghost predicate IsHistory(cfg: Setting, dir: string, states: seq<PoolState>, commands: seq<Command>) {
    && |states| == |commands| + 1
    && forall i :: 0 <= i < |commands| ==> PoolStep(cfg, dir, states[i], commands[i], states[i + 1])
  }

  // ---- References over a whole history --------------------------------------------

  /** A persistent VM owns a volume; a transient VM boots from a base disk. */
  ghost predicate DomainsSound(domains: map<string, Domain>) {
    forall n :: n in domains ==>
      if domains[n].persistent then IsVmVolume(domains[n].disk) else IsBaseName(domains[n].disk)
  }

  /** The base disk a command deletes without putting another in its place: a stale one whose
      replacement then fails, or the one that a removed transient VM boots from. */
  function Taken(cfg: Setting, s: PoolState, c: Command): Option<string> {
    match c
    case Create(r, create) =>
      if Building(cfg, s.files, r, create) && !Builds(r, create) then Some(BaseOf(cfg, r)) else None
    case RunVm(vm, r, _, run) =>
      if vm !in s.domains && Building(cfg, s.files, r, run.create) && !Builds(r, run.create)
      then Some(BaseOf(cfg, r)) else None
    case Remove(vm, _, remove) =>
      if vm in s.domains && !s.domains[vm].persistent && s.domains[vm].state != RUNNING && remove.removeFile
      then Some(s.domains[vm].disk) else None
    case RemoveListed(vm, stop, remove) =>
      if vm in s.domains && !s.domains[vm].persistent && !KeepsRunning(s.domains[vm], stop, remove) && remove.removeFile
      then Some(s.domains[vm].disk) else None
    case _ => None
  }

  ghost predicate Backs(dir: string, files: Files, base: string) {
    exists n :: n in files && BackedBy(dir, files[n], base)
  }

  ghost predicate Harmful(cfg: Setting, dir: string, s: PoolState, c: Command) {
    Taken(cfg, s, c).Some? && Backs(dir, s.files, Taken(cfg, s, c).value)
  }

  lemma BaseIsBaseName(cfg: Setting, r: Request)
    ensures IsBaseName(BaseOf(cfg, r)) && !IsVmVolume(BaseOf(cfg, r))
  {
  }

  lemma VmDiskRemovalKeepsRefs(dir: string, files: Files, disk: string)
    requires RefsIntact(dir, files) && !IsBaseName(disk)
    ensures RefsIntact(dir, files - {disk})
  {
  }

  lemma CloneKeepsRefs(dir: string, files: Files, base: string, disk: string, script: CloneScript)
    requires RefsIntact(dir, files) && IsBaseName(base) && IsVmVolume(disk)
    ensures RefsIntact(dir, AfterClone(dir, files, base, disk, script))
  {
  }

  /** Taking a base disk away breaks a reference exactly when it backs a disk. */
  lemma TakenExact(dir: string, files: Files, base: string)
    requires RefsIntact(dir, files) && IsBaseName(base)
    ensures RefsIntact(dir, files - {base}) <==> !Backs(dir, files, base)
  {
    BaseRemovalExact(dir, files, base);
  }

  lemma CreateRefsExact(cfg: Setting, dir: string, files: Files, r: Request, script: CreateScript, files': Files)
    requires RefsIntact(dir, files) && CreateStep(cfg, files, r, script, files')
    ensures RefsIntact(dir, files') <==>
            !(Building(cfg, files, r, script) && !Builds(r, script) && Backs(dir, files, BaseOf(cfg, r)))
  {
    hide PlainSource, InstallsAndStamps, RefsIntact, Backs, Building, IsBaseName, IsVmVolume, BaseOf;
    BaseIsBaseName(cfg, r);
    TakenExact(dir, files, BaseOf(cfg, r));
    if Building(cfg, files, r, script) && Builds(r, script) {
      ReplacementKeepsRefs(dir, files, BaseOf(cfg, r), files'[BaseOf(cfg, r)]);
    }
  }

  /** One command: the references stay intact exactly when it takes away no base disk that
      backs a disk. */
  lemma StepRefsExact(cfg: Setting, dir: string, s: PoolState, c: Command, s': PoolState)
    requires RefsIntact(dir, s.files) && DomainsSound(s.domains) && PoolStep(cfg, dir, s, c, s')
    ensures RefsIntact(dir, s'.files) <==> !Harmful(cfg, dir, s, c)
  {
    hide RefsIntact, Backs, Building, Builds, AfterClone, IsBaseName, IsVmVolume, BaseOf, VmDiskName, CreateStep, Clones;
    match c
    case Create(r, create) =>
      CreateRefsExact(cfg, dir, s.files, r, create, s'.files);
    case RunVm(vm, r, transient, run) =>
      RunRefsExact(cfg, dir, s, c, s');
    case Prune(dryRun, unreadable) =>
      PruningKeepsRefs(dir, s.files, unreadable, s.files.Keys - s'.files.Keys);
    case Remove(vm, stop, remove) =>
      RemovalRefsExact(dir, s, vm);
      assert vm in s.domains && s.domains[vm].disk !in s.files ==> s.files - {s.domains[vm].disk} == s.files;
    case RemoveListed(vm, stop, remove) =>
      RemovalRefsExact(dir, s, vm);
    case Operate(_, _) =>
  }

  lemma RunRefsExact(cfg: Setting, dir: string, s: PoolState, c: Command, s': PoolState)
    requires RefsIntact(dir, s.files) && c.RunVm? && PoolStep(cfg, dir, s, c, s')
    ensures RefsIntact(dir, s'.files) <==> !Harmful(cfg, dir, s, c)
  {
    hide RefsIntact, Backs, Building, Builds, AfterClone, IsBaseName, IsVmVolume, BaseOf, VmDiskName, CreateStep, Clones;
    if c.vm !in s.domains {
      var files :| CreateStep(cfg, s.files, c.r, c.run.create, files)
                   && s' == AfterCreate(cfg, dir, s, files, c.vm, c.r, c.transient, c.run);
      CreateRefsExact(cfg, dir, s.files, c.r, c.run.create, files);
      BaseIsBaseName(cfg, c.r);
      if RefsIntact(dir, files) {
        CloneKeepsRefs(dir, files, BaseOf(cfg, c.r), VmDiskName(c.vm), c.run.clone);
      }
    }
  }

  lemma RemovalRefsExact(dir: string, s: PoolState, vm: string)
    requires RefsIntact(dir, s.files) && DomainsSound(s.domains)
    ensures vm in s.domains ==>
              (RefsIntact(dir, s.files - {s.domains[vm].disk}) <==>
               s.domains[vm].persistent || !Backs(dir, s.files, s.domains[vm].disk))
  {
    if vm in s.domains {
      if s.domains[vm].persistent {
        VmDiskRemovalKeepsRefs(dir, s.files, s.domains[vm].disk);
      } else {
        TakenExact(dir, s.files, s.domains[vm].disk);
      }
    }
  }

  lemma StepKeepsDomains(cfg: Setting, dir: string, s: PoolState, c: Command, s': PoolState)
    requires DomainsSound(s.domains) && PoolStep(cfg, dir, s, c, s')
    ensures DomainsSound(s'.domains)
  {
    hide IsBaseName, IsVmVolume, BaseOf, VmDiskName, CreateStep, Building, Builds, Clones, AfterClone;
    if c.RunVm? {
      BaseIsBaseName(cfg, c.r);
    }
  }

  lemma {:induction false} HistoryDomains(cfg: Setting, dir: string, states: seq<PoolState>, commands: seq<Command>, i: nat)
    requires IsHistory(cfg, dir, states, commands) && i < |states| && DomainsSound(states[0].domains)
    ensures DomainsSound(states[i].domains)
  {
    hide PoolStep, DomainsSound;
    if i > 0 {
      HistoryDomains(cfg, dir, states, commands, i - 1);
      StepKeepsDomains(cfg, dir, states[i - 1], commands[i - 1], states[i]);
    }
  }

  lemma {:induction false} HarmlessPrefix(cfg: Setting, dir: string, states: seq<PoolState>, commands: seq<Command>, i: nat)
    requires IsHistory(cfg, dir, states, commands) && i < |states|
    requires DomainsSound(states[0].domains) && RefsIntact(dir, states[0].files)
    requires forall j :: 0 <= j < |commands| ==> !Harmful(cfg, dir, states[j], commands[j])
    ensures RefsIntact(dir, states[i].files)
  {
    hide PoolStep, DomainsSound, RefsIntact, Harmful;
    if i > 0 {
      HarmlessPrefix(cfg, dir, states, commands, i - 1);
      HistoryDomains(cfg, dir, states, commands, i - 1);
      StepRefsExact(cfg, dir, states[i - 1], commands[i - 1], states[i]);
    }
  }

  /** Every history: each VM disk's base disk is there in all of its states if and only if no
      command of it takes away a base disk that backs a disk. */
  lemma HistoryRefsExact(cfg: Setting, dir: string, states: seq<PoolState>, commands: seq<Command>)
    requires IsHistory(cfg, dir, states, commands)
    requires DomainsSound(states[0].domains) && RefsIntact(dir, states[0].files)
    ensures (forall i :: 0 <= i < |states| ==> RefsIntact(dir, states[i].files))
       <==> forall i :: 0 <= i < |commands| ==> !Harmful(cfg, dir, states[i], commands[i])
  {
    hide PoolStep, DomainsSound, RefsIntact, Harmful;
    if forall i :: 0 <= i < |commands| ==> !Harmful(cfg, dir, states[i], commands[i]) {
      forall i | 0 <= i < |states| ensures RefsIntact(dir, states[i].files) {
        HarmlessPrefix(cfg, dir, states, commands, i);
      }
    } else {
      var i :| 0 <= i < |commands| && Harmful(cfg, dir, states[i], commands[i]);
      HistoryDomains(cfg, dir, states, commands, i);
      if RefsIntact(dir, states[i].files) {
        StepRefsExact(cfg, dir, states[i], commands[i], states[i + 1]);
      }
    }
  }

  // ---- Histories that can never do harm -------------------------------------------

  ghost predicate StampsSound(cfg: Setting, files: Files) {
    NoCollision(cfg) && Truthful(files) && BasesStamped(cfg, files)
  }

  ghost predicate TransientsRun(domains: map<string, Domain>) {
    forall n :: n in domains && !domains[n].persistent ==> domains[n].state == RUNNING
  }

  /** The command leaves transient VMs running or ends them, and does not remove a list of VMs
      with a transient one in it. */
  predicate MindsTransients(s: PoolState, c: Command) {
    match c
    case RemoveListed(vm, _, _) => vm in s.domains ==> s.domains[vm].persistent
    case Operate(vm, state) =>
      vm in s.domains && !s.domains[vm].persistent ==> state == RUNNING || state == SHUT_OFF
    case _ => true
  }

  lemma CreateKeepsStamps(cfg: Setting, files: Files, r: Request, script: CreateScript, files': Files)
    requires StampsSound(cfg, files) && r in cfg.requests && CreateStep(cfg, files, r, script, files')
    ensures StampsSound(cfg, files')
    ensures Building(cfg, files, r, script) ==> BaseOf(cfg, r) !in files
  {
    hide InstallsAndStamps, NormalizeSource;
  }

  lemma DeletionKeepsStamps(cfg: Setting, files: Files, gone: set<string>)
    requires StampsSound(cfg, files)
    ensures StampsSound(cfg, files - gone)
  {
    hide NoCollision;
  }

  lemma CloneKeepsStamps(cfg: Setting, dir: string, files: Files, base: string, disk: string, script: CloneScript)
    requires StampsSound(cfg, files) && IsVmVolume(disk)
    ensures StampsSound(cfg, AfterClone(dir, files, base, disk, script))
  {
    hide NoCollision, PlainSource;
    DeletionKeepsStamps(cfg, files, {disk});
    forall r ensures BaseOf(cfg, r) != disk {
      BaseIsBaseName(cfg, r);
    }
  }

  lemma StepKeepsStamps(cfg: Setting, dir: string, s: PoolState, c: Command, s': PoolState)
    requires StampsSound(cfg, s.files) && PoolStep(cfg, dir, s, c, s')
    ensures StampsSound(cfg, s'.files)
  {
    hide StampsSound, CreateStep, AfterClone, Clones, Building, Builds, BaseOf, IsVmVolume, IsBaseName, VmDiskName;
    match c
    case Create(r, create) =>
      CreateKeepsStamps(cfg, s.files, r, create, s'.files);
    case RunVm(vm, r, transient, run) =>
      if vm !in s.domains {
        var files :| CreateStep(cfg, s.files, r, run.create, files)
                     && s' == AfterCreate(cfg, dir, s, files, vm, r, transient, run);
        CreateKeepsStamps(cfg, s.files, r, run.create, files);
        CloneKeepsStamps(cfg, dir, files, BaseOf(cfg, r), VmDiskName(vm), run.clone);
      }
    case Prune(dryRun, unreadable) =>
      DeletionKeepsStamps(cfg, s.files, s.files.Keys - s'.files.Keys);
    case Remove(vm, stop, remove) =>
      if vm in s.domains { DeletionKeepsStamps(cfg, s.files, {s.domains[vm].disk}); }
    case RemoveListed(vm, stop, remove) =>
      if vm in s.domains { DeletionKeepsStamps(cfg, s.files, {s.domains[vm].disk}); }
    case Operate(_, _) =>
  }

  lemma StepKeepsTrueStamps(cfg: Setting, dir: string, s: PoolState, c: Command, s': PoolState)
    requires Truthful(s.files) && PoolStep(cfg, dir, s, c, s')
    ensures Truthful(s'.files)
  {
    hide Building, Builds, BaseOf, IsVmVolume, IsBaseName, VmDiskName;
  }

  lemma StepKeepsTransients(cfg: Setting, dir: string, s: PoolState, c: Command, s': PoolState)
    requires TransientsRun(s.domains) && MindsTransients(s, c) && PoolStep(cfg, dir, s, c, s')
    ensures TransientsRun(s'.domains)
  {
    hide CreateStep, AfterClone, Clones, Building, Builds, BaseOf, VmDiskName, IsVmVolume;
  }

  /** With true stamps, no colliding hashes and every transient VM running, no command does
      harm. */
  lemma MindfulStepIsHarmless(cfg: Setting, dir: string, s: PoolState, c: Command, s': PoolState)
    requires RefsIntact(dir, s.files) && StampsSound(cfg, s.files)
    requires TransientsRun(s.domains) && MindsTransients(s, c) && PoolStep(cfg, dir, s, c, s')
    ensures !Harmful(cfg, dir, s, c)
  {
    hide StampsSound, CreateStep, AfterClone, Clones, Building, Builds, BaseOf, IsVmVolume, VmDiskName, IsBaseName;
    if Taken(cfg, s, c).Some? && (c.Create? || c.RunVm?) {
      BuildingMeansAbsent(cfg, s.files, c.r, if c.Create? then c.create else c.run.create);
      AbsentBacksNothing(dir, s.files, BaseOf(cfg, c.r));
    }
  }

  lemma BuildingMeansAbsent(cfg: Setting, files: Files, r: Request, script: CreateScript)
    requires StampsSound(cfg, files) && r in cfg.requests && Building(cfg, files, r, script)
    ensures BaseOf(cfg, r) !in files
  {
    hide NoCollision;
  }

  lemma AbsentBacksNothing(dir: string, files: Files, base: string)
    requires RefsIntact(dir, files) && base !in files
    ensures !Backs(dir, files, base)
  {
    forall n | n in files ensures !BackedBy(dir, files[n], base) {
      if BackedBy(dir, files[n], base) {
        assert RefOk(dir, files, n);
        var b :| IsBaseName(b) && b in files && BackedBy(dir, files[n], b);
        BackingPathInjective(dir, b, base);
      }
    }
  }

  /** Any mix of creating, running, pruning and removing VMs, of any length, keeps every VM
      disk's base disk in place and every base disk true to its name, as long as transient VMs
      are only ever run, stopped and removed one at a time. */
  lemma {:induction false} MindfulHistoryKeepsRefs(
    cfg: Setting, dir: string, states: seq<PoolState>, commands: seq<Command>, i: nat)
    requires IsHistory(cfg, dir, states, commands) && i < |states|
    requires RefsIntact(dir, states[0].files) && DomainsSound(states[0].domains)
    requires StampsSound(cfg, states[0].files) && TransientsRun(states[0].domains)
    requires forall j :: 0 <= j < |commands| ==> MindsTransients(states[j], commands[j])
    ensures RefsIntact(dir, states[i].files) && DomainsSound(states[i].domains)
    ensures StampsSound(cfg, states[i].files) && TransientsRun(states[i].domains)
  {
    hide PoolStep, DomainsSound, RefsIntact, Harmful, StampsSound, TransientsRun, MindsTransients;
    if i > 0 {
      var s, c, s' := states[i - 1], commands[i - 1], states[i];
      MindfulHistoryKeepsRefs(cfg, dir, states, commands, i - 1);
      MindfulStepIsHarmless(cfg, dir, s, c, s');
      StepRefsExact(cfg, dir, s, c, s');
      StepKeepsDomains(cfg, dir, s, c, s');
      StepKeepsStamps(cfg, dir, s, c, s');
      StepKeepsTransients(cfg, dir, s, c, s');
    }
  }

  // ---- Histories that do harm -----------------------------------------------------

  const CREATE_WORKS := CreateScript(true, true, true, ALL_WORKS, true, true)
  const RUN_WORKS := RunScript(CREATE_WORKS, CloneScript(NotFound, true, true, true), true, true)
  const REMOVE_WORKS := RemoveScript(true, true, true)
  const NOTHING := PoolState(map[], map[])

  function WithTransient(cfg: Setting, s: PoolState, vm: string, r: Request): PoolState {
    PoolState(s.files[BaseOf(cfg, r) := FinishedBase(r)], s.domains[vm := Domain(BaseOf(cfg, r), false, RUNNING)])
  }

  function WithPersistent(cfg: Setting, dir: string, s: PoolState, vm: string, r: Request): PoolState {
    PoolState(s.files[VmDiskName(vm) := CloneOf(dir, BaseOf(cfg, r))],
              s.domains[vm := Domain(VmDiskName(vm), true, RUNNING)])
  }

  lemma RunsTransient(cfg: Setting, dir: string, s: PoolState, vm: string, r: Request)
    requires r in cfg.requests && PlainSource(r) && IsVmVolume(VmDiskName(vm))
    requires vm !in s.domains && BaseOf(cfg, r) !in s.files
    ensures PoolStep(cfg, dir, s, RunVm(vm, r, true, RUN_WORKS), WithTransient(cfg, s, vm, r))
  {
    hide PlainSource, BaseOf, VmDiskName, IsVmVolume;
    var files := WithTransient(cfg, s, vm, r).files;
    assert CreateStep(cfg, s.files, r, CREATE_WORKS, files);
  }

  lemma RunsPersistent(cfg: Setting, dir: string, s: PoolState, vm: string, r: Request)
    requires r in cfg.requests && PlainSource(r) && IsVmVolume(VmDiskName(vm)) && vm !in s.domains
    requires BaseOf(cfg, r) in s.files && StampedFor(s.files[BaseOf(cfg, r)], Key(r))
    ensures PoolStep(cfg, dir, s, RunVm(vm, r, false, RUN_WORKS), WithPersistent(cfg, dir, s, vm, r))
  {
    hide PlainSource, BaseOf, VmDiskName, IsVmVolume;
    assert CreateStep(cfg, s.files, r, CREATE_WORKS, s.files);
    assert s.files[VmDiskName(vm) := CloneOf(dir, BaseOf(cfg, r))]
        == AfterClone(dir, s.files, BaseOf(cfg, r), VmDiskName(vm), RUN_WORKS.clone);
  }

  /** A transient VM and a persistent one of the same request, made in an empty pool. */
  lemma TwoVms(cfg: Setting, dir: string, r: Request, a: string, b: string) returns (states: seq<PoolState>)
    requires r in cfg.requests && PlainSource(r) && a != b
    requires IsVmVolume(VmDiskName(a)) && IsVmVolume(VmDiskName(b))
    ensures IsHistory(cfg, dir, states, [RunVm(a, r, true, RUN_WORKS), RunVm(b, r, false, RUN_WORKS)])
    ensures states[0] == NOTHING && RefsIntact(dir, states[2].files) && DomainsSound(states[2].domains)
    ensures a in states[2].domains && states[2].domains[a] == Domain(BaseOf(cfg, r), false, RUNNING)
    ensures Backs(dir, states[2].files, BaseOf(cfg, r))
  {
    hide PlainSource, BaseOf, VmDiskName, IsVmVolume, IsBaseName, PoolStep;
    BaseIsBaseName(cfg, r);
    RunsTransient(cfg, dir, NOTHING, a, r);
    var s1 := WithTransient(cfg, NOTHING, a, r);
    RunsPersistent(cfg, dir, s1, b, r);
    var s2 := WithPersistent(cfg, dir, s1, b, r);
    assert VmDiskName(b) in s2.files && BackedBy(dir, s2.files[VmDiskName(b)], BaseOf(cfg, r));
    states := [NOTHING, s1, s2];
  }

  /** Removing a transient VM that is paused deletes the base disk of every clone made from
      it, whether or not it is to be stopped first. */
  lemma PausedTransientRemoved(cfg: Setting, dir: string, r: Request, a: string, b: string,
                               stop: bool, remove: RemoveScript)
    returns (states: seq<PoolState>)
    requires r in cfg.requests && PlainSource(r) && a != b && remove.removeFile
    requires IsVmVolume(VmDiskName(a)) && IsVmVolume(VmDiskName(b))
    ensures IsHistory(cfg, dir, states,
                      [RunVm(a, r, true, RUN_WORKS), RunVm(b, r, false, RUN_WORKS), Operate(a, "paused"),
                       Remove(a, stop, remove)])
    ensures states[0] == NOTHING && RefsIntact(dir, states[3].files) && !RefsIntact(dir, states[4].files)
  {
    hide PlainSource, BaseOf, VmDiskName, IsVmVolume, IsBaseName, RunStep, Backs, RefsIntact;
    var two := TwoVms(cfg, dir, r, a, b);
    var s3 := AfterOperate(two[2], a, "paused");
    var s4 := AfterRemove(s3, a, stop, remove);
    states := two + [s3, s4];
    StepKeepsDomains(cfg, dir, two[2], Operate(a, "paused"), s3);
    StepRefsExact(cfg, dir, s3, Remove(a, stop, remove), s4);
  }

  /** Removing a list of running VMs deletes the base disk that a transient one of them boots
      from, and with it the base disk of every clone. */
  lemma ListedTransientRemoved(cfg: Setting, dir: string, r: Request, a: string, b: string)
    returns (states: seq<PoolState>)
    requires r in cfg.requests && PlainSource(r) && a != b
    requires IsVmVolume(VmDiskName(a)) && IsVmVolume(VmDiskName(b))
    ensures IsHistory(cfg, dir, states,
                      [RunVm(a, r, true, RUN_WORKS), RunVm(b, r, false, RUN_WORKS), RemoveListed(a, true, REMOVE_WORKS)])
    ensures states[0] == NOTHING && RefsIntact(dir, states[2].files) && !RefsIntact(dir, states[3].files)
  {
    hide PlainSource, BaseOf, VmDiskName, IsVmVolume, IsBaseName, RunStep, Backs, RefsIntact;
    var two := TwoVms(cfg, dir, r, a, b);
    var s3 := AfterRemoveListed(two[2], a, true, REMOVE_WORKS);
    states := two + [s3];
    StepRefsExact(cfg, dir, two[2], RemoveListed(a, true, REMOVE_WORKS), s3);
  }

  /** A prune that is not refused leaves the base disk of a transient VM if and only if some
      volume happens to mention it; the VM itself goes on. */
  lemma BootDiskSurvivesIffMentioned(s: PoolState, unreadable: set<string>, s': PoolState, vm: string)
    requires DomainsSound(s.domains) && vm in s.domains && !s.domains[vm].persistent && s.domains[vm].disk in s.files
    requires PruneStep(s, false, unreadable, s') && forall b :: Prunable(s.files, unreadable, b) ==> b !in s'.files
    ensures s'.domains == s.domains
    ensures s.domains[vm].disk in s'.files <==> Mentioned(s.files, unreadable, s.domains[vm].disk)
  {
    hide Mentioned, IsBaseName, IsVmVolume;
    var disk := s.domains[vm].disk;
    if Mentioned(s.files, unreadable, disk) {
      assert disk !in s.files.Keys - s'.files.Keys;
    }
  }

  /** So a transient VM can be running without the disk it boots from: run it where nothing
      mentions its base disk, then prune. */
  lemma PrunedWhileRunning(cfg: Setting, dir: string, s: PoolState, vm: string, r: Request)
    returns (s1: PoolState, s2: PoolState)
    requires r in cfg.requests && PlainSource(r) && IsVmVolume(VmDiskName(vm)) && vm !in s.domains
    requires BaseOf(cfg, r) !in s.files && !Mentioned(s.files, {}, BaseOf(cfg, r))
    ensures PoolStep(cfg, dir, s, RunVm(vm, r, true, RUN_WORKS), s1) && PoolStep(cfg, dir, s1, Prune(false, {}), s2)
    ensures vm in s2.domains && s2.domains[vm] == Domain(BaseOf(cfg, r), false, RUNNING)
    ensures BaseOf(cfg, r) in s1.files && BaseOf(cfg, r) !in s2.files
  {
    hide PlainSource, BaseOf, VmDiskName, IsVmVolume, IsBaseName, RunStep;
    var base := BaseOf(cfg, r);
    BaseIsBaseName(cfg, r);
    RunsTransient(cfg, dir, s, vm, r);
    s1 := WithTransient(cfg, s, vm, r);
    s2 := s1.(files := s1.files - {base});
    assert s1.files.Keys - s2.files.Keys == {base};
    forall v | v in s1.files && IsVmVolume(v) ensures v in s.files && s1.files[v] == s.files[v] {
      assert v != base;
    }
  }
}
