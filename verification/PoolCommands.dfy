/** The commands that change the storage pool, run one after the other: every one of them
    keeps each VM disk's base disk in place, and says exactly which files it changed. */
module PoolCommands {
  import opened Wrappers
  import opened Text
  import opened CacheMetadata
  import opened DiskNames
  import opened ToDisk
  import opened BaseDiskCreators
  import opened StoragePool
  import opened PoolHistory

  datatype Error = CommandFailed(what: string)

  /** Some listed VM that does not go on running has the file for its disk, and it can be
      removed. */
  ghost predicate Loses(domains: map<string, Domain>, vms: seq<string>, stop: bool, scripts: string -> RemoveScript,
                        file: string) {
    exists vm :: vm in vms && vm in domains && domains[vm].disk == file
                 && !Refuses(domains[vm], stop, scripts(vm)) && scripts(vm).removeFile
  }

  ghost predicate AllRemovable(domains: map<string, Domain>, vms: seq<string>, stop: bool, scripts: string -> RemoveScript) {
    && (forall i, j :: 0 <= i < j < |vms| ==> vms[i] != vms[j])
    && (forall vm :: vm in vms ==>
          && vm in domains && domains[vm].persistent
          && !Refuses(domains[vm], stop, scripts(vm)) && scripts(vm).undefine)
  }

  /** A running VM that is not to be stopped, or cannot be. */
  predicate Refuses(d: Domain, stop: bool, script: RemoveScript) {
    d.state == RUNNING && (!stop || !script.destroy)
  }

  /** The VM's earlier disk gives way, and the outside operations of a clone work. */
  predicate Clonable(files: Files, disk: string, script: CloneScript) {
    && !script.delete.Refused? && (disk in files && script.delete.NotFound? ==> script.removeFile)
    && script.info && script.create
  }

  /** What a complete run leaves at its own temporary file: nothing else changed, and a stamp
      if and only if every operation worked. */
  ghost predicate TempOutcome(rest: Files, job: Job, works: bool, files': Files, end: Phase) {
    var t := job.target;
    && files' - {t} == rest
    && (end.Finished? || end.Failed?)
    && (t in files' ==> files'[t].backing.None?)
    && (end.Finished? && t in files' ==> TruthfulFile(files'[t]))
    && (end.Finished? && t in files' && HasStamp(files'[t]) ==> StampedFor(files'[t], Wanted(job)))
    && (end.Finished? && t in files' && HasStamp(files'[t]) <==> works)
  }

  lemma TempCreated(rest: Files, job: Job, script: Script)
    requires job.target !in rest && Steady(job)
    ensures var (files', end) := FullRun(rest, job, Creating, script);
            TempOutcome(rest, job, InstallsAndStamps(script.(inspect := true, remove := true)), files', end)
  {
    hide NormalizeSource, ComputeCacheHash;
    var t := job.target;
    var f5 := EMPTY_FILE.(content := Installed(Pulled(job)));
    var f6 := StampHash(f5, Stamped(job));
    if !script.create.Fails? && !script.create.FailsDirty? {
      var s1 := rest[t := EMPTY_FILE];
      assert FullRun(rest, job, Creating, script) == FullRun(s1, job, Installing, script);
      if !script.install.Fails? && !script.install.FailsDirty? {
        var s2 := rest[t := f5];
        assert s1[t := f5] == s2;
        assert FullRun(s1, job, Installing, script) == FullRun(s2, job, StampingHash, script);
        if script.stampHash {
          var s3 := rest[t := f6];
          assert s2[t := f6] == s3;
          assert FullRun(s2, job, StampingHash, script) == FullRun(s3, job, StampingDigest, script);
        }
      }
    }
  }

  lemma TempRun(rest: Files, r: Request, t: string, script: Script)
    requires t !in rest
    ensures var (files', end) := FullRun(rest[t := EMPTY_FILE], TempJob(r, t), Begin, script);
            TempOutcome(rest, TempJob(r, t), InstallsAndStamps(script), files', end)
  {
    hide NormalizeSource;
    var job := TempJob(r, t);
    var files := rest[t := EMPTY_FILE];
    assert FullRun(files, job, Begin, script) == FullRun(files, job, Checking, script);
    if script.inspect {
      assert FullRun(files, job, Checking, script) == FullRun(files, job, Removing, script);
      if script.remove {
        assert files - {t} == rest;
        assert FullRun(files, job, Removing, script) == FullRun(rest, job, Creating, script);
        TempCreated(rest, job, script);
      }
    }
  }

  class Pool {
    const dir: string
    const short: CacheHash -> string
    ghost const requests: iset<Request>
    var files: Files
    var domains: map<string, Domain>

    ghost function Cfg(): Setting {
      Setting(short, requests)
    }

    ghost function State(): PoolState
      reads this
    {
      PoolState(files, domains)
    }

    /** Short hashes have their length, no stamp lies, and each VM has the kind of disk it
        was made with. */
    ghost predicate Valid()
      reads this
    {
      FixedLength(Cfg()) && Truthful(files) && DomainsSound(domains)
    }

    constructor (poolDir: string, shorten: CacheHash -> string, found: Files, ghost all: iset<Request>)
      requires FixedLength(Setting(shorten, all)) && Truthful(found)
      ensures Valid() && files == found && domains == map[]
      ensures dir == poolDir && short == shorten && requests == all
    {
      dir, short, requests := poolDir, shorten, all;
      files, domains := found, map[];
    }

    /** Finds or creates the base disk of a request. A stale base disk is removed first, so a
        failure after that leaves none; any other failure changes nothing. */
    method FindOrCreateBaseDisk(r: Request, suffix: string, script: CreateScript)
      returns (result: Result<string, Error>)
      requires Valid() && r in requests
      requires TempName(short(ComputeCacheHash(Key(r))), suffix) !in files
      modifies this`files
      ensures Valid() && PoolStep(Cfg(), dir, old(State()), Create(r, script), State())
      ensures result.Ok? <==> Creates(Cfg(), old(files), r, script)
      ensures var base := BaseOf(Cfg(), r);
              && (result.Ok? ==> result.value == base && base in files && files[base].content == Installed(Key(r)))
              && (forall n :: n != base ==> FileAt(files, n) == FileAt(old(files), n))
      ensures RefsIntact(dir, old(files)) ==>
                (RefsIntact(dir, files) <==>
                 result.Ok? || !Building(Cfg(), old(files), r, script) || !Backs(dir, old(files), BaseOf(Cfg(), r)))
      ensures StampsSound(Cfg(), old(files)) ==> StampsSound(Cfg(), files)
      ensures StampsSound(Cfg(), old(files)) && result.Err? ==> files == old(files)
    {
      hide NormalizeSource, FullRun, InstallsAndStamps, StampsSound, RefsIntact, Backs, Builds, IsBaseName;
      ghost var before := State();
      var base := BaseName(short(ComputeCacheHash(Key(r))));
      assert base == BaseOf(Cfg(), r);
      if base in files {
        if !script.readBase {
          return Err(CommandFailed("check"));
        }
        var verdict := CheckCachedDisk(FileAt(files, base), Key(r));
        if verdict.ReadError? {
          return Err(CommandFailed("check"));
        }
        if verdict.Valid? {
          StampNamesContent(files[base], Key(r));
          return Ok(base);
        }
        if !script.removeStale {
          return Err(CommandFailed("remove"));
        }
        files := files - {base};
      }
      assert before.files - {base} == files;
      result := CreateBaseDisk(base, r, suffix, script);
      assert result.Ok? ==> files == before.files[base := files[base]];
      if RefsIntact(dir, before.files) {
        CreateRefsExact(Cfg(), dir, before.files, r, script, files);
      }
      if StampsSound(Cfg(), before.files) {
        CreateKeepsStamps(Cfg(), before.files, r, script, files);
      }
    }

    /** Builds the disk under a temporary name, checks it and renames it into place. */
    method CreateBaseDisk(base: string, r: Request, suffix: string, script: CreateScript)
      returns (result: Result<string, Error>)
      requires Valid() && r in requests && base == BaseOf(Cfg(), r) && base !in files
      requires TempName(short(ComputeCacheHash(Key(r))), suffix) !in files
      modifies this`files
      ensures Valid()
      ensures result.Ok? <==> Builds(r, script)
      ensures result.Ok? ==>
                && result.value == base && base in files && FreshBase(files[base], r)
                && files[base].content == Installed(Key(r))
      ensures files == if result.Ok? then old(files)[base := files[base]] else old(files)
    {
      hide NormalizeSource, FullRun, MetadataFrom;
      ghost var before := files;
      if !script.makeTemp {
        return Err(CommandFailed("tempfile"));
      }
      var temp := TempName(short(ComputeCacheHash(Key(r))), suffix);
      TempIsNoBase(short(ComputeCacheHash(Key(r))), suffix, short(ComputeCacheHash(Key(r))));
      var directory := new Directory(files[temp := EMPTY_FILE]);
      var end := directory.Run(TempJob(r, temp), script.install);
      TempRun(before, r, temp, script.install);
      files := directory.files;
      if end.Failed? {
        files := files - {temp};
        return Err(CommandFailed("install"));
      }
      PlainKey(r, temp);
      if !script.verify || !CheckCachedDisk(FileAt(files, temp), Key(r)).Valid? {
        files := files - {temp};
        return Err(CommandFailed("validation"));
      }
      if !script.persist {
        files := files - {temp};
        return Err(CommandFailed("persist"));
      }
      ghost var f := files[temp];
      StampNamesContent(f, Key(r));
      files := (files - {temp})[base := files[temp]];
      assert files == before[base := f];
      return Ok(base);
    }

    /** Makes a VM disk backed by a base disk, replacing the VM's earlier disk. A failure
        may have deleted the earlier disk, and nothing else. */
    method CloneFromBase(base: string, vm: string, script: CloneScript) returns (result: Result<string, Error>)
      requires Valid() && IsBaseName(base) && IsVmVolume(VmDiskName(vm))
      modifies this`files
      ensures Valid()
      ensures var disk := VmDiskName(vm);
              && files == AfterClone(dir, old(files), base, disk, script)
              && (result.Ok? <==>
                    && !script.delete.Refused? && (disk in old(files) && script.delete.NotFound? ==> script.removeFile)
                    && base in old(files) && script.info && script.create)
              && (result.Ok? ==> result.value == disk && disk in files && BackedBy(dir, files[disk], base))
              && (result.Err? ==> FileAt(files, disk) == FileAt(old(files), disk) || disk !in files)
              && (forall n :: n != disk ==> FileAt(files, n) == FileAt(old(files), n))
      ensures RefsIntact(dir, old(files)) ==> RefsIntact(dir, files)
      ensures StampsSound(Cfg(), old(files)) ==> StampsSound(Cfg(), files)
    {
      hide RefsIntact, StampsSound, FixedLength;
      var disk := VmDiskName(vm);
      ghost var before := files;
      if RefsIntact(dir, before) {
        CloneKeepsRefs(dir, before, base, disk, script);
      }
      if StampsSound(Cfg(), before) {
        CloneKeepsStamps(Cfg(), dir, before, base, disk, script);
      }
      if script.delete.Refused? {
        return Err(CommandFailed("vol-delete"));
      }
      if script.delete.Deleted? {
        files := files - {disk};
      }
      if disk in files {
        if !script.removeFile {
          return Err(CommandFailed("remove"));
        }
        files := files - {disk};
      }
      assert files == before - {disk};
      if base !in files || !script.info {
        return Err(CommandFailed("qemu-img info"));
      }
      if !script.create {
        return Err(CommandFailed("vol-create-as"));
      }
      files := files[disk := CloneOf(dir, base)];
      assert files == before[disk := CloneOf(dir, base)];
      return Ok(disk);
    }

    /** The volumes scanned for references, in directory order. */
    method ListVolumes() returns (volumes: seq<string>)
      ensures forall v :: v in volumes <==> v in files && IsVmVolume(v)
    {
      volumes := [];
      var names := files.Keys;
      ghost var seen: set<string> := {};
      while names != {}
        invariant names + seen == files.Keys
        invariant forall v :: v in volumes <==> v in seen && IsVmVolume(v)
        decreases names
      {
        var n :| n in names;
        names, seen := names - {n}, seen + {n};
        if IsVmVolume(n) {
          volumes := volumes + [n];
        }
      }
    }

    method ListBaseDisks() returns (bases: seq<string>)
      ensures forall b :: b in bases <==> b in files && IsBaseName(b)
      ensures forall i, j :: 0 <= i < j < |bases| ==> bases[i] != bases[j]
    {
      bases := [];
      var names := files.Keys;
      ghost var seen: set<string> := {};
      while names != {}
        invariant names + seen == files.Keys && names !! seen
        invariant forall b :: b in bases <==> b in seen && IsBaseName(b)
        invariant forall i, j :: 0 <= i < j < |bases| ==> bases[i] != bases[j]
        decreases names
      {
        var n :| n in names;
        if IsBaseName(n) {
          assert n !in bases;
          bases := bases + [n];
        }
        names, seen := names - {n}, seen + {n};
      }
    }

    /** Whether some volume mentions the base disk; an unreadable volume counts as one. */
    method CheckBaseDiskReferenced(base: string, volumes: seq<string>, unreadable: set<string>) returns (referenced: bool)
      requires forall v :: v in volumes ==> v in files
      ensures referenced <==> exists v :: v in volumes && MentionedBy(files, unreadable, v, base)
    {
      for i := 0 to |volumes|
        invariant forall j :: 0 <= j < i ==> !MentionedBy(files, unreadable, volumes[j], base)
      {
        assert volumes[i] in volumes;
        if volumes[i] in unreadable {
          return true;
        }
        var backing := files[volumes[i]].backing;
        if backing.Some? && Contains(backing.value, base) {
          return true;
        }
      }
      return false;
    }

    /** How many volumes mention the base disk; an unreadable volume is skipped. */
    method CountBaseDiskReferences(base: string, volumes: seq<string>, unreadable: set<string>) returns (count: nat)
      requires forall v :: v in volumes ==> v in files
      ensures count == ReferenceCount(files, unreadable, volumes, base)
    {
      count := 0;
      for i := |volumes| downto 0
        invariant count == ReferenceCount(files, unreadable, volumes[i..], base)
      {
        assert volumes[i..][1..] == volumes[i + 1..];
        assert volumes[i] in volumes;
        if volumes[i] in unreadable {
          continue;
        }
        var backing := files[volumes[i]].backing;
        if backing.Some? && Contains(backing.value, base) {
          count := count + 1;
        }
      }
    }

    /** Deletes the base disks that no volume mentions, or only names them in a dry run. It
        stops at the first deletion that is refused. */
    method PruneBaseDisks(dryRun: bool, unreadable: set<string>, refused: set<string>)
      returns (result: Result<seq<string>, Error>)
      requires Valid()
      modifies this`files
      ensures Valid() && PoolStep(Cfg(), dir, old(State()), Prune(dryRun, unreadable), State())
      ensures result.Ok? <==> dryRun || forall b :: Prunable(old(files), unreadable, b) ==> b !in refused
      ensures result.Ok? ==> forall b :: b in result.value <==> Prunable(old(files), unreadable, b)
      ensures forall b :: b in old(files) && b !in files ==> Prunable(old(files), unreadable, b) && b !in refused
      ensures forall n :: n in files ==> n in old(files) && files[n] == old(files)[n]
      ensures dryRun ==> result.Ok? && files == old(files)
      ensures result.Ok? && !dryRun ==> files == old(files) - (set b | b in result.value)
      ensures RefsIntact(dir, old(files)) ==> RefsIntact(dir, files)
      ensures StampsSound(Cfg(), old(files)) ==> StampsSound(Cfg(), files)
    {
      hide RefsIntact, StampsSound, FixedLength;
      var bases := ListBaseDisks();
      var volumes := ListVolumes();
      ghost var before := files;
      ghost var gone: set<string> := {};
      var pruned := [];
      assert before - {} == before;
      for i := 0 to |bases|
        invariant files == before - gone
        invariant gone == if dryRun then {} else set b | b in pruned
        invariant forall b :: b in pruned <==> b in bases[..i] && Prunable(before, unreadable, b)
        invariant !dryRun ==> forall b :: b in pruned ==> b !in refused
      {
        var base := bases[i];
        assert bases[..i + 1] == bases[..i] + [base];
        assert base in bases;
        forall v | v in volumes ensures v in files && files[v] == before[v] {
          assert v !in gone;
        }
        var referenced := CheckBaseDiskReferenced(base, volumes, unreadable);
        MentionedInVolumes(before, files, unreadable, volumes, base);
        if !referenced {
          if !dryRun {
            if base in refused {
              PrunedIsStep(Cfg(), dir, before, domains, dryRun, unreadable, gone);
              return Err(CommandFailed("vol-delete"));
            }
            files := files - {base};
            gone := gone + {base};
            assert before - (gone - {base}) - {base} == before - gone;
          }
          pruned := pruned + [base];
        }
      }
      assert bases[..|bases|] == bases;
      PrunedIsStep(Cfg(), dir, before, domains, dryRun, unreadable, gone);
      return Ok(pruned);
    }

    /** Makes a VM: a transient one boots from the base disk itself, a persistent one from a
        clone. A VM that was defined but did not start stays defined. */
    method RunVm(vm: string, r: Request, transient: bool, suffix: string, script: RunScript)
      returns (result: Result<string, Error>)
      requires Valid() && r in requests && IsVmVolume(VmDiskName(vm))
      requires TempName(short(ComputeCacheHash(Key(r))), suffix) !in files
      modifies this
      ensures Valid() && PoolStep(Cfg(), dir, old(State()), PoolHistory.RunVm(vm, r, transient, script), State())
      ensures vm in old(domains) ==> result.Err? && State() == old(State())
      ensures result.Ok? <==>
                && vm !in old(domains) && Creates(Cfg(), old(files), r, script.create) && script.define
                && (transient || (Clonable(old(files), VmDiskName(vm), script.clone) && script.start))
      ensures domains ==
              if vm !in old(domains) && Creates(Cfg(), old(files), r, script.create) && script.define
                 && (transient || Clonable(old(files), VmDiskName(vm), script.clone))
              then old(domains)[vm := Domain(if transient then BaseOf(Cfg(), r) else VmDiskName(vm), !transient,
                                             if transient || script.start then RUNNING else SHUT_OFF)]
              else old(domains)
      ensures result.Ok? ==>
                && vm in domains && domains[vm] == Domain(result.value, !transient, RUNNING)
                && result.value in files
                && (if transient then result.value == BaseOf(Cfg(), r) && files[result.value].content == Installed(Key(r))
                    else BackedBy(dir, files[result.value], BaseOf(Cfg(), r)))
      ensures forall n :: n != BaseOf(Cfg(), r) && (n != VmDiskName(vm) || transient) ==>
                FileAt(files, n) == FileAt(old(files), n)
      ensures forall n :: n in old(domains) ==> n in domains && domains[n] == old(domains)[n]
      ensures RefsIntact(dir, old(files)) ==>
                (RefsIntact(dir, files) <==>
                 !Harmful(Cfg(), dir, old(State()), PoolHistory.RunVm(vm, r, transient, script)))
      ensures StampsSound(Cfg(), old(files)) ==> StampsSound(Cfg(), files)
    {
      hide NormalizeSource, MetadataFrom, BaseName, TempName, IsBaseName, IsVmVolume, BaseOf, VmDiskName, PlainSource,
        InstallsAndStamps, NoCollision, Truthful, RefsIntact, Building, Builds, StampsSound, Harmful, FixedLength;
      ghost var before, c := State(), PoolHistory.RunVm(vm, r, transient, script);
      if vm in domains {
        KeepsBooks(Cfg(), dir, before, c, before);
        return Err(CommandFailed("exists"));
      }
      BaseIsBaseName(Cfg(), r);
      var found := FindOrCreateBaseDisk(r, suffix, script.create);
      ghost var mid := files;
      if found.Err? {
        KeepsBooks(Cfg(), dir, before, c, State());
        return Err(found.error);
      }
      var base := found.value;
      var disk := base;
      if !transient {
        var cloned := CloneFromBase(base, vm, script.clone);
        if cloned.Err? {
          KeepsBooks(Cfg(), dir, before, c, State());
          return Err(cloned.error);
        }
        disk := cloned.value;
      }
      if !script.define {
        KeepsBooks(Cfg(), dir, before, c, State());
        return Err(CommandFailed("define"));
      }
      if transient || script.start {
        domains := domains[vm := Domain(disk, !transient, RUNNING)];
        KeepsBooks(Cfg(), dir, before, c, State());
        return Ok(disk);
      }
      domains := domains[vm := Domain(disk, true, SHUT_OFF)];
      KeepsBooks(Cfg(), dir, before, c, State());
      return Err(CommandFailed("start"));
    }

    /** Removes one VM: stops it if asked to, deletes its disk file, and undefines it with
        its storage. A running transient VM is gone once stopped and its disk is left alone;
        a transient VM in any other state loses the base disk it boots from. */
    method RemoveVm(vm: string, stop: bool, script: RemoveScript) returns (result: Result<(), Error>)
      requires Valid()
      modifies this
      ensures Valid() && PoolStep(Cfg(), dir, old(State()), Remove(vm, stop, script), State())
      ensures vm !in old(domains) ==> result.Err? && State() == old(State())
      ensures vm in old(domains) ==>
                var d := old(domains[vm]);
                var kept, gone := Refuses(d, stop, script), d.state == RUNNING && !d.persistent;
                var blocked := d.disk in old(files) && !script.removeFile;
                && (result.Ok? <==> !kept && (gone || (!blocked && d.persistent && script.undefine)))
                && files == (if kept || gone || blocked then old(files) else old(files) - {d.disk})
                && domains == (if kept then old(domains)
                               else if result.Ok? then old(domains) - {vm}
                               else old(domains)[vm := d.(state := if d.state == RUNNING then SHUT_OFF else d.state)])
                && (RefsIntact(dir, old(files)) ==>
                      (RefsIntact(dir, files) <==>
                         d.persistent || d.state == RUNNING || !script.removeFile || !Backs(dir, old(files), d.disk)))
      ensures StampsSound(Cfg(), old(files)) ==> StampsSound(Cfg(), files)
    {
      hide FixedLength, IsVmVolume, IsBaseName, RefsIntact, StampsSound, Backs, Truthful, DomainsSound,
        CreateStep, RunStep, PruneStep, AfterRemoveListed, AfterOperate, Building, Builds;
      ghost var before, c := State(), Remove(vm, stop, script);
      KeepsBooks(Cfg(), dir, before, c, AfterRemove(before, vm, stop, script));
      if vm !in domains {
        return Err(CommandFailed("not found"));
      }
      var d := domains[vm];
      if d.state == RUNNING {
        if !stop {
          return Err(CommandFailed("running"));
        }
        if !script.destroy {
          return Err(CommandFailed("destroy"));
        }
        if !d.persistent {
          domains := domains - {vm};
          return Ok(());
        }
      }
      domains := domains[vm := Stopped(d)];
      if d.disk in files {
        if !script.removeFile {
          return Err(CommandFailed("remove"));
        }
        files := files - {d.disk};
      }
      assert files == before.files - {d.disk};
      if !d.persistent || !script.undefine {
        return Err(CommandFailed("undefine"));
      }
      domains := domains - {vm};
      assert domains == before.domains - {vm};
      return Ok(());
    }

    /** Removes a list of VMs, going on after an error. It reports success only if every VM of
        the list was persistent and is gone: a transient one counts as an error even when it
        is gone, and has by then lost the base disk it boots from. */
    method RemoveAll(vms: seq<string>, stop: bool, scripts: string -> RemoveScript) returns (result: Result<(), Error>)
      requires Valid()
      modifies this
      ensures Valid() && State() == AfterRemoveAll(old(State()), vms, stop, scripts)
      ensures result.Ok? <==>
                && (forall i, j :: 0 <= i < j < |vms| ==> vms[i] != vms[j])
                && (forall vm :: vm in vms ==>
                      && vm in old(domains) && old(domains)[vm].persistent
                      && !Refuses(old(domains)[vm], stop, scripts(vm)) && scripts(vm).undefine)
      ensures forall vm :: vm in old(domains) && vm !in vms ==> vm in domains && domains[vm] == old(domains)[vm]
      ensures forall n :: n in files <==> n in old(files) && !Loses(old(domains), vms, stop, scripts, n)
      ensures forall n :: n in files ==> files[n] == old(files)[n]
      ensures StampsSound(Cfg(), old(files)) ==> StampsSound(Cfg(), files)
    {
      hide FixedLength, IsVmVolume, IsBaseName, StampsSound, Truthful, DomainsSound, Loses;
      var removed := 0;
      ghost var before := State();
      assert vms[..0] == [] && AfterRemoveAll(before, [], stop, scripts) == before;
      hide AfterRemoveAll, PoolStep;
      for i := 0 to |vms|
        invariant Valid() && removed <= i
        invariant State() == AfterRemoveAll(before, vms[..i], stop, scripts)
        invariant StampsSound(Cfg(), before.files) ==> StampsSound(Cfg(), files)
        invariant removed == i <==> AllRemovable(before.domains, vms[..i], stop, scripts)
      {
        var vm := vms[i];
        assert vms[..i + 1] == vms[..i] + [vm];
        ghost var s := State();
        AfterRemoveAllNext(before, vms, i, stop, scripts);
        RemoveAllDomain(before, vms[..i], stop, scripts, vm);
        AllRemovableNext(before.domains, vms[..i], stop, scripts, vm);
        RemoveListedIsStep(Cfg(), dir, s, vm, stop, scripts(vm));
        KeepsBooks(Cfg(), dir, s, RemoveListed(vm, stop, scripts(vm)), AfterRemoveListed(s, vm, stop, scripts(vm)));
        var count := RemoveOne(vm, stop, scripts(vm));
        removed := removed + count;
      }
      assert vms[..|vms|] == vms;
      RemoveAllEffect(before, vms, stop, scripts);
      return if removed == |vms| then Ok(()) else Err(CommandFailed("remove"));
    }

    /** One turn of the loop: 1 if the VM was removed, 0 after an error. */
    method RemoveOne(vm: string, stop: bool, script: RemoveScript) returns (count: nat)
      modifies this
      ensures State() == AfterRemoveListed(old(State()), vm, stop, script)
      ensures vm !in old(domains) ==> State() == old(State())
      ensures vm in old(domains) ==>
                var d := old(domains[vm]);
                && files == (if Refuses(d, stop, script) || !script.removeFile then old(files) else old(files) - {d.disk})
                && domains == (if Refuses(d, stop, script) then old(domains)
                               else if (if d.persistent then script.undefine else d.state == RUNNING)
                               then old(domains) - {vm}
                               else old(domains)[vm := d.(state := if d.state == RUNNING then SHUT_OFF else d.state)])
      ensures count == if vm in old(domains) && old(domains)[vm].persistent && vm !in domains then 1 else 0
    {
      count := 0;
      if vm !in domains {
        return;
      }
      var d := domains[vm];
      if d.state == RUNNING && !(stop && script.destroy) {
        return;
      }
      if script.removeFile {
        files := files - {d.disk};
      }
      if d.state == RUNNING && !d.persistent {
        domains := domains - {vm};
        return;
      }
      domains := domains[vm := Stopped(d)];
      if !d.persistent || !script.undefine {
        return;
      }
      domains := domains - {vm};
      assert domains == old(domains) - {vm};
      count := 1;
    }
  }

  function AfterRemoveAll(s: PoolState, vms: seq<string>, stop: bool, scripts: string -> RemoveScript): PoolState {
    if vms == [] then s
    else
      var vm := vms[|vms| - 1];
      AfterRemoveListed(AfterRemoveAll(s, vms[..|vms| - 1], stop, scripts), vm, stop, scripts(vm))
  }

  function RemovalStates(s: PoolState, vms: seq<string>, stop: bool, scripts: string -> RemoveScript)
    : (states: seq<PoolState>)
    ensures |states| == |vms| + 1
    ensures forall i :: 0 <= i <= |vms| ==> states[i] == AfterRemoveAll(s, vms[..i], stop, scripts)
  {
    seq(|vms| + 1, i requires 0 <= i <= |vms| => AfterRemoveAll(s, vms[..i], stop, scripts))
  }

  function Removals(vms: seq<string>, stop: bool, scripts: string -> RemoveScript): (commands: seq<Command>)
    ensures |commands| == |vms|
    ensures forall i :: 0 <= i < |vms| ==> commands[i] == RemoveListed(vms[i], stop, scripts(vms[i]))
  {
    seq(|vms|, i requires 0 <= i < |vms| => RemoveListed(vms[i], stop, scripts(vms[i])))
  }

  lemma AfterRemoveAllNext(s: PoolState, vms: seq<string>, i: nat, stop: bool, scripts: string -> RemoveScript)
    requires i < |vms|
    ensures AfterRemoveAll(s, vms[..i + 1], stop, scripts)
         == AfterRemoveListed(AfterRemoveAll(s, vms[..i], stop, scripts), vms[i], stop, scripts(vms[i]))
  {
    hide AfterRemoveListed;
    assert vms[..i + 1][..i] == vms[..i];
  }

  /** What becomes of one VM when a list is removed. */
  lemma {:induction false} RemoveAllDomain(s: PoolState, vms: seq<string>, stop: bool, scripts: string -> RemoveScript, n: string)
    ensures var after := AfterRemoveAll(s, vms, stop, scripts).domains;
            if n !in s.domains then n !in after
            else if n !in vms || Refuses(s.domains[n], stop, scripts(n)) then n in after && after[n] == s.domains[n]
            else if (if s.domains[n].persistent then scripts(n).undefine else s.domains[n].state == RUNNING) then n !in after
            else n in after && after[n] == Stopped(s.domains[n])
  {
    if vms != [] {
      RemoveAllDomain(s, vms[..|vms| - 1], stop, scripts, n);
      assert n in vms <==> n in vms[..|vms| - 1] || n == vms[|vms| - 1];
    }
  }

  /** What becomes of one file. */
  lemma {:induction false} RemoveAllFile(s: PoolState, vms: seq<string>, stop: bool, scripts: string -> RemoveScript, f: string)
    ensures var after := AfterRemoveAll(s, vms, stop, scripts).files;
            && (f in after <==> f in s.files && !Loses(s.domains, vms, stop, scripts, f))
            && (f in after ==> after[f] == s.files[f])
  {
    if vms != [] {
      var before, last := vms[..|vms| - 1], vms[|vms| - 1];
      RemoveAllFile(s, before, stop, scripts, f);
      RemoveAllDomain(s, before, stop, scripts, last);
      assert forall n :: n in vms <==> n in before || n == last;
      hide AfterRemoveAll;
      LosesNext(s.domains, before, last, stop, scripts, f);
      assert vms == before + [last];
      var mid := AfterRemoveAll(s, before, stop, scripts);
      AfterRemoveAllNext(s, vms, |before|, stop, scripts);
      assert vms[..|before| + 1] == vms;
    }
  }

  lemma LosesNext(domains: map<string, Domain>, vms: seq<string>, last: string, stop: bool,
                  scripts: string -> RemoveScript, f: string)
    ensures Loses(domains, vms + [last], stop, scripts, f) <==>
            || Loses(domains, vms, stop, scripts, f)
            || (last in domains && domains[last].disk == f && !Refuses(domains[last], stop, scripts(last))
                && scripts(last).removeFile)
  {
    assert forall n :: n in vms + [last] <==> n in vms || n == last;
  }

  lemma RemoveAllEffect(s: PoolState, vms: seq<string>, stop: bool, scripts: string -> RemoveScript)
    ensures var after := AfterRemoveAll(s, vms, stop, scripts);
            && (forall vm :: vm in s.domains && vm !in vms ==> vm in after.domains && after.domains[vm] == s.domains[vm])
            && (forall n :: n in after.files <==> n in s.files && !Loses(s.domains, vms, stop, scripts, n))
            && (forall n :: n in after.files ==> after.files[n] == s.files[n])
  {
    hide AfterRemoveAll, Loses;
    var after := AfterRemoveAll(s, vms, stop, scripts);
    forall n: string
      ensures n in s.domains && n !in vms ==> n in after.domains && after.domains[n] == s.domains[n]
    {
      RemoveAllDomain(s, vms, stop, scripts, n);
    }
    forall n: string
      ensures n in after.files <==> n in s.files && !Loses(s.domains, vms, stop, scripts, n)
      ensures n in after.files ==> after.files[n] == s.files[n]
    {
      RemoveAllFile(s, vms, stop, scripts, n);
    }
  }

  lemma AllRemovableNext(domains: map<string, Domain>, vms: seq<string>, stop: bool, scripts: string -> RemoveScript, vm: string)
    ensures AllRemovable(domains, vms + [vm], stop, scripts) <==>
            && AllRemovable(domains, vms, stop, scripts) && vm !in vms && vm in domains && domains[vm].persistent
            && !Refuses(domains[vm], stop, scripts(vm)) && scripts(vm).undefine
  {
    var more := vms + [vm];
    assert more[|vms|] == vm && forall i :: 0 <= i < |vms| ==> more[i] == vms[i];
    assert forall n :: n in more <==> n in vms || n == vm;
  }

  lemma RemoveListedIsStep(cfg: Setting, dir: string, s: PoolState, vm: string, stop: bool, script: RemoveScript)
    ensures PoolStep(cfg, dir, s, RemoveListed(vm, stop, script), AfterRemoveListed(s, vm, stop, script))
  {
    hide AfterRemoveListed;
  }

  /** The removal of a list is a history of removals of listed VMs, so the condition on
      histories applies to it. */
  lemma RemoveAllIsHistory(cfg: Setting, dir: string, s: PoolState, vms: seq<string>, stop: bool,
                           scripts: string -> RemoveScript)
    ensures var states := RemovalStates(s, vms, stop, scripts);
            && IsHistory(cfg, dir, states, Removals(vms, stop, scripts))
            && states[0] == s && states[|vms|] == AfterRemoveAll(s, vms, stop, scripts)
  {
    assert vms[..|vms|] == vms && vms[..0] == [] && AfterRemoveAll(s, [], stop, scripts) == s;
    hide AfterRemoveAll, AfterRemoveListed, RemovalStates, Removals, PoolStep;
    var states, commands := RemovalStates(s, vms, stop, scripts), Removals(vms, stop, scripts);
    forall i | 0 <= i < |vms|
      ensures PoolStep(cfg, dir, states[i], commands[i], states[i + 1])
    {
      AfterRemoveAllNext(s, vms, i, stop, scripts);
      RemoveListedIsStep(cfg, dir, states[i], vms[i], stop, scripts(vms[i]));
    }
  }

  /** What every step keeps, and when it keeps the references. */
  lemma KeepsBooks(cfg: Setting, dir: string, s: PoolState, c: Command, s': PoolState)
    requires DomainsSound(s.domains) && PoolStep(cfg, dir, s, c, s')
    ensures DomainsSound(s'.domains) && (Truthful(s.files) ==> Truthful(s'.files))
    ensures RefsIntact(dir, s.files) ==> (RefsIntact(dir, s'.files) <==> !Harmful(cfg, dir, s, c))
    ensures StampsSound(cfg, s.files) ==> StampsSound(cfg, s'.files)
  {
    hide PoolStep, DomainsSound, RefsIntact, Harmful, StampsSound, Truthful;
    StepKeepsDomains(cfg, dir, s, c, s');
    if Truthful(s.files) {
      StepKeepsTrueStamps(cfg, dir, s, c, s');
    }
    if RefsIntact(dir, s.files) {
      StepRefsExact(cfg, dir, s, c, s');
    }
    if StampsSound(cfg, s.files) {
      StepKeepsStamps(cfg, dir, s, c, s');
    }
  }

  lemma MentionedInVolumes(before: Files, files: Files, unreadable: set<string>, volumes: seq<string>, base: string)
    requires forall v :: v in volumes <==> v in before && IsVmVolume(v)
    requires forall v :: v in volumes ==> v in files && files[v] == before[v]
    ensures (exists v :: v in volumes && MentionedBy(files, unreadable, v, base)) <==> Mentioned(before, unreadable, base)
  {
  }

  lemma PrunedIsStep(cfg: Setting, dir: string, files: Files, domains: map<string, Domain>,
                     dryRun: bool, unreadable: set<string>, gone: set<string>)
    requires forall b :: b in gone ==> Prunable(files, unreadable, b)
    requires dryRun ==> gone == {}
    ensures PoolStep(cfg, dir, PoolState(files, domains), Prune(dryRun, unreadable), PoolState(files - gone, domains))
    ensures RefsIntact(dir, files) ==> RefsIntact(dir, files - gone)
    ensures StampsSound(cfg, files) ==> StampsSound(cfg, files - gone)
  {
    hide StampsSound, RefsIntact;
    assert files.Keys - (files - gone).Keys == gone;
    if RefsIntact(dir, files) {
      PruningKeepsRefs(dir, files, unreadable, gone);
    }
    if StampsSound(cfg, files) {
      DeletionKeepsStamps(cfg, files, gone);
    }
  }

  lemma PlainKey(r: Request, temp: string)
    ensures Key(r) == Wanted(TempJob(r, temp)) <==> PlainSource(r)
  {
  }
}
