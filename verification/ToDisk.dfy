/** Installing an image to a disk file: one run as a machine that can stop at any step, and
    the same run as the program performs it from start to end. */
module ToDisk {
  import opened Wrappers
  import opened Text
  import opened CacheMetadata

  type Files = map<string, DiskFile>

  const STORAGE_PREFIX := "containers-storage:"

  /** One invocation. The digest behind the image name is looked up when the cache is
      checked, again when the installer pulls the image, and again when the disk is
      stamped; the three are kept apart here. */
  datatype Job = Job(
    target: string,
    source: string,
    options: InstallOptions,
    digest: string,
    pulledDigest: string,
    stampedDigest: string,
    dryRun: bool)

  /** The image name keeps its digest for the length of the run. */
  predicate Steady(job: Job) {
    job.digest == job.pulledDigest == job.stampedDigest
  }

  function SteadyJob(target: string, source: string, options: InstallOptions, digest: string): Job {
    Job(target, source, options, digest, digest, digest, false)
  }

  function NormalizeSource(source: string): string {
    StripPrefix(source, STORAGE_PREFIX)
  }

  /** The inputs the run checks for, installs and stamps. */
  function Wanted(job: Job): Metadata {
    MetadataFrom(job.options, job.digest, NormalizeSource(job.source))
  }

  function Pulled(job: Job): Metadata {
    MetadataFrom(job.options, job.pulledDigest, NormalizeSource(job.source))
  }

  function Stamped(job: Job): Metadata {
    MetadataFrom(job.options, job.stampedDigest, NormalizeSource(job.source))
  }

  datatype Outcome = Created | Cached | DryRunWouldReuse | DryRunWouldRegenerate

  datatype Phase =
    | Begin
    | Checking
    | Removing
    | Creating
    | Installing
    | StampingHash
    | StampingDigest
    | Finished(outcome: Outcome)
    | Failed

  /** What the outside world does at a step: the step works, it fails leaving things as
      they are, it fails half way, or (while installing) some blocks get written. */
  datatype Event = Works | Fails | FailsDirty | Progress

  function FileAt(files: Files, name: string): Option<DiskFile> {
    if name in files then Some(files[name]) else None
  }

  /** Creating a file over an existing one empties it but keeps its attributes. */
  function CreateBlank(files: Files, name: string): Files {
    files[name := if name in files then files[name].(content := Blank) else EMPTY_FILE]
  }

  function WriteContent(files: Files, name: string, c: Content): Files {
    if name in files then files[name := files[name].(content := c)] else files
  }

  /** One atomic step of a run. */
  function Step(files: Files, job: Job, phase: Phase, ev: Event): (r: (Files, Phase)) {
    match phase
    case Begin =>
      if job.target in files then (files, Checking)
      else if job.dryRun then (files, Finished(DryRunWouldRegenerate))
      else (files, Creating)
    case Checking =>
      if !ev.Works? then (files, Failed)
      else
        (match CheckCachedDisk(FileAt(files, job.target), Wanted(job))
         case Valid => (files, Finished(if job.dryRun then DryRunWouldReuse else Cached))
         case ReadError => (files, Failed)
         case _ => (files, if job.dryRun then Finished(DryRunWouldRegenerate) else Removing))
    case Removing =>
      if !ev.Works? || job.target !in files then (files, Failed)
      else (files - {job.target}, Creating)
    case Creating =>
      (match ev
       case Fails => (files, Failed)
       case FailsDirty => (CreateBlank(files, job.target), Failed)
       case _ => (CreateBlank(files, job.target), Installing))
    case Installing =>
      (match ev
       case Progress => (WriteContent(files, job.target, Partial), Installing)
       case FailsDirty => (files, Failed)
       case Fails => (files - {job.target}, Failed)
       case Works => (WriteContent(files, job.target, Installed(Pulled(job))), StampingHash))
    case StampingHash =>
      if !ev.Works? || job.target !in files then (files, Finished(Created))
      else (files[job.target := StampHash(files[job.target], Stamped(job))], StampingDigest)
    case StampingDigest =>
      if !ev.Works? || job.target !in files then (files, Finished(Created))
      else (files[job.target := StampDigest(files[job.target], Stamped(job))], Finished(Created))
    case Finished(_) => (files, phase)
    case Failed => (files, phase)
  }

  /** The state a run reaches when it is stopped after the steps in `evs`. */
  function Execute(files: Files, job: Job, phase: Phase, evs: seq<Event>): (Files, Phase)
    decreases |evs|
  {
    if evs == [] then (files, phase)
    else
      var (files', phase') := Step(files, job, phase, evs[0]);
      Execute(files', job, phase', evs[1..])
  }

  // ---- A stamp never lies ---------------------------------------------------------

  predicate HasStamp(f: DiskFile) {
    f.cacheHash.Some? && f.cacheHash.value.HashText?
  }

  /** A disk that carries a cache hash is the finished install of inputs with that hash. */
  predicate TruthfulFile(f: DiskFile) {
    HasStamp(f) ==> f.content.Installed? && f.cacheHash.value.hash == ComputeCacheHash(f.content.of)
  }

  ghost predicate Truthful(files: Files) {
    forall n :: n in files ==> TruthfulFile(files[n])
  }

  /** What a run knows about its target at each phase, when nothing else writes there. */
  predicate PhaseOk(files: Files, job: Job, phase: Phase) {
    match phase
    case Creating => job.target !in files
    case Installing => job.target in files ==> files[job.target].cacheHash.None?
    case StampingHash =>
      job.target in files ==> files[job.target].cacheHash.None? && files[job.target].content == Installed(Pulled(job))
    case StampingDigest =>
      job.target in files ==> files[job.target].content == Installed(Pulled(job))
                              && files[job.target].cacheHash == Some(HashText(ComputeCacheHash(Stamped(job))))
    case Finished(Cached) =>
      job.target in files && files[job.target].cacheHash == Some(HashText(ComputeCacheHash(Wanted(job))))
    case Finished(Created) =>
      job.target in files ==> files[job.target].content == Installed(Pulled(job))
    case _ => true
  }

  lemma StepTouchesTargetOnly(files: Files, job: Job, phase: Phase, ev: Event)
    ensures Step(files, job, phase, ev).0 - {job.target} == files - {job.target}
    ensures job.dryRun && !phase.Removing? && !phase.Creating? && !phase.Installing?
            && !phase.StampingHash? && !phase.StampingDigest?
            ==> Step(files, job, phase, ev).0 == files
  {
  }

  lemma StepKeepsTruth(files: Files, job: Job, phase: Phase, ev: Event)
    requires Steady(job) && Truthful(files) && PhaseOk(files, job, phase)
    ensures var (files', phase') := Step(files, job, phase, ev);
            Truthful(files') && PhaseOk(files', job, phase')
  {
  }

  /** Wherever a run is stopped, every stamp in the directory is still true. */
  lemma {:induction false} InterruptedRunKeepsTruth(files: Files, job: Job, phase: Phase, evs: seq<Event>)
    requires Steady(job) && Truthful(files) && PhaseOk(files, job, phase)
    ensures var (files', phase') := Execute(files, job, phase, evs);
            Truthful(files') && PhaseOk(files', job, phase')
    decreases |evs|
  {
    if evs != [] {
      StepKeepsTruth(files, job, phase, evs[0]);
      var (files', phase') := Step(files, job, phase, evs[0]);
      InterruptedRunKeepsTruth(files', job, phase', evs[1..]);
    }
  }

  /** A whole history of runs on one directory, each stopped at some step or finished. */
  function History(files: Files, runs: seq<(Job, seq<Event>)>): Files
    decreases |runs|
  {
    if runs == [] then files
    else History(Execute(files, runs[0].0, Begin, runs[0].1).0, runs[1..])
  }

  /** No history of single-writer runs, however they were interrupted, leaves a disk whose
      stamp names anything but its finished contents. */
  lemma {:induction false} InterruptedInstallNeverReused(files: Files, runs: seq<(Job, seq<Event>)>)
    requires Truthful(files)
    requires forall i :: 0 <= i < |runs| ==> Steady(runs[i].0)
    ensures Truthful(History(files, runs))
    decreases |runs|
  {
    if runs != [] {
      InterruptedRunKeepsTruth(files, runs[0].0, Begin, runs[0].1);
      InterruptedInstallNeverReused(Execute(files, runs[0].0, Begin, runs[0].1).0, runs[1..]);
    }
  }

  predicate DryRunPhase(phase: Phase) {
    phase.Begin? || phase.Checking? || phase.Finished? || phase.Failed?
  }

  /** A dry run changes no file at any step. */
  lemma {:induction false} DryRunChangesNothing(files: Files, job: Job, phase: Phase, evs: seq<Event>)
    requires job.dryRun && DryRunPhase(phase)
    ensures Execute(files, job, phase, evs).0 == files
    decreases |evs|
  {
    if evs != [] {
      var (files', phase') := Step(files, job, phase, evs[0]);
      assert files' == files && DryRunPhase(phase');
      DryRunChangesNothing(files', job, phase', evs[1..]);
    }
  }

  lemma {:induction false} CachedRunChangesNothing(files: Files, job: Job, phase: Phase, evs: seq<Event>)
    requires phase == Finished(Cached) || DryRunPhase(phase)
    requires Execute(files, job, phase, evs).1 == Finished(Cached)
    ensures Execute(files, job, phase, evs).0 == files
    decreases |evs|
  {
    if evs != [] {
      var (files', phase') := Step(files, job, phase, evs[0]);
      if phase'.Creating? || phase'.Removing? {
        NeverCachedAfterCreating(files', job, phase', evs[1..]);
      } else {
        CachedRunChangesNothing(files', job, phase', evs[1..]);
      }
    }
  }

  lemma {:induction false} NeverCachedAfterCreating(files: Files, job: Job, phase: Phase, evs: seq<Event>)
    requires !DryRunPhase(phase) || phase == Finished(Created) || phase == Failed
    ensures Execute(files, job, phase, evs).1 != Finished(Cached)
    decreases |evs|
  {
    if evs != [] {
      var (files', phase') := Step(files, job, phase, evs[0]);
      NeverCachedAfterCreating(files', job, phase', evs[1..]);
    }
  }

  /** A reused disk was not touched and holds the finished install of the requested inputs. */
  lemma ReusedDiskIsWanted(files: Files, job: Job, evs: seq<Event>)
    requires Steady(job) && Truthful(files)
    requires Execute(files, job, Begin, evs).1 == Finished(Cached)
    ensures Execute(files, job, Begin, evs).0 == files
    ensures job.target in files && files[job.target].content == Installed(Wanted(job))
  {
    InterruptedRunKeepsTruth(files, job, Begin, evs);
    CachedRunChangesNothing(files, job, Begin, evs);
    StampNamesContent(files[job.target], Wanted(job));
  }

  lemma StampNamesContent(f: DiskFile, m: Metadata)
    requires TruthfulFile(f) && f.cacheHash == Some(HashText(ComputeCacheHash(m)))
    ensures f.content == Installed(m)
  {
  }

  // ---- The run from start to end --------------------------------------------------

  /** What each outside operation of one run does. */
  datatype Script = Script(
    inspect: bool,
    remove: bool,
    create: Event,
    install: Event,
    stampHash: bool,
    stampDigest: bool)

  const ALL_WORKS := Script(true, true, Works, Works, true, true)

  function Attempt(ok: bool): Event {
    if ok then Works else Fails
  }

  function EventAt(script: Script, phase: Phase): Event {
    match phase
    case Checking => Attempt(script.inspect)
    case Removing => Attempt(script.remove)
    case Creating => if script.create.Progress? then Works else script.create
    case Installing => if script.install.Progress? then Works else script.install
    case StampingHash => Attempt(script.stampHash)
    case StampingDigest => Attempt(script.stampDigest)
    case _ => Works
  }

  function Rank(phase: Phase): nat {
    match phase
    case Begin => 6
    case Checking => 5
    case Removing => 4
    case Creating => 3
    case Installing => 2
    case StampingHash => 1
    case StampingDigest => 0
    case Finished(_) => 0
    case Failed => 0
  }

  /** The events of a run that is not interrupted, and the state it ends in. */
  function FullRun(files: Files, job: Job, phase: Phase, script: Script): (Files, Phase)
    decreases Rank(phase)
  {
    var ev := EventAt(script, phase);
    var (files', phase') := Step(files, job, phase, ev);
    if Rank(phase) == 0 then (files', phase') else FullRun(files', job, phase', script)
  }

  function FullEvents(files: Files, job: Job, phase: Phase, script: Script): seq<Event>
    decreases Rank(phase)
  {
    var ev := EventAt(script, phase);
    var (files', phase') := Step(files, job, phase, ev);
    if Rank(phase) == 0 then [ev] else [ev] + FullEvents(files', job, phase', script)
  }

  /** A run from start to end is one of the interruptible runs. */
  lemma {:induction false} FullRunIsExecution(files: Files, job: Job, phase: Phase, script: Script)
    ensures Execute(files, job, phase, FullEvents(files, job, phase, script)) == FullRun(files, job, phase, script)
    decreases Rank(phase)
  {
    var ev := EventAt(script, phase);
    var (files', phase') := Step(files, job, phase, ev);
    var evs := FullEvents(files, job, phase, script);
    if Rank(phase) == 0 {
      assert evs[1..] == [];
      assert Execute(files', job, phase', []) == (files', phase');
    } else {
      FullRunIsExecution(files', job, phase', script);
      assert evs[1..] == FullEvents(files', job, phase', script);
    }
  }

  /** Why the digest must hold still: a run that installs and stamps a new disk leaves a
      true stamp if and only if the image pulled is the image whose digest is stamped. */
  lemma StampTrueIffDigestSteady(files: Files, job: Job)
    requires job.target !in files && !job.dryRun
    ensures var (files', phase') := FullRun(files, job, Begin, ALL_WORKS);
            && phase' == Finished(Created) && job.target in files'
            && (TruthfulFile(files'[job.target]) <==> job.pulledDigest == job.stampedDigest)
  {
    hide FullRun, NormalizeSource;
    FreshRunResult(files, job);
  }

  lemma FreshRunResult(files: Files, job: Job)
    requires job.target !in files && !job.dryRun
    ensures var installed := EMPTY_FILE.(content := Installed(Pulled(job)));
            FullRun(files, job, Begin, ALL_WORKS)
            == (files[job.target := StampDigest(StampHash(installed, Stamped(job)), Stamped(job))], Finished(Created))
  {
    var f0 := EMPTY_FILE.(content := Installed(Pulled(job)));
    var s1 := CreateBlank(files, job.target);
    var s2 := WriteContent(s1, job.target, Installed(Pulled(job)));
    assert s2 == files[job.target := f0];
    var s3 := s2[job.target := StampHash(f0, Stamped(job))];
    assert FullRun(s3, job, StampingDigest, ALL_WORKS)
        == (s3[job.target := StampDigest(StampHash(f0, Stamped(job)), Stamped(job))], Finished(Created));
    assert FullRun(s2, job, StampingHash, ALL_WORKS) == FullRun(s3, job, StampingDigest, ALL_WORKS);
    assert FullRun(s1, job, Installing, ALL_WORKS) == FullRun(s2, job, StampingHash, ALL_WORKS);
    assert FullRun(files, job, Creating, ALL_WORKS) == FullRun(s1, job, Installing, ALL_WORKS);
    assert FullRun(files, job, Begin, ALL_WORKS) == FullRun(files, job, Creating, ALL_WORKS);
    assert s3[job.target := StampDigest(StampHash(f0, Stamped(job)), Stamped(job))]
        == files[job.target := StampDigest(StampHash(f0, Stamped(job)), Stamped(job))];
  }

  /** The target is there, can be inspected and holds the wanted install. */
  predicate Reusable(files: Files, job: Job, script: Script) {
    job.target in files && script.inspect && CheckCachedDisk(Some(files[job.target]), Wanted(job)).Valid?
  }

  /** There is no target, or one that can be inspected and is something else. */
  predicate Outdated(files: Files, job: Job, script: Script) {
    job.target in files ==>
      script.inspect && CheckCachedDisk(Some(files[job.target]), Wanted(job)) in {MissingXattr, HashMismatch}
  }

  predicate Succeeds(ev: Event) {
    ev.Works? || ev.Progress?
  }

  /** The run gets as far as making a new disk. */
  predicate Rebuilds(files: Files, job: Job, script: Script) {
    !job.dryRun && Outdated(files, job, script) && (job.target in files ==> script.remove)
  }

  /** What a new disk carries: the installed image, and the stamps that could be written. */
  predicate NewDisk(f: DiskFile, job: Job, script: Script) {
    && f.content == Installed(Pulled(job)) && f.backing.None?
    && f.cacheHash == (if script.stampHash then Some(HashText(ComputeCacheHash(Stamped(job)))) else None)
    && f.imageDigest == (if script.stampHash && script.stampDigest then Some(job.stampedDigest) else None)
  }

  /** The directory that holds the target disk. */
  class Directory {
    var files: Files

    constructor (initial: Files)
      ensures files == initial
    {
      files := initial;
    }

    /** One complete run. A wanted disk is reused untouched; any other that can be read is
        replaced, or in a dry run left alone. Whatever fails, only the target is touched. */
    method Run(job: Job, script: Script) returns (end: Phase)
      modifies this
      ensures (files, end) == FullRun(old(files), job, Begin, script)
      ensures end == Finished(Cached) <==> !job.dryRun && Reusable(old(files), job, script)
      ensures end == Finished(DryRunWouldReuse) <==> job.dryRun && Reusable(old(files), job, script)
      ensures end == Finished(DryRunWouldRegenerate) <==> job.dryRun && Outdated(old(files), job, script)
      ensures end == Finished(Created) <==>
              Rebuilds(old(files), job, script) && Succeeds(script.create) && Succeeds(script.install)
      ensures end == Failed <==>
              if Rebuilds(old(files), job, script) then !Succeeds(script.create) || !Succeeds(script.install)
              else !Reusable(old(files), job, script) && !(job.dryRun && Outdated(old(files), job, script))
      ensures files - {job.target} == old(files) - {job.target}
      ensures !Rebuilds(old(files), job, script) ==> files == old(files)
      ensures end == Finished(Created) ==> job.target in files && NewDisk(files[job.target], job, script)
      ensures Rebuilds(old(files), job, script) && end == Failed ==>
                if script.create.Fails? || (Succeeds(script.create) && script.install.Fails?)
                then job.target !in files
                else job.target in files && files[job.target] == EMPTY_FILE
    {
      hide NormalizeSource, NewDisk;
      var wouldReuse := false;
      if job.target in files {
        if !script.inspect {
          return Failed;
        }
        var verdict := CheckCachedDisk(FileAt(files, job.target), Wanted(job));
        if verdict.Valid? {
          return Finished(if job.dryRun then DryRunWouldReuse else Cached);
        } else if verdict.ReadError? {
          return Failed;
        } else if !job.dryRun {
          if !script.remove {
            return Failed;
          }
          files := files - {job.target};
        }
      }
      if job.dryRun {
        return Finished(if wouldReuse then DryRunWouldReuse else DryRunWouldRegenerate);
      }
      end := Build(job, script);
    }

    /** Creates the disk, installs the image and stamps the result. */
    method Build(job: Job, script: Script) returns (end: Phase)
      requires job.target !in files
      modifies this
      ensures (files, end) == FullRun(old(files), job, Creating, script)
      ensures end == (if Succeeds(script.create) && Succeeds(script.install) then Finished(Created) else Failed)
      ensures files - {job.target} == old(files) - {job.target}
      ensures end == Finished(Created) ==> job.target in files && NewDisk(files[job.target], job, script)
      ensures end == Failed ==>
                if script.create.Fails? || (Succeeds(script.create) && script.install.Fails?)
                then job.target !in files
                else job.target in files && files[job.target] == EMPTY_FILE
    {
      hide NormalizeSource;
      if script.create.Fails? {
        return Failed;
      }
      files := CreateBlank(files, job.target);
      if script.create.FailsDirty? {
        return Failed;
      }
      if script.install.FailsDirty? {
        return Failed;
      } else if script.install.Fails? {
        files := files - {job.target};
        return Failed;
      }
      files := WriteContent(files, job.target, Installed(Pulled(job)));
      WriteDiskMetadata(job, script);
      return Finished(Created);
    }

    /** Stamps the finished disk; a failure leaves it unstamped or half stamped and is not
        reported. */
    method WriteDiskMetadata(job: Job, script: Script)
      modifies this
      ensures (files, Finished(Created)) == FullRun(old(files), job, StampingHash, script)
      ensures files - {job.target} == old(files) - {job.target}
      ensures job.target in files <==> job.target in old(files)
      ensures job.target in files ==>
                var f, f' := old(files)[job.target], files[job.target];
                && f'.content == f.content && f'.backing == f.backing
                && f'.cacheHash == (if script.stampHash then Some(HashText(ComputeCacheHash(Stamped(job)))) else f.cacheHash)
                && f'.imageDigest ==
                   (if script.stampHash && script.stampDigest then Some(job.stampedDigest) else f.imageDigest)
    {
      if !script.stampHash || job.target !in files {
        return;
      }
      files := files[job.target := StampHash(files[job.target], Stamped(job))];
      if !script.stampDigest {
        return;
      }
      files := files[job.target := StampDigest(files[job.target], Stamped(job))];
    }
  }
}
