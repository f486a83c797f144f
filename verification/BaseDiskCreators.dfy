/** Any number of processes finding or creating base disks in one storage pool, each able to
    crash between any two steps, while other commands may delete files at any time. */
module BaseDiskCreators {
  import opened Wrappers
  import opened Text
  import opened CacheMetadata
  import opened DiskNames
  import opened ToDisk

  datatype Request = Request(source: string, options: InstallOptions, digest: string)

  /** The inputs a request looks for. The source is used as given. */
  function Key(r: Request): Metadata {
    MetadataFrom(r.options, r.digest, r.source)
  }

  function TempJob(r: Request, temp: string): Job {
    SteadyJob(temp, r.source, r.options, r.digest)
  }

  /** The shortening of cache hashes, and the requests that are ever made. */
  datatype Setting = Setting(short: CacheHash -> string, requests: iset<Request>)

  function BaseOf(cfg: Setting, r: Request): string {
    BaseName(cfg.short(ComputeCacheHash(Key(r))))
  }

  /** Short hashes have their fixed length. */
  ghost predicate FixedLength(cfg: Setting) {
    forall h: CacheHash :: |cfg.short(h)| == SHORT_HASH_LENGTH
  }

  /** No two requests with different inputs share a short hash. */
  ghost predicate NoCollision(cfg: Setting) {
    && FixedLength(cfg)
    && (forall r, r' :: r in cfg.requests && r' in cfg.requests && BaseOf(cfg, r) == BaseOf(cfg, r')
          ==> Key(r) == Key(r'))
  }

  // ---- The machine ----------------------------------------------------------------

  datatype Pc =
    | Start
    | CheckBase
    | RemoveStale
    | MakeTemp
    | InToDisk(temp: string, phase: Phase)
    | Verify(temp: string)
    | Persist(temp: string)
    | DropTemp(temp: string)
    | Returned
    | Errored
    | Crashed

  datatype Proc = Proc(req: Request, pc: Pc)

  datatype System = System(files: Files, procs: map<nat, Proc>)

  function Temp(pc: Pc): Option<string> {
    match pc
    case InToDisk(t, _) => Some(t)
    case Verify(t) => Some(t)
    case Persist(t) => Some(t)
    case DropTemp(t) => Some(t)
    case _ => None
  }

  /** What happens outside a step: how its operation ends, and the random part of a new
      temporary name. */
  datatype Choice = Choice(event: Event, suffix: string)

  /** One atomic step of a process. While persisting, `FailsDirty` stands for the refusal to
      replace an existing file. */
  function Advance(cfg: Setting, files: Files, p: Proc, c: Choice): (Files, Pc) {
    var base := BaseOf(cfg, p.req);
    var ok := c.event.Works?;
    match p.pc
    case Start => (files, if base in files then CheckBase else MakeTemp)
    case CheckBase =>
      if !ok then (files, Errored)
      else
        (match CheckCachedDisk(FileAt(files, base), Key(p.req))
         case Valid => (files, Returned)
         case ReadError => (files, Errored)
         case _ => (files, RemoveStale))
    case RemoveStale =>
      if !ok || base !in files then (files, Errored) else (files - {base}, MakeTemp)
    case MakeTemp =>
      if !ok then (files, Errored)
      else
        var t := NewTemp(cfg, p.req, c);
        (files[t := EMPTY_FILE], InToDisk(t, Begin))
    case InToDisk(t, phase) =>
      var (files', phase') := Step(files, TempJob(p.req, t), phase, c.event);
      (files', if phase'.Finished? then Verify(t) else if phase'.Failed? then DropTemp(t) else InToDisk(t, phase'))
    case Verify(t) =>
      if ok && CheckCachedDisk(FileAt(files, t), Key(p.req)).Valid? then (files, Persist(t)) else (files, DropTemp(t))
    case Persist(t) =>
      if t !in files then (files, DropTemp(t))
      else if ok then ((files - {t})[base := files[t]], Returned)
      else if c.event.FailsDirty? && base in files then (files - {t}, Returned)
      else (files, DropTemp(t))
    case DropTemp(t) => (files - {t}, Errored)
    case Returned => (files, p.pc)
    case Errored => (files, p.pc)
    case Crashed => (files, p.pc)
  }

  function NewTemp(cfg: Setting, r: Request, c: Choice): string {
    TempName(cfg.short(ComputeCacheHash(Key(r))), c.suffix)
  }

  datatype Action =
    | Spawn(id: nat, req: Request)
    | Run(id: nat, choice: Choice)
    | Crash(id: nat)
    | Delete(name: string)

  /** The random part of a new temporary name avoids every file in the pool and every
      temporary name still in use. */
  ghost predicate FreshTemp(s: System, t: string) {
    t !in s.files && forall j :: j in s.procs ==> Temp(s.procs[j].pc) != Some(t)
  }

  ghost predicate Next(cfg: Setting, s: System, a: Action, s': System) {
    match a
    case Spawn(id, req) =>
      id !in s.procs && req in cfg.requests && s' == s.(procs := s.procs[id := Proc(req, Start)])
    case Run(id, c) =>
      && id in s.procs
      && (s.procs[id].pc.MakeTemp? ==> FreshTemp(s, NewTemp(cfg, s.procs[id].req, c)))
      && var (files', pc') := Advance(cfg, s.files, s.procs[id], c);
         s' == System(files', s.procs[id := s.procs[id].(pc := pc')])
    case Crash(id) =>
      id in s.procs && s' == s.(procs := s.procs[id := s.procs[id].(pc := Crashed)])
    case Delete(name) =>
      s' == s.(files := s.files - {name})
  }

  /** Creators start on any pool of true stamps whose base disks are stamped for their names,
      with whatever VM disks and other files beside them. */
  ghost predicate Init(cfg: Setting, s: System) {
    Truthful(s.files) && BasesStamped(cfg, s.files) && s.procs == map[]
  }

  ghost predicate IsRun(cfg: Setting, states: seq<System>, actions: seq<Action>) {
    && |states| == |actions| + 1
    && Init(cfg, states[0])
    && forall i :: 0 <= i < |actions| ==> Next(cfg, states[i], actions[i], states[i + 1])
  }

  // ---- The invariant --------------------------------------------------------------

  predicate StampedFor(f: DiskFile, m: Metadata) {
    f.cacheHash == Some(HashText(ComputeCacheHash(m)))
  }

  /** The source carries no transport prefix, so installing does not rename it. */
  predicate PlainSource(r: Request) {
    NormalizeSource(r.source) == r.source
  }

  ghost predicate BasesStamped(cfg: Setting, files: Files) {
    forall r :: r in cfg.requests && BaseOf(cfg, r) in files
      ==> StampedFor(files[BaseOf(cfg, r)], Key(r)) && PlainSource(r)
  }

  /** Longer than every base name, so never one of them. */
  predicate LongName(t: string) {
    |t| > |BASE_PREFIX| + SHORT_HASH_LENGTH + |QCOW2_SUFFIX|
  }

  predicate Running(phase: Phase) {
    !phase.Finished? && !phase.Failed?
  }

  ghost predicate ProcOk(cfg: Setting, files: Files, p: Proc) {
    && p.req in cfg.requests
    && (Temp(p.pc).Some? ==> LongName(Temp(p.pc).value))
    && (p.pc.InToDisk? ==> Running(p.pc.phase) && PhaseOk(files, TempJob(p.req, p.pc.temp), p.pc.phase))
    && (p.pc.Verify? && p.pc.temp in files && HasStamp(files[p.pc.temp])
        ==> StampedFor(files[p.pc.temp], Wanted(TempJob(p.req, p.pc.temp))))
    && (p.pc.Persist? && p.pc.temp in files ==> StampedFor(files[p.pc.temp], Key(p.req)) && PlainSource(p.req))
    && (p.pc.Returned? ==> PlainSource(p.req))
  }

  ghost predicate TempsDistinct(procs: map<nat, Proc>) {
    forall i, j :: i in procs && j in procs && i != j && Temp(procs[i].pc).Some?
      ==> Temp(procs[i].pc) != Temp(procs[j].pc)
  }

  ghost predicate Inv(cfg: Setting, s: System) {
    && Truthful(s.files)
    && BasesStamped(cfg, s.files)
    && (forall id :: id in s.procs ==> ProcOk(cfg, s.files, s.procs[id]))
    && TempsDistinct(s.procs)
  }

  predicate AgreeAt(files: Files, files': Files, n: string) {
    FileAt(files, n) == FileAt(files', n)
  }

  lemma BaseIsShort(cfg: Setting, r: Request)
    requires NoCollision(cfg)
    ensures !LongName(BaseOf(cfg, r))
    ensures forall c :: LongName(NewTemp(cfg, r, c))
  {
  }

  /** A step changes its own temporary file and its own base disk, nothing else. */
  lemma AdvanceFrame(cfg: Setting, files: Files, p: Proc, c: Choice, n: string)
    requires n != BaseOf(cfg, p.req) && Temp(p.pc) != Some(n)
    requires p.pc.MakeTemp? ==> n != NewTemp(cfg, p.req, c)
    ensures AgreeAt(files, Advance(cfg, files, p, c).0, n)
  {
    if p.pc.InToDisk? {
      StepTouchesTargetOnly(files, TempJob(p.req, p.pc.temp), p.pc.phase, c.event);
      var files' := Step(files, TempJob(p.req, p.pc.temp), p.pc.phase, c.event).0;
      assert n in files' <==> n in files' - {p.pc.temp};
      assert n in files <==> n in files - {p.pc.temp};
      assert n in files ==> (files' - {p.pc.temp})[n] == (files - {p.pc.temp})[n];
    }
  }

  lemma AdvanceKeepsTruth(cfg: Setting, files: Files, p: Proc, c: Choice)
    requires NoCollision(cfg) && Truthful(files) && BasesStamped(cfg, files) && ProcOk(cfg, files, p)
    requires p.pc.MakeTemp? ==> NewTemp(cfg, p.req, c) !in files
    ensures var (files', pc') := Advance(cfg, files, p, c);
            Truthful(files') && ProcOk(cfg, files', p.(pc := pc'))
  {
    hide NormalizeSource;
    BaseIsShort(cfg, p.req);
    if p.pc.InToDisk? {
      StepKeepsTruth(files, TempJob(p.req, p.pc.temp), p.pc.phase, c.event);
    } else if p.pc.Verify? && p.pc.temp in files {
    }
  }

  lemma AdvanceKeepsBases(cfg: Setting, files: Files, p: Proc, c: Choice)
    requires NoCollision(cfg) && BasesStamped(cfg, files) && ProcOk(cfg, files, p)
    ensures BasesStamped(cfg, Advance(cfg, files, p, c).0)
  {
    var files' := Advance(cfg, files, p, c).0;
    forall r | r in cfg.requests && BaseOf(cfg, r) in files'
      ensures StampedFor(files'[BaseOf(cfg, r)], Key(r))
    {
      BaseIsShort(cfg, r);
      BaseIsShort(cfg, p.req);
      if BaseOf(cfg, r) != BaseOf(cfg, p.req) {
        AdvanceFrame(cfg, files, p, c, BaseOf(cfg, r));
      } else if p.pc.InToDisk? {
        AdvanceFrameBase(cfg, files, p, c);
      }
    }
  }

  /** Installing touches no base disk. */
  lemma AdvanceFrameBase(cfg: Setting, files: Files, p: Proc, c: Choice)
    requires NoCollision(cfg) && p.pc.InToDisk? && LongName(p.pc.temp)
    ensures AgreeAt(files, Advance(cfg, files, p, c).0, BaseOf(cfg, p.req))
  {
  }

  lemma ProcOkFrame(cfg: Setting, files: Files, files': Files, q: Proc)
    requires ProcOk(cfg, files, q)
    requires Temp(q.pc).Some? ==> AgreeAt(files, files', Temp(q.pc).value) || Temp(q.pc).value !in files'
    ensures ProcOk(cfg, files', q)
  {
  }

  lemma RunKeepsInv(cfg: Setting, s: System, id: nat, c: Choice, s': System)
    requires NoCollision(cfg) && Inv(cfg, s) && Next(cfg, s, Run(id, c), s')
    ensures Inv(cfg, s')
  {
    hide Advance, PhaseOk, NormalizeSource;
    var p := s.procs[id];
    var (files', pc') := Advance(cfg, s.files, p, c);
    AdvanceKeepsTruth(cfg, s.files, p, c);
    AdvanceKeepsBases(cfg, s.files, p, c);
    AdvanceTemp(cfg, s.files, p, c);
    forall j | j in s'.procs && j != id
      ensures ProcOk(cfg, s'.files, s'.procs[j])
    {
      var q := s.procs[j];
      if Temp(q.pc).Some? {
        BaseIsShort(cfg, p.req);
        AdvanceFrame(cfg, s.files, p, c, Temp(q.pc).value);
      }
      ProcOkFrame(cfg, s.files, files', q);
    }
  }

  lemma AdvanceTemp(cfg: Setting, files: Files, p: Proc, c: Choice)
    ensures var pc' := Advance(cfg, files, p, c).1;
            Temp(pc') == Temp(p.pc) || Temp(pc').None? || (p.pc.MakeTemp? && Temp(pc') == Some(NewTemp(cfg, p.req, c)))
  {
  }

  lemma NextKeepsInv(cfg: Setting, s: System, a: Action, s': System)
    requires NoCollision(cfg) && Inv(cfg, s) && Next(cfg, s, a, s')
    ensures Inv(cfg, s')
  {
    hide Advance, PhaseOk, BaseOf, NewTemp, NormalizeSource, NoCollision;
    match a
    case Run(id, c) =>
      RunKeepsInv(cfg, s, id, c, s');
    case Delete(name) =>
      forall j | j in s'.procs ensures ProcOk(cfg, s'.files, s'.procs[j]) {
        ProcOkFrame(cfg, s.files, s'.files, s.procs[j]);
      }
    case _ =>
  }

  lemma {:induction false} ReachableInv(cfg: Setting, states: seq<System>, actions: seq<Action>, i: nat)
    requires NoCollision(cfg) && IsRun(cfg, states, actions) && i < |states|
    ensures Inv(cfg, states[i])
  {
    hide BaseOf, Next, NoCollision;
    if i > 0 {
      ReachableInv(cfg, states, actions, i - 1);
      NextKeepsInv(cfg, states[i - 1], actions[i - 1], states[i]);
    }
  }

  // ---- What every run guarantees --------------------------------------------------

  /** In every reachable state, a file at a base path is the completed install of exactly the
      inputs its name stands for, whoever wrote it and whatever crashed meanwhile. */
  lemma BasesAreComplete(cfg: Setting, states: seq<System>, actions: seq<Action>, i: nat, r: Request)
    requires NoCollision(cfg) && IsRun(cfg, states, actions) && i < |states|
    requires r in cfg.requests && BaseOf(cfg, r) in states[i].files
    ensures states[i].files[BaseOf(cfg, r)].content == Installed(Key(r))
  {
    ReachableInv(cfg, states, actions, i);
    StampNamesContent(states[i].files[BaseOf(cfg, r)], Key(r));
  }

  /** The moment a process returns a base path, the file there is complete and its own. */
  lemma ReturnedBaseIsComplete(cfg: Setting, states: seq<System>, actions: seq<Action>, i: nat, id: nat, c: Choice)
    requires NoCollision(cfg) && IsRun(cfg, states, actions) && i < |actions|
    requires actions[i] == Run(id, c)
    requires id in states[i].procs && !states[i].procs[id].pc.Returned?
    requires id in states[i + 1].procs && states[i + 1].procs[id].pc.Returned?
    ensures var r := states[i].procs[id].req;
            && BaseOf(cfg, r) in states[i + 1].files
            && states[i + 1].files[BaseOf(cfg, r)].content == Installed(Key(r))
  {
    ReachableInv(cfg, states, actions, i);
    var p := states[i].procs[id];
    assert states[i + 1] == System(Advance(cfg, states[i].files, p, c).0, states[i + 1].procs);
    ReturnLeavesBase(cfg, states[i].files, p, c);
    BasesAreComplete(cfg, states, actions, i + 1, p.req);
  }

  lemma ReturnLeavesBase(cfg: Setting, files: Files, p: Proc, c: Choice)
    requires NoCollision(cfg) && ProcOk(cfg, files, p) && !p.pc.Returned?
    requires Advance(cfg, files, p, c).1.Returned?
    ensures BaseOf(cfg, p.req) in Advance(cfg, files, p, c).0
  {
  }

  /** Verifying compares against the source as given, while the installer strips the
      transport prefix before stamping; so a request that carries the prefix is never
      served. */
  lemma PrefixedSourceNeverServed(cfg: Setting, states: seq<System>, actions: seq<Action>, i: nat, id: nat)
    requires NoCollision(cfg) && IsRun(cfg, states, actions) && i < |states|
    requires id in states[i].procs && StartsWith(states[i].procs[id].req.source, STORAGE_PREFIX)
    ensures !states[i].procs[id].pc.Returned?
  {
    ReachableInv(cfg, states, actions, i);
    var source := states[i].procs[id].req.source;
    assert |NormalizeSource(source)| < |source|;
  }

  ghost predicate NothingDeleted(actions: seq<Action>) {
    forall i :: 0 <= i < |actions| ==> !actions[i].Delete?
  }

  /** When no other command deletes files, no creator finds its base disk stale. */
  ghost predicate NoneStale(cfg: Setting, s: System) {
    forall id :: id in s.procs ==>
      && !s.procs[id].pc.RemoveStale?
      && (s.procs[id].pc.CheckBase? ==> BaseOf(cfg, s.procs[id].req) in s.files)
  }

  lemma AdvanceKeepsBasePaths(cfg: Setting, files: Files, p: Proc, c: Choice, r: Request)
    requires NoCollision(cfg) && BasesStamped(cfg, files) && ProcOk(cfg, files, p) && r in cfg.requests
    requires !p.pc.RemoveStale? && (p.pc.CheckBase? ==> BaseOf(cfg, p.req) in files)
    ensures BaseOf(cfg, r) in files ==> BaseOf(cfg, r) in Advance(cfg, files, p, c).0
    ensures !Advance(cfg, files, p, c).1.RemoveStale?
    ensures Advance(cfg, files, p, c).1.CheckBase? ==> BaseOf(cfg, p.req) in files
  {
    BaseIsShort(cfg, r);
    BaseIsShort(cfg, p.req);
    if p.pc.InToDisk? {
      if BaseOf(cfg, r) == BaseOf(cfg, p.req) {
        AdvanceFrameBase(cfg, files, p, c);
      } else {
        AdvanceFrame(cfg, files, p, c, BaseOf(cfg, r));
      }
    }
  }

  lemma {:induction false} NoDeletionNoStale(cfg: Setting, states: seq<System>, actions: seq<Action>, i: nat)
    requires NoCollision(cfg) && IsRun(cfg, states, actions) && NothingDeleted(actions) && i < |states|
    ensures NoneStale(cfg, states[i])
  {
    hide BaseOf, Inv, Next, NoCollision;
    if i > 0 {
      NoDeletionNoStale(cfg, states, actions, i - 1);
      ReachableInv(cfg, states, actions, i - 1);
      StepKeepsNoneStale(cfg, states[i - 1], actions[i - 1], states[i]);
    }
  }

  lemma StepKeepsNoneStale(cfg: Setting, s: System, a: Action, s': System)
    requires NoCollision(cfg) && Inv(cfg, s) && NoneStale(cfg, s) && Next(cfg, s, a, s') && !a.Delete?
    ensures NoneStale(cfg, s')
    ensures forall r :: r in cfg.requests && BaseOf(cfg, r) in s.files ==> BaseOf(cfg, r) in s'.files
  {
    hide Advance, PhaseOk, BaseOf;
    if a.Run? {
      forall r | r in cfg.requests
        ensures BaseOf(cfg, r) in s.files ==> BaseOf(cfg, r) in s'.files
      {
        AdvanceKeepsBasePaths(cfg, s.files, s.procs[a.id], a.choice, r);
      }
      AdvanceKeepsBasePaths(cfg, s.files, s.procs[a.id], a.choice, s.procs[a.id].req);
    }
  }

  /** Creators never remove one another's base disks: once a base path exists it stays, as
      long as nothing else deletes files. */
  lemma {:induction false} BasesStay(cfg: Setting, states: seq<System>, actions: seq<Action>, i: nat, j: nat, r: Request)
    requires NoCollision(cfg) && IsRun(cfg, states, actions) && NothingDeleted(actions)
    requires i <= j < |states| && r in cfg.requests && BaseOf(cfg, r) in states[i].files
    ensures BaseOf(cfg, r) in states[j].files
    decreases j - i
  {
    hide BaseOf, Inv;
    if i < j {
      NoDeletionNoStale(cfg, states, actions, i);
      ReachableInv(cfg, states, actions, i);
      StepKeepsNoneStale(cfg, states[i], actions[i], states[i + 1]);
      BasesStay(cfg, states, actions, i + 1, j, r);
    }
  }

  // ---- A temporary file that disappears -------------------------------------------

  /** A creator whose temporary file was deleted by somebody else after it was created, or
      that has come to its end without serving. Unfinished disks have base-disk names, so
      prune is such a somebody. */
  predicate Doomed(files: Files, pc: Pc) {
    match pc
    case InToDisk(t, phase) => t !in files && (phase.Installing? || phase.StampingHash? || phase.StampingDigest?)
    case Verify(t) => t !in files
    case Persist(t) => t !in files
    case DropTemp(t) => t !in files
    case Errored => true
    case Crashed => true
    case _ => false
  }

  lemma DoomedStep(cfg: Setting, files: Files, p: Proc, c: Choice)
    requires Doomed(files, p.pc)
    ensures Advance(cfg, files, p, c).0 == files && Doomed(files, Advance(cfg, files, p, c).1)
  {
    hide NormalizeSource, Key;
    if p.pc.DropTemp? {
      assert files - {p.pc.temp} == files;
    } else if p.pc.InToDisk? && c.event.Fails? {
      assert files - {p.pc.temp} == files;
    }
  }

  lemma NextKeepsDoomed(cfg: Setting, s: System, a: Action, s': System, id: nat)
    requires NoCollision(cfg) && Inv(cfg, s) && Next(cfg, s, a, s')
    requires id in s.procs && Doomed(s.files, s.procs[id].pc)
    ensures id in s'.procs && Doomed(s'.files, s'.procs[id].pc)
    ensures a.Run? && a.id == id ==> s'.files == s.files
  {
    hide Advance, PhaseOk, NormalizeSource, NewTemp, BaseOf;
    if a.Run? {
      var p := s.procs[a.id];
      if a.id == id {
        DoomedStep(cfg, s.files, p, a.choice);
      } else if Temp(s.procs[id].pc).Some? {
        BaseIsShort(cfg, p.req);
        AdvanceFrame(cfg, s.files, p, a.choice, Temp(s.procs[id].pc).value);
      }
    }
  }

  /** When the temporary file of a creator is deleted once it was created, the creator never
      returns a base disk and never touches the pool again, whatever the others do. */
  lemma {:induction false} LostTempNeverServed(
    cfg: Setting, states: seq<System>, actions: seq<Action>, i: nat, j: nat, id: nat)
    requires NoCollision(cfg) && IsRun(cfg, states, actions) && i <= j < |states|
    requires id in states[i].procs && Doomed(states[i].files, states[i].procs[id].pc)
    ensures id in states[j].procs && Doomed(states[j].files, states[j].procs[id].pc)
    ensures !states[j].procs[id].pc.Returned?
    ensures j < |actions| && actions[j].Run? && actions[j].id == id ==> states[j + 1].files == states[j].files
    decreases j - i
  {
    hide Inv, Next, Doomed;
    if i < j {
      LostTempNeverServed(cfg, states, actions, i, j - 1, id);
      ReachableInv(cfg, states, actions, j - 1);
      NextKeepsDoomed(cfg, states[j - 1], actions[j - 1], states[j], id);
    }
    ReachableInv(cfg, states, actions, j);
    if j < |actions| {
      NextKeepsDoomed(cfg, states[j], actions[j], states[j + 1], id);
    }
    DoomedIsNotReturned(states[j].files, states[j].procs[id].pc);
  }

  lemma DoomedIsNotReturned(files: Files, pc: Pc)
    ensures Doomed(files, pc) ==> !pc.Returned?
  {
  }

  // ---- A creator left alone -------------------------------------------------------

  /** A process that takes `n` steps in a row, none of which fails. */
  function Solo(cfg: Setting, files: Files, p: Proc, suffix: string, n: nat): (Files, Proc)
    decreases n
  {
    if n == 0 then (files, p)
    else
      var (files', pc') := Advance(cfg, files, p, Choice(Works, suffix));
      Solo(cfg, files', p.(pc := pc'), suffix, n - 1)
  }

  function FinishedBase(r: Request): DiskFile {
    StampDigest(StampHash(EMPTY_FILE.(content := Installed(Key(r))), Key(r)), Key(r))
  }

  lemma SoloStep(cfg: Setting, files: Files, p: Proc, suffix: string, n: nat, files': Files, pc': Pc)
    requires n > 0 && Advance(cfg, files, p, Choice(Works, suffix)) == (files', pc')
    ensures Solo(cfg, files, p, suffix, n) == Solo(cfg, files', p.(pc := pc'), suffix, n - 1)
  {
  }

  lemma SoloBegin(cfg: Setting, files: Files, r: Request, suffix: string)
    requires PlainSource(r) && NewTemp(cfg, r, Choice(Works, suffix)) !in files
    ensures var t := NewTemp(cfg, r, Choice(Works, suffix));
            Solo(cfg, files, Proc(r, MakeTemp), suffix, 10)
            == Solo(cfg, files[t := EMPTY_FILE], Proc(r, InToDisk(t, Installing)), suffix, 5)
  {
    hide NormalizeSource;
    var t := NewTemp(cfg, r, Choice(Works, suffix));
    var made := files[t := EMPTY_FILE];
    SoloStep(cfg, files, Proc(r, MakeTemp), suffix, 10, made, InToDisk(t, Begin));
    SoloStep(cfg, made, Proc(r, InToDisk(t, Begin)), suffix, 9, made, InToDisk(t, Checking));
    SoloStep(cfg, made, Proc(r, InToDisk(t, Checking)), suffix, 8, made, InToDisk(t, Removing));
    assert made - {t} == files;
    SoloStep(cfg, made, Proc(r, InToDisk(t, Removing)), suffix, 7, files, InToDisk(t, Creating));
    SoloStep(cfg, files, Proc(r, InToDisk(t, Creating)), suffix, 6, made, InToDisk(t, Installing));
  }

  lemma SoloStamp(cfg: Setting, files: Files, r: Request, suffix: string, t: string)
    requires PlainSource(r)
    ensures Solo(cfg, files[t := EMPTY_FILE], Proc(r, InToDisk(t, Installing)), suffix, 5)
            == Solo(cfg, files[t := FinishedBase(r)], Proc(r, Verify(t)), suffix, 2)
  {
    hide NormalizeSource;
    var f5 := EMPTY_FILE.(content := Installed(Key(r)));
    var f6 := StampHash(f5, Key(r));
    assert Wanted(TempJob(r, t)) == Pulled(TempJob(r, t)) == Stamped(TempJob(r, t)) == Key(r);
    assert files[t := EMPTY_FILE][t := f5] == files[t := f5];
    SoloStep(cfg, files[t := EMPTY_FILE], Proc(r, InToDisk(t, Installing)), suffix, 5, files[t := f5], InToDisk(t, StampingHash));
    assert files[t := f5][t := f6] == files[t := f6];
    SoloStep(cfg, files[t := f5], Proc(r, InToDisk(t, StampingHash)), suffix, 4, files[t := f6], InToDisk(t, StampingDigest));
    assert files[t := f6][t := FinishedBase(r)] == files[t := FinishedBase(r)];
    SoloStep(cfg, files[t := f6], Proc(r, InToDisk(t, StampingDigest)), suffix, 3, files[t := FinishedBase(r)], Verify(t));
  }

  /** From the moment it makes its temporary file, an undisturbed creator of a plain source
      puts the finished disk in place and leaves nothing else behind. */
  lemma SoloInstall(cfg: Setting, files: Files, r: Request, suffix: string)
    requires FixedLength(cfg) && PlainSource(r)
    requires NewTemp(cfg, r, Choice(Works, suffix)) !in files
    ensures Solo(cfg, files, Proc(r, MakeTemp), suffix, 10)
            == (files[BaseOf(cfg, r) := FinishedBase(r)], Proc(r, Returned))
  {
    hide NormalizeSource;
    var base, t := BaseOf(cfg, r), NewTemp(cfg, r, Choice(Works, suffix));
    TempIsNoBase(cfg.short(ComputeCacheHash(Key(r))), suffix, cfg.short(ComputeCacheHash(Key(r))));
    SoloBegin(cfg, files, r, suffix);
    SoloStamp(cfg, files, r, suffix, t);
    SoloFinish(cfg, files[t := FinishedBase(r)], r, suffix, t);
    assert (files[t := FinishedBase(r)] - {t})[base := FinishedBase(r)] == files[base := FinishedBase(r)];
  }

  lemma SoloFinish(cfg: Setting, files: Files, r: Request, suffix: string, t: string)
    requires PlainSource(r) && t in files && files[t] == FinishedBase(r)
    ensures Solo(cfg, files, Proc(r, Verify(t)), suffix, 2)
            == ((files - {t})[BaseOf(cfg, r) := FinishedBase(r)], Proc(r, Returned))
  {
  }

  /** Left alone, a request with a plain source is served. */
  lemma PlainSourceServed(cfg: Setting, files: Files, r: Request, suffix: string)
    requires FixedLength(cfg) && PlainSource(r) && BaseOf(cfg, r) !in files
    requires NewTemp(cfg, r, Choice(Works, suffix)) !in files
    ensures Solo(cfg, files, Proc(r, Start), suffix, 11)
            == (files[BaseOf(cfg, r) := FinishedBase(r)], Proc(r, Returned))
  {
    hide NormalizeSource;
    SoloStep(cfg, files, Proc(r, Start), suffix, 11, files, MakeTemp);
    SoloInstall(cfg, files, r, suffix);
  }

  /** Why short hashes must not collide: a request with other inputs but the same base path
      takes the finished disk of the first request away and puts its own there. */
  lemma CollisionReplacesBase(cfg: Setting, files: Files, first: Request, r: Request, suffix: string)
    requires FixedLength(cfg) && PlainSource(r)
    requires BaseOf(cfg, r) == BaseOf(cfg, first) && Key(r) != Key(first)
    requires BaseOf(cfg, first) in files && files[BaseOf(cfg, first)] == FinishedBase(first)
    requires NewTemp(cfg, r, Choice(Works, suffix)) !in files
    ensures Solo(cfg, files, Proc(r, Start), suffix, 13)
            == (files[BaseOf(cfg, first) := FinishedBase(r)], Proc(r, Returned))
    ensures FinishedBase(r).content != Installed(Key(first))
  {
    hide NormalizeSource;
    var base := BaseOf(cfg, r);
    SoloStep(cfg, files, Proc(r, Start), suffix, 13, files, CheckBase);
    SoloStep(cfg, files, Proc(r, CheckBase), suffix, 12, files, RemoveStale);
    SoloStep(cfg, files, Proc(r, RemoveStale), suffix, 11, files - {base}, MakeTemp);
    SoloInstall(cfg, files - {base}, r, suffix);
    assert (files - {base})[base := FinishedBase(r)] == files[base := FinishedBase(r)];
  }
}
