/** The storage pool as one command after another changes it: creating base disks, cloning
    them for VMs, pruning, and removing VMs. */
module StoragePool {
  import opened Wrappers
  import opened Text
  import opened CacheMetadata
  import opened DiskNames
  import opened ToDisk
  import opened BaseDiskCreators

  // ---- References -----------------------------------------------------------------

  /** The path libvirt records in a disk that is backed by a volume of the pool. */
  function BackingPath(dir: string, base: string): string {
    dir + "/" + base
  }

  predicate BackedBy(dir: string, f: DiskFile, base: string) {
    f.backing == Some(BackingPath(dir, base))
  }

  /** A disk with a backing file is a VM volume, and its base disk is in the pool. */
  ghost predicate RefOk(dir: string, files: Files, n: string)
    requires n in files
  {
    files[n].backing.Some? ==>
      IsVmVolume(n) && exists b :: IsBaseName(b) && b in files && BackedBy(dir, files[n], b)
  }

  /** Every VM disk's base disk exists. */
  ghost predicate RefsIntact(dir: string, files: Files) {
    forall n :: n in files ==> RefOk(dir, files, n)
  }

  lemma BackingPathInjective(dir: string, a: string, b: string)
    requires BackingPath(dir, a) == BackingPath(dir, b)
    ensures a == b
  {
    assert a == BackingPath(dir, a)[|dir| + 1..];
    assert b == BackingPath(dir, b)[|dir| + 1..];
  }

  /** Deleting files that back nothing breaks no reference. */
  lemma DeletionKeepsRefs(dir: string, files: Files, gone: set<string>)
    requires RefsIntact(dir, files)
    requires forall n, b :: n in files && n !in gone && b in gone ==> !BackedBy(dir, files[n], b)
    ensures RefsIntact(dir, files - gone)
  {
  }

  /** Deleting one base disk breaks a reference exactly when some disk is backed by it. */
  lemma BaseRemovalExact(dir: string, files: Files, base: string)
    requires RefsIntact(dir, files) && IsBaseName(base)
    ensures RefsIntact(dir, files - {base}) <==> forall n :: n in files ==> !BackedBy(dir, files[n], base)
  {
    if forall n :: n in files ==> !BackedBy(dir, files[n], base) {
      DeletionKeepsRefs(dir, files, {base});
    } else {
      var n :| n in files && BackedBy(dir, files[n], base);
      assert RefOk(dir, files, n);
      assert n != base;
      var files' := files - {base};
      if RefOk(dir, files', n) {
        var b :| IsBaseName(b) && b in files' && BackedBy(dir, files'[n], b);
        BackingPathInjective(dir, b, base);
      }
    }
  }

  lemma ReplacementKeepsRefs(dir: string, files: Files, name: string, f: DiskFile)
    requires RefsIntact(dir, files) && f.backing.None?
    ensures RefsIntact(dir, files[name := f])
  {
  }

  /** What pruning asks of each base disk: some scanned volume cannot be read, or records a
      backing path that contains the name of the base disk. */
  predicate MentionedBy(files: Files, unreadable: set<string>, volume: string, base: string)
    requires volume in files
  {
    volume in unreadable || (files[volume].backing.Some? && Contains(files[volume].backing.value, base))
  }

  ghost predicate Mentioned(files: Files, unreadable: set<string>, base: string) {
    exists v :: v in files && IsVmVolume(v) && MentionedBy(files, unreadable, v, base)
  }

  /** A disk that is backed by a base disk mentions it. */
  lemma BackedIsMentioned(dir: string, files: Files, unreadable: set<string>, n: string, base: string)
    requires RefsIntact(dir, files) && n in files && BackedBy(dir, files[n], base)
    ensures Mentioned(files, unreadable, base)
  {
    assert RefOk(dir, files, n);
    assert BackingPath(dir, base) == (dir + "/") + base + "";
    ContainsMiddle(dir + "/", base, "");
    assert MentionedBy(files, unreadable, n, base);
  }

  ghost predicate Prunable(files: Files, unreadable: set<string>, base: string) {
    base in files && IsBaseName(base) && !Mentioned(files, unreadable, base)
  }

  lemma PruningKeepsRefs(dir: string, files: Files, unreadable: set<string>, gone: set<string>)
    requires RefsIntact(dir, files)
    requires forall b :: b in gone ==> Prunable(files, unreadable, b)
    ensures RefsIntact(dir, files - gone)
  {
    forall n, b | n in files && n !in gone && b in gone
      ensures !BackedBy(dir, files[n], b)
    {
      if BackedBy(dir, files[n], b) {
        BackedIsMentioned(dir, files, unreadable, n, b);
      }
    }
    DeletionKeepsRefs(dir, files, gone);
  }

  /** The listed reference count of a base disk: readable volumes that mention it. */
  function ReferenceCount(files: Files, unreadable: set<string>, volumes: seq<string>, base: string): (count: nat)
    requires forall v :: v in volumes ==> v in files
    ensures count <= |volumes|
  {
    if volumes == [] then 0
    else
      (if volumes[0] !in unreadable && MentionedBy(files, unreadable, volumes[0], base) then 1 else 0)
      + ReferenceCount(files, unreadable, volumes[1..], base)
  }

  /** A base disk is left by prune if its count is positive; with every volume readable, it
      is left only then. */
  lemma {:induction false} CountAgreesWithPrune(files: Files, unreadable: set<string>, volumes: seq<string>, base: string)
    requires forall v :: v in volumes ==> v in files
    ensures ReferenceCount(files, unreadable, volumes, base) > 0
        ==> exists v :: v in volumes && MentionedBy(files, unreadable, v, base)
    ensures (forall v :: v in volumes ==> v !in unreadable) && ReferenceCount(files, unreadable, volumes, base) == 0
        ==> forall v :: v in volumes ==> !MentionedBy(files, unreadable, v, base)
  {
    if volumes != [] {
      CountAgreesWithPrune(files, unreadable, volumes[1..], base);
      assert volumes[0] in volumes;
      assert forall v :: v in volumes[1..] ==> v in volumes;
      assert forall v :: v in volumes ==> v == volumes[0] || v in volumes[1..];
    }
  }
}
