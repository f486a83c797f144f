/** File names in the storage pool. */
module DiskNames {
  import opened Text

  const BASE_PREFIX := "bootc-base-"
  const QCOW2_SUFFIX := ".qcow2"
  const RAW_SUFFIX := ".raw"
  const TEMP_SUFFIX := ".tmp" + QCOW2_SUFFIX

  /** A cache hash is shortened to this many hexadecimal digits in a file name. */
  const SHORT_HASH_LENGTH := 16

  function BaseName(short: string): string {
    BASE_PREFIX + short + QCOW2_SUFFIX
  }

  /** The name of a base disk still being written; `suffix` is drawn at random. */
  function TempName(short: string, suffix: string): string {
    BASE_PREFIX + short + "." + suffix + TEMP_SUFFIX
  }

  function VmDiskName(vm: string): string {
    vm + QCOW2_SUFFIX
  }

  /** The names that listing and pruning treat as base disks. */
  predicate IsBaseName(name: string) {
    StartsWith(name, BASE_PREFIX) && EndsWith(name, QCOW2_SUFFIX)
  }

  /** The names scanned for references to base disks. */
  predicate IsVmVolume(name: string) {
    (EndsWith(name, RAW_SUFFIX) || EndsWith(name, QCOW2_SUFFIX)) && !StartsWith(name, BASE_PREFIX)
  }

  lemma BaseNameInjective(a: string, b: string)
    requires |a| == |b| && BaseName(a) == BaseName(b)
    ensures a == b
  {
    assert a == BaseName(a)[|BASE_PREFIX|..|BASE_PREFIX| + |a|];
    assert b == BaseName(b)[|BASE_PREFIX|..|BASE_PREFIX| + |b|];
  }

  lemma TempIsNoBase(a: string, suffix: string, b: string)
    requires |a| == |b|
    ensures |TempName(a, suffix)| > |BaseName(b)|
    ensures TempName(a, suffix) != BaseName(b)
  {
  }
}
