/** The cache key of a bootc disk image: the nine build inputs, the hash over their JSON
    text, and the extended attributes that carry it. */
module CacheMetadata {
  import opened Wrappers
  import opened Text
  import opened CacheJson

  type U32 = n: nat | n < 0x1_0000_0000

  datatype InstallOptions = InstallOptions(
    filesystem: Option<string>,
    rootSize: Option<string>,
    storagePath: Option<string>,
    targetTransport: Option<string>,
    karg: seq<string>,
    composefsBackend: bool,
    bootloader: Option<string>,
    allowMissingFsverity: bool)

  datatype Metadata = Metadata(
    digest: string,
    sourceImgref: string,
    targetTransport: Option<string>,
    filesystem: Option<string>,
    rootSize: Option<string>,
    composefsBackend: bool,
    bootloader: Option<string>,
    kernelArgs: seq<string>,
    version: U32)

  function MetadataFrom(options: InstallOptions, imageDigest: string, sourceImgref: string): Metadata {
    Metadata(imageDigest, sourceImgref, options.targetTransport, options.filesystem,
             options.rootSize, options.composefsBackend, options.bootloader, options.karg, 1)
  }

  // ---- The hashed text ------------------------------------------------------------

  datatype FieldKey =
    | ImageDigest
    | SourceImgref
    | TargetTransport
    | Filesystem
    | RootSize
    | ComposefsBackend
    | Bootloader
    | KernelArgs
    | Version

  function KeyName(key: FieldKey): string {
    match key
    case ImageDigest => "image_digest"
    case SourceImgref => "source_imgref"
    case TargetTransport => "target_transport"
    case Filesystem => "filesystem"
    case RootSize => "root_size"
    case ComposefsBackend => "composefs_backend"
    case Bootloader => "bootloader"
    case KernelArgs => "kernel_args"
    case Version => "version"
  }

  /** The key a member name stands for, if any. */
  function KeyNamed(name: string): Option<FieldKey> {
    if name == "image_digest" then Some(ImageDigest)
    else if name == "source_imgref" then Some(SourceImgref)
    else if name == "target_transport" then Some(TargetTransport)
    else if name == "filesystem" then Some(Filesystem)
    else if name == "root_size" then Some(RootSize)
    else if name == "composefs_backend" then Some(ComposefsBackend)
    else if name == "bootloader" then Some(Bootloader)
    else if name == "kernel_args" then Some(KernelArgs)
    else if name == "version" then Some(Version)
    else None
  }

  lemma KeyNameRoundTrip(key: FieldKey)
    ensures KeyNamed(KeyName(key)) == Some(key)
  {
  }

  datatype Field = Field(key: FieldKey, value: Value)

  function OptionalField(key: FieldKey, value: Option<string>): seq<Field> {
    match value
    case None => []
    case Some(text) => [Field(key, JString(text))]
  }

  /** The fields in declaration order; an absent option leaves no field behind. */
  function CacheInputs(m: Metadata): seq<Field> {
    [Field(ImageDigest, JString(m.digest)), Field(SourceImgref, JString(m.sourceImgref))]
    + OptionalField(TargetTransport, m.targetTransport)
    + OptionalField(Filesystem, m.filesystem)
    + OptionalField(RootSize, m.rootSize)
    + [Field(ComposefsBackend, JBool(m.composefsBackend))]
    + OptionalField(Bootloader, m.bootloader)
    + [Field(KernelArgs, JStrings(m.kernelArgs)), Field(Version, JNumber(m.version))]
  }

  function ToMembers(fields: seq<Field>): seq<Member> {
    if fields == [] then []
    else [Member(KeyName(fields[0].key), fields[0].value)] + ToMembers(fields[1..])
  }

  /** Members with unknown names are skipped. */
  function FromMembers(ms: seq<Member>): seq<Field> {
    if ms == [] then []
    else
      (match KeyNamed(ms[0].name)
       case None => []
       case Some(key) => [Field(key, ms[0].value)])
      + FromMembers(ms[1..])
  }

  function Serialize(m: Metadata): string {
    WriteObject(ToMembers(CacheInputs(m)))
  }

  function Lookup(fields: seq<Field>, key: FieldKey): Option<Value> {
    if fields == [] then None
    else if fields[0].key == key then Some(fields[0].value)
    else Lookup(fields[1..], key)
  }

  function LookupText(fields: seq<Field>, key: FieldKey): Option<string> {
    match Lookup(fields, key)
    case Some(JString(text)) => Some(text)
    case _ => None
  }

  /** Reads the nine fields by name; a missing optional field reads as absent. */
  function ReadInputs(fs: seq<Field>): Option<Metadata> {
    match (LookupText(fs, ImageDigest), LookupText(fs, SourceImgref),
           Lookup(fs, ComposefsBackend), Lookup(fs, KernelArgs), Lookup(fs, Version))
    case (Some(digest), Some(imgref), Some(JBool(composefs)), Some(JStrings(kargs)), Some(JNumber(version))) =>
      if version >= 0x1_0000_0000 then None
      else Some(Metadata(digest, imgref,
                         LookupText(fs, TargetTransport), LookupText(fs, Filesystem),
                         LookupText(fs, RootSize), composefs,
                         LookupText(fs, Bootloader), kargs, version))
    case _ => None
  }

  function Deserialize(s: string): Option<Metadata> {
    match ReadObject(s)
    case None => None
    case Some(ms) => ReadInputs(FromMembers(ms))
  }

  lemma {:induction false} MembersRoundTrip(fields: seq<Field>)
    ensures FromMembers(ToMembers(fields)) == fields
  {
    if fields != [] {
      KeyNameRoundTrip(fields[0].key);
      MembersRoundTrip(fields[1..]);
      assert ToMembers(fields)[1..] == ToMembers(fields[1..]);
    }
  }

  lemma {:induction false} LookupAppend(a: seq<Field>, b: seq<Field>, key: FieldKey)
    ensures Lookup(a + b, key) == if Lookup(a, key).Some? then Lookup(a, key) else Lookup(b, key)
  {
    if a == [] {
      assert a + b == b;
    } else {
      assert (a + b)[1..] == a[1..] + b;
      LookupAppend(a[1..], b, key);
    }
  }

  lemma LookupPair(x: Field, y: Field, key: FieldKey)
    ensures Lookup([x, y], key) == if x.key == key then Some(x.value) else if y.key == key then Some(y.value) else None
  {
    assert Lookup([y], key) == if y.key == key then Some(y.value) else None;
    assert [x, y][1..] == [y];
  }

  lemma LookupOptional(k: FieldKey, value: Option<string>, key: FieldKey)
    ensures Lookup(OptionalField(k, value), key)
            == if k == key && value.Some? then Some(JString(value.value)) else None
  {
  }

  function ExpectedValue(m: Metadata, key: FieldKey): Option<Value> {
    match key
    case ImageDigest => Some(JString(m.digest))
    case SourceImgref => Some(JString(m.sourceImgref))
    case TargetTransport => if m.targetTransport.Some? then Some(JString(m.targetTransport.value)) else None
    case Filesystem => if m.filesystem.Some? then Some(JString(m.filesystem.value)) else None
    case RootSize => if m.rootSize.Some? then Some(JString(m.rootSize.value)) else None
    case ComposefsBackend => Some(JBool(m.composefsBackend))
    case Bootloader => if m.bootloader.Some? then Some(JString(m.bootloader.value)) else None
    case KernelArgs => Some(JStrings(m.kernelArgs))
    case Version => Some(JNumber(m.version))
  }

  lemma LookupInInputs(m: Metadata, key: FieldKey)
    ensures Lookup(CacheInputs(m), key) == ExpectedValue(m, key)
  {
    var a := [Field(ImageDigest, JString(m.digest)), Field(SourceImgref, JString(m.sourceImgref))];
    var b := OptionalField(TargetTransport, m.targetTransport);
    var c := OptionalField(Filesystem, m.filesystem);
    var d := OptionalField(RootSize, m.rootSize);
    var e := [Field(ComposefsBackend, JBool(m.composefsBackend))];
    var f := OptionalField(Bootloader, m.bootloader);
    var g := [Field(KernelArgs, JStrings(m.kernelArgs)), Field(Version, JNumber(m.version))];
    LookupPair(Field(ImageDigest, JString(m.digest)), Field(SourceImgref, JString(m.sourceImgref)), key);
    LookupPair(Field(KernelArgs, JStrings(m.kernelArgs)), Field(Version, JNumber(m.version)), key);
    LookupOptional(TargetTransport, m.targetTransport, key);
    LookupOptional(Filesystem, m.filesystem, key);
    LookupOptional(RootSize, m.rootSize, key);
    LookupOptional(Bootloader, m.bootloader, key);
    assert e[1..] == [];
    assert Lookup(e, key) == if key == ComposefsBackend then Some(JBool(m.composefsBackend)) else None;
    hide Lookup, OptionalField;
    LookupAppend(a + b + c + d + e + f, g, key);
    LookupAppend(a + b + c + d + e, f, key);
    LookupAppend(a + b + c + d, e, key);
    LookupAppend(a + b + c, d, key);
    LookupAppend(a + b, c, key);
    LookupAppend(a, b, key);
  }

  lemma ReadInputsOfInputs(m: Metadata)
    ensures ReadInputs(CacheInputs(m)) == Some(m)
  {
    hide CacheInputs;
    forall key {
      LookupInInputs(m, key);
    }
  }

  /** The hashed text determines all nine inputs. */
  lemma SerializeRoundTrip(m: Metadata)
    ensures Deserialize(Serialize(m)) == Some(m)
  {
    ReadWrittenObject(ToMembers(CacheInputs(m)));
    MembersRoundTrip(CacheInputs(m));
    ReadInputsOfInputs(m);
  }

  /** Two requests hash the same text if and only if every keyed input is the same. The
      storage path and the fs-verity switch are not keyed. */
  lemma HashedTextExact(o: InstallOptions, digest: string, imgref: string,
                        o': InstallOptions, digest': string, imgref': string)
    ensures Serialize(MetadataFrom(o, digest, imgref)) == Serialize(MetadataFrom(o', digest', imgref'))
       <==> && digest == digest' && imgref == imgref'
            && o.targetTransport == o'.targetTransport && o.filesystem == o'.filesystem
            && o.rootSize == o'.rootSize && o.composefsBackend == o'.composefsBackend
            && o.bootloader == o'.bootloader && o.karg == o'.karg
  {
    hide Serialize, Deserialize;
    SerializeRoundTrip(MetadataFrom(o, digest, imgref));
    SerializeRoundTrip(MetadataFrom(o', digest', imgref'));
  }

  // ---- The hash -------------------------------------------------------------------

  /** The SHA-256 hash of the text of some inputs. A hash is represented by the inputs whose
      text was hashed; `HashFaithful` shows that this tells hashes apart exactly as their
      hashed texts do, so it is exact for a hash function without collisions. */
  datatype CacheHash = Sha256(inputs: Metadata)

  function HashedText(h: CacheHash): string {
    Serialize(h.inputs)
  }

  function ComputeCacheHash(m: Metadata): CacheHash {
    Sha256(m)
  }

  lemma HashFaithful(g: CacheHash, h: CacheHash)
    ensures g == h <==> HashedText(g) == HashedText(h)
  {
    hide Serialize, Deserialize;
    SerializeRoundTrip(g.inputs);
    SerializeRoundTrip(h.inputs);
  }

  // ---- Disk files and their attributes --------------------------------------------

  /** What a disk image holds: an empty image, a partly written one, or the finished
      installation of some inputs. */
  datatype Content = Blank | Partial | Installed(of: Metadata)

  /** The bytes of the cache-hash attribute. */
  datatype HashAttr = HashText(hash: CacheHash) | OtherText(text: string) | NotUtf8

  datatype DiskFile = DiskFile(
    content: Content,
    cacheHash: Option<HashAttr>,
    imageDigest: Option<string>,
    backing: Option<string>)

  const EMPTY_FILE := DiskFile(Blank, None, None, None)

  function StampHash(f: DiskFile, m: Metadata): DiskFile {
    f.(cacheHash := Some(HashText(ComputeCacheHash(m))))
  }

  function StampDigest(f: DiskFile, m: Metadata): DiskFile {
    f.(imageDigest := Some(m.digest))
  }

  datatype Verdict = Valid | MissingFile | MissingXattr | HashMismatch | ReadError

  /** `check_cached_disk` on a path that holds `file`, or nothing. */
  function CheckCachedDisk(file: Option<DiskFile>, expected: Metadata): Verdict {
    match file
    case None => MissingFile
    case Some(f) =>
      match f.cacheHash
      case None => MissingXattr
      case Some(NotUtf8) => ReadError
      case Some(OtherText(_)) => HashMismatch
      case Some(HashText(h)) => if h == ComputeCacheHash(expected) then Valid else HashMismatch
  }

  /** The key is exact: a stamped disk is accepted if and only if every keyed input of the
      request equals the one it was stamped with, and so if and only if the text hashed for
      the request is the text whose hash is on the disk. */
  lemma CacheKeyExact(f: DiskFile, o: InstallOptions, digest: string, imgref: string,
                      o': InstallOptions, digest': string, imgref': string)
    ensures var stamped := StampHash(f, MetadataFrom(o, digest, imgref));
            var verdict := CheckCachedDisk(Some(stamped), MetadataFrom(o', digest', imgref'));
            && (verdict == Valid <==>
                 && digest == digest' && imgref == imgref'
                 && o.targetTransport == o'.targetTransport && o.filesystem == o'.filesystem
                 && o.rootSize == o'.rootSize && o.composefsBackend == o'.composefsBackend
                 && o.bootloader == o'.bootloader && o.karg == o'.karg)
            && (verdict == Valid <==>
                 HashedText(stamped.cacheHash.value.hash) == Serialize(MetadataFrom(o', digest', imgref')))
  {
    hide Serialize;
    HashedTextExact(o, digest, imgref, o', digest', imgref');
  }

  /** The disk is reused for the inputs `m` and for no others. */
  ghost predicate AcceptsOnly(f: DiskFile, m: Metadata) {
    forall n :: CheckCachedDisk(Some(f), n) == Valid <==> n == m
  }

  /** An open disk image, whose attributes are written one after the other. */
  class OpenDisk {
    var file: DiskFile

    constructor (f: DiskFile)
      ensures file == f
    {
      file := f;
    }

    /** Writes the hash, then the digest; either write may fail, which ends the call.
        A disk that already held a hash keeps it if the first write fails. */
    method WriteToFile(m: Metadata, hashWritten: bool, digestWritten: bool) returns (ok: bool)
      modifies this
      ensures ok == (hashWritten && digestWritten)
      ensures file.content == old(file.content) && file.backing == old(file.backing)
      ensures !hashWritten ==> file == old(file)
      ensures hashWritten ==> AcceptsOnly(file, m)
      ensures file.imageDigest == if ok then Some(m.digest) else old(file.imageDigest)
    {
      if !hashWritten {
        return false;
      }
      file := StampHash(file, m);
      if !digestWritten {
        return false;
      }
      file := StampDigest(file, m);
      return true;
    }
  }
}
