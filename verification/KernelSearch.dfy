/** Finding the kernel in an image: the result does not depend on the order in which
    directories are listed. */
module KernelSearch {
  import opened Wrappers
  import opened Text

  // ---- Directories ----------------------------------------------------------------

  datatype FileType = RegularFile | Directory | OtherType

  /** A directory entry; a name that is not UTF-8 is absent. */
  datatype File = File(name: Option<string>, kind: FileType)

  /** An entry of /boot, with its first eight bytes if it has as many. */
  datatype BootFile = BootFile(name: Option<string>, kind: FileType, header: Option<string>)

  /** An entry of /usr/lib/modules, with what it lists if it is a directory. */
  datatype Version = Version(name: Option<string>, kind: FileType, listing: seq<File>)

  datatype Boot = Boot(files: seq<BootFile>, efiLinux: Option<seq<File>>)

  datatype Root = Root(boot: Option<Boot>, modules: Option<seq<Version>>)

  datatype KernelKind = Traditional | Uki | AndroidBoot

  datatype KernelInfo = KernelInfo(kernelPath: string, initramfsPath: Option<string>, kind: KernelKind)

  datatype SearchError = BadAboot(name: string) | TooMany(paths: seq<string>)

  // ---- Names ----------------------------------------------------------------------

  function LastDot(name: string): (i: int)
    ensures -1 <= i < |name|
  {
    if name == "" then -1 else if name[|name| - 1] == '.' then |name| - 1 else LastDot(name[..|name| - 1])
  }

  /** `Path::extension`: a leading dot starts no extension. */
  predicate IsUkiName(name: string) {
    LastDot(name) > 0 && name[LastDot(name) + 1..] == "efi"
  }

  /** `aboot-<version>.img`, the version not empty. */
  predicate IsAbootName(name: string) {
    var dot := LastDot(name);
    dot > 6 && name[..6] == "aboot-" && name[dot + 1..] == "img"
  }

  // ---- The finders ----------------------------------------------------------------

  /** The results for the entries of a listing, one after the other. */
  function Flat<A, B>(s: seq<A>, g: A -> seq<B>): seq<B> {
    if s == [] then [] else Flat(s[..|s| - 1], g) + g(s[|s| - 1])
  }

  predicate IsAboot(f: BootFile) {
    f.kind.RegularFile? && f.name.Some? && IsAbootName(f.name.value)
  }

  /** The format in an aboot artifact's first bytes. */
  function AbootKind(header: Option<string>): Option<KernelKind> {
    if header.None? then None
    else if header.value == "ANDROID!" then Some(AndroidBoot)
    else if StartsWith(header.value, "MZ") then Some(Uki)
    else None
  }

  predicate IsBadAboot(f: BootFile) {
    IsAboot(f) && AbootKind(f.header).None?
  }

  function AbootOf(f: BootFile): seq<KernelInfo> {
    if !IsAboot(f) || AbootKind(f.header).None? then []
    else [KernelInfo("boot/" + f.name.value, None, AbootKind(f.header).value)]
  }

  function BootFiles(root: Root): seq<BootFile> {
    if root.boot.None? then [] else root.boot.value.files
  }

  function EfiFiles(root: Root): seq<File> {
    if root.boot.None? || root.boot.value.efiLinux.None? then [] else root.boot.value.efiLinux.value
  }

  function Versions(root: Root): seq<Version> {
    if root.modules.None? then [] else root.modules.value
  }

  predicate HasBadAboot(files: seq<BootFile>) {
    exists f :: f in files && IsBadAboot(f)
  }

  function EspUki(f: File): seq<KernelInfo> {
    if f.name.Some? && IsUkiName(f.name.value) then [KernelInfo("boot/EFI/Linux/" + f.name.value, None, Uki)] else []
  }

  function VersionUki(version: string, f: File): seq<KernelInfo> {
    if f.name.Some? && IsUkiName(f.name.value) && f.kind.RegularFile?
    then [KernelInfo("usr/lib/modules/" + version + "/" + f.name.value, None, Uki)]
    else []
  }

  predicate IsVersion(v: Version) {
    v.kind.Directory? && v.name.Some?
  }

  function VersionUkis(v: Version): seq<KernelInfo> {
    if IsVersion(v) then Flat(v.listing, f => VersionUki(v.name.value, f)) else []
  }

  predicate Holds(listing: seq<File>, name: string) {
    exists f :: f in listing && f.name == Some(name)
  }

  function VersionKernel(v: Version): seq<KernelInfo> {
    if IsVersion(v) && Holds(v.listing, "vmlinuz") && Holds(v.listing, "initramfs.img") then
      var dir := "usr/lib/modules/" + v.name.value;
      [KernelInfo(dir + "/vmlinuz", Some(dir + "/initramfs.img"), Traditional)]
    else []
  }

  // ---- The search -----------------------------------------------------------------

  /** What is found, the preferred kinds first. */
  function Tiers(root: Root): (tiers: seq<seq<KernelInfo>>)
    ensures |tiers| == 3
  {
    [Flat(BootFiles(root), AbootOf),
     Flat(EfiFiles(root), EspUki) + Flat(Versions(root), VersionUkis),
     Flat(Versions(root), VersionKernel)]
  }

  function Paths(kernels: seq<KernelInfo>): seq<string> {
    seq(|kernels|, i requires 0 <= i < |kernels| => kernels[i].kernelPath)
  }

  function Pick(kernels: seq<KernelInfo>): Result<Option<KernelInfo>, SearchError> {
    if kernels == [] then Ok(None)
    else if |kernels| == 1 then Ok(Some(kernels[0]))
    else Err(TooMany(Paths(kernels)))
  }

  /** The artifact that ends the search early, if one does: the first bad one listed. */
  function FirstBad(files: seq<BootFile>): (r: Option<string>)
    ensures r.Some? <==> HasBadAboot(files)
  {
    if files == [] then None
    else
      var before := FirstBad(files[..|files| - 1]);
      var last := files[|files| - 1];
      assert files == files[..|files| - 1] + [last];
      if before.Some? then before else if IsBadAboot(last) then Some(last.name.value) else None
  }

  function Search(root: Root): Result<Option<KernelInfo>, SearchError> {
    var bad := FirstBad(BootFiles(root));
    var tiers := Tiers(root);
    if bad.Some? then Err(BadAboot(bad.value))
    else if tiers[0] != [] then Pick(tiers[0])
    else if tiers[1] != [] then Pick(tiers[1])
    else Pick(tiers[2])
  }

  lemma {:induction false} FirstBadStays(files: seq<BootFile>, n: nat)
    requires n <= |files| && FirstBad(files[..n]).Some?
    ensures FirstBad(files) == FirstBad(files[..n])
  {
    if n == |files| {
      assert files[..n] == files;
    } else {
      assert files[..|files| - 1][..n] == files[..n];
      FirstBadStays(files[..|files| - 1], n);
    }
  }

  method FindAbootArtifacts(files: seq<BootFile>) returns (r: Result<seq<KernelInfo>, SearchError>)
    ensures FirstBad(files).Some? ==> r == Err(BadAboot(FirstBad(files).value))
    ensures FirstBad(files).None? ==> r == Ok(Flat(files, AbootOf))
  {
    var artifacts: seq<KernelInfo> := [];
    assert files[..|files|] == files;
    for i := 0 to |files|
      invariant FirstBad(files[..i]).None? && artifacts == Flat(files[..i], AbootOf)
    {
      var f := files[i];
      assert files[..i + 1][..i] == files[..i];
      if !IsAboot(f) {
        continue;
      }
      var kind := AbootKind(f.header);
      if kind.None? {
        FirstBadStays(files, i + 1);
        return Err(BadAboot(f.name.value));
      }
      artifacts := artifacts + [KernelInfo("boot/" + f.name.value, None, kind.value)];
    }
    r := Ok(artifacts);
  }

  method FindUkisInEsp(listing: seq<File>) returns (ukis: seq<KernelInfo>)
    ensures ukis == Flat(listing, EspUki)
  {
    ukis := [];
    assert listing[..|listing|] == listing;
    for i := 0 to |listing|
      invariant ukis == Flat(listing[..i], EspUki)
    {
      assert listing[..i + 1][..i] == listing[..i];
      ukis := ukis + EspUki(listing[i]);
    }
  }

  method FindUkisInModules(versions: seq<Version>) returns (ukis: seq<KernelInfo>)
    ensures ukis == Flat(versions, VersionUkis)
  {
    ukis := [];
    assert versions[..|versions|] == versions;
    for i := 0 to |versions|
      invariant ukis == Flat(versions[..i], VersionUkis)
    {
      assert versions[..i + 1][..i] == versions[..i];
      var v := versions[i];
      if IsVersion(v) {
        var listing, before := v.listing, ukis;
        var g := f => VersionUki(v.name.value, f);
        assert listing[..|listing|] == listing;
        for j := 0 to |listing|
          invariant ukis == before + Flat(listing[..j], g)
        {
          assert listing[..j + 1][..j] == listing[..j];
          ukis := ukis + VersionUki(v.name.value, listing[j]);
        }
        assert VersionUkis(v) == Flat(listing, g);
      }
    }
  }

  method FindTraditionalKernels(versions: seq<Version>) returns (kernels: seq<KernelInfo>)
    ensures kernels == Flat(versions, VersionKernel)
  {
    kernels := [];
    assert versions[..|versions|] == versions;
    for i := 0 to |versions|
      invariant kernels == Flat(versions[..i], VersionKernel)
    {
      assert versions[..i + 1][..i] == versions[..i];
      kernels := kernels + VersionKernel(versions[i]);
    }
  }

  /** The kernel of an image: an error as soon as an artifact cannot be read or the best
      kind is there more than once. */
  method FindKernel(root: Root) returns (r: Result<Option<KernelInfo>, SearchError>)
    ensures r == Search(root)
  {
    var aboot := FindAbootArtifacts(BootFiles(root));
    if aboot.Err? {
      return Err(aboot.error);
    }
    if |aboot.value| == 1 {
      return Ok(Some(aboot.value[0]));
    }
    if |aboot.value| > 1 {
      return Err(TooMany(Paths(aboot.value)));
    }
    var inEsp := FindUkisInEsp(EfiFiles(root));
    var inModules := FindUkisInModules(Versions(root));
    var ukis := inEsp + inModules;
    if ukis != [] {
      return if |ukis| == 1 then Ok(Some(ukis[0])) else Err(TooMany(Paths(ukis)));
    }
    var traditional := FindTraditionalKernels(Versions(root));
    r := Pick(traditional);
  }

  // ---- Order does not matter ------------------------------------------------------

  lemma {:induction false} FlatAppend<A, B>(a: seq<A>, b: seq<A>, g: A -> seq<B>)
    ensures Flat(a + b, g) == Flat(a, g) + Flat(b, g)
  {
    if b == [] {
      assert a + b == a;
    } else {
      assert (a + b)[..|a + b| - 1] == a + b[..|b| - 1];
      FlatAppend(a, b[..|b| - 1], g);
    }
  }

  lemma {:induction false} FlatPermuted<A, B>(a: seq<A>, b: seq<A>, g: A -> seq<B>)
    requires multiset(a) == multiset(b)
    ensures multiset(Flat(a, g)) == multiset(Flat(b, g))
    decreases |a|
  {
    if a == [] {
      assert |b| == |multiset(b)| == 0;
    } else {
      var before, x := a[..|a| - 1], a[|a| - 1];
      assert a == before + [x];
      assert x in multiset(b);
      var i :| 0 <= i < |b| && b[i] == x;
      assert b == b[..i] + [x] + b[i + 1..];
      RemoveOne(before, x, b[..i], b[i + 1..]);
      hide Flat;
      FlatPermuted(before, b[..i] + b[i + 1..], g);
      FlatAppend(b[..i], b[i + 1..], g);
      FlatAppend(b[..i] + [x], b[i + 1..], g);
      FlatOne(b[..i], x, g);
      FlatOne(before, x, g);
    }
  }

  lemma RemoveOne<A>(a: seq<A>, x: A, b: seq<A>, c: seq<A>)
    requires multiset(a + [x]) == multiset(b + [x] + c)
    ensures multiset(a) == multiset(b + c)
  {
    assert multiset(a) + multiset{x} == multiset(b) + multiset{x} + multiset(c);
    assert multiset(b + c) == multiset(b) + multiset(c);
    assert multiset(a) == multiset(a) + multiset{x} - multiset{x};
  }

  lemma FlatOne<A, B>(a: seq<A>, x: A, g: A -> seq<B>)
    ensures Flat(a + [x], g) == Flat(a, g) + g(x)
  {
  }

  /** The same versions, each listing its files in any order. */
  predicate Relisted(a: seq<Version>, b: seq<Version>) {
    |a| == |b| && forall i :: 0 <= i < |a| ==>
      a[i].name == b[i].name && a[i].kind == b[i].kind && multiset(a[i].listing) == multiset(b[i].listing)
  }

  /** The same directories, listed in any order at both levels. */
  ghost predicate SameVersions(a: seq<Version>, b: seq<Version>) {
    exists c :: multiset(a) == multiset(c) && Relisted(c, b)
  }

  ghost predicate SameUpToOrder(a: Root, b: Root) {
    && multiset(BootFiles(a)) == multiset(BootFiles(b))
    && multiset(EfiFiles(a)) == multiset(EfiFiles(b))
    && SameVersions(Versions(a), Versions(b))
  }

  lemma SameMembers<T>(a: seq<T>, b: seq<T>)
    requires multiset(a) == multiset(b)
    ensures |a| == |b| && forall x :: x in a <==> x in b
  {
    assert |a| == |multiset(a)| == |multiset(b)| == |b|;
    forall x
      ensures x in a <==> x in b
    {
      assert x in a <==> x in multiset(a);
    }
  }

  lemma {:induction false} FlatRelisted(a: seq<Version>, b: seq<Version>)
    requires Relisted(a, b)
    ensures multiset(Flat(a, VersionUkis)) == multiset(Flat(b, VersionUkis))
    ensures Flat(a, VersionKernel) == Flat(b, VersionKernel)
  {
    if a != [] {
      var n := |a| - 1;
      FlatRelisted(a[..n], b[..n]);
      VersionRelisted(a[n], b[n]);
    }
  }

  lemma VersionRelisted(v: Version, w: Version)
    requires v.name == w.name && v.kind == w.kind && multiset(v.listing) == multiset(w.listing)
    ensures multiset(VersionUkis(v)) == multiset(VersionUkis(w)) && VersionKernel(v) == VersionKernel(w)
  {
    SameMembers(v.listing, w.listing);
    if IsVersion(v) {
      var g := f => VersionUki(v.name.value, f);
      assert VersionUkis(v) == Flat(v.listing, g);
      assert VersionUkis(w) == Flat(w.listing, g);
      FlatPermuted(v.listing, w.listing, g);
    }
  }

  /** Each tier holds the same kernels. */
  lemma TiersPermuted(a: Root, b: Root)
    requires SameUpToOrder(a, b)
    ensures forall i :: 0 <= i < 3 ==> multiset(Tiers(a)[i]) == multiset(Tiers(b)[i])
  {
    hide Flat;
    var c :| multiset(Versions(a)) == multiset(c) && Relisted(c, Versions(b));
    FlatPermuted(BootFiles(a), BootFiles(b), AbootOf);
    FlatPermuted(EfiFiles(a), EfiFiles(b), EspUki);
    FlatPermuted(Versions(a), c, VersionUkis);
    FlatPermuted(Versions(a), c, VersionKernel);
    FlatRelisted(c, Versions(b));
  }

  lemma PickPermuted(a: seq<KernelInfo>, b: seq<KernelInfo>)
    requires multiset(a) == multiset(b)
    ensures |a| == |b|
    ensures if Pick(a).Ok? then Pick(b) == Pick(a) else Pick(b).Err?
  {
    SameMembers(a, b);
    if |a| == 1 {
      assert a[0] in b;
    }
  }

  /** Listing any directory in another order changes neither the kernel found nor whether the
      search fails. */
  lemma OrderIrrelevant(a: Root, b: Root)
    requires SameUpToOrder(a, b)
    ensures if Search(a).Ok? then Search(b) == Search(a) else Search(b).Err?
  {
    TiersPermuted(a, b);
    SameMembers(BootFiles(a), BootFiles(b));
    hide Tiers, Pick, FirstBad;
    forall i | 0 <= i < 3
      ensures |Tiers(a)[i]| == |Tiers(b)[i]|
      ensures if Pick(Tiers(a)[i]).Ok? then Pick(Tiers(b)[i]) == Pick(Tiers(a)[i]) else Pick(Tiers(b)[i]).Err?
    {
      PickPermuted(Tiers(a)[i], Tiers(b)[i]);
    }
  }

  /** A kernel is found exactly when every aboot artifact can be read and the kernel is all
      there is in the best tier that has anything. */
  lemma FoundIsSoleBest(root: Root, k: KernelInfo)
    ensures Search(root) == Ok(Some(k)) <==>
            && !HasBadAboot(BootFiles(root))
            && exists t :: 0 <= t < 3 && Tiers(root)[t] == [k] && forall u :: 0 <= u < t ==> Tiers(root)[u] == []
  {
    var tiers := Tiers(root);
    hide Tiers;
    if Search(root) == Ok(Some(k)) {
      var t := if tiers[0] != [] then 0 else if tiers[1] != [] then 1 else 2;
      assert tiers[t] == [k];
    }
  }

  // ---- What may be found ----------------------------------------------------------

  /** A regular file of /boot named `aboot-<version>.img`, of the kind its first bytes say. */
  ghost predicate AbootEntry(f: BootFile, k: KernelInfo) {
    && f.kind.RegularFile? && f.header.Some?
    && (exists version :: version != "" && f.name == Some("aboot-" + version + ".img"))
    && k.kernelPath == "boot/" + f.name.value && k.initramfsPath.None?
    && match k.kind
       case AndroidBoot => f.header.value == "ANDROID!"
       case Uki => "MZ" <= f.header.value
       case Traditional => false
  }

  /** A file with a stem and the extension `efi`. */
  ghost predicate UkiEntry(f: File, directory: string, k: KernelInfo) {
    && (exists stem :: stem != "" && f.name == Some(stem + ".efi"))
    && k == KernelInfo(directory + f.name.value, None, Uki)
  }

  ghost predicate ModuleUki(v: Version, f: File, k: KernelInfo) {
    && v.kind.Directory? && v.name.Some? && f in v.listing && f.kind.RegularFile?
    && UkiEntry(f, "usr/lib/modules/" + v.name.value + "/", k)
  }

  /** A modules directory that lists a kernel and an initial file system: these two. */
  ghost predicate KernelEntry(v: Version, k: KernelInfo) {
    && v.kind.Directory? && v.name.Some? && k.kind.Traditional?
    && (exists f :: f in v.listing && f.name == Some("vmlinuz"))
    && (exists f :: f in v.listing && f.name == Some("initramfs.img"))
    && k.kernelPath == "usr/lib/modules/" + v.name.value + "/vmlinuz"
    && k.initramfsPath == Some("usr/lib/modules/" + v.name.value + "/initramfs.img")
  }

  ghost predicate IsAbootArtifact(root: Root, k: KernelInfo) {
    exists f :: f in BootFiles(root) && AbootEntry(f, k)
  }

  ghost predicate IsUki(root: Root, k: KernelInfo) {
    || (exists f :: f in EfiFiles(root) && UkiEntry(f, "boot/EFI/Linux/", k))
    || (exists v, f :: v in Versions(root) && f in v.listing && ModuleUki(v, f, k))
  }

  ghost predicate IsKernel(root: Root, k: KernelInfo) {
    exists v :: v in Versions(root) && KernelEntry(v, k)
  }

  lemma {:induction false} LastDotIs(head: string, tail: string)
    requires '.' !in tail
    ensures LastDot(head + "." + tail) == |head|
  {
    var name := head + "." + tail;
    if tail != "" {
      var shorter := tail[..|tail| - 1];
      assert tail[|tail| - 1] in tail && forall c :: c in shorter ==> c in tail;
      assert name[..|name| - 1] == head + "." + shorter;
      LastDotIs(head, shorter);
    }
  }

  lemma {:induction false} LastDotSplits(name: string)
    ensures LastDot(name) >= 0 ==> name == name[..LastDot(name)] + "." + name[LastDot(name) + 1..]
  {
    if name != "" && name[|name| - 1] != '.' {
      var shorter := name[..|name| - 1];
      LastDotSplits(shorter);
      if LastDot(name) >= 0 {
        assert name[LastDot(name)] == shorter[LastDot(name)] == '.';
      }
    }
  }

  lemma UkiNames(name: string)
    ensures IsUkiName(name) <==> exists stem :: stem != "" && name == stem + ".efi"
  {
    UkiNamesOf(name, "efi");
    assert forall stem: string :: stem + ".efi" == stem + "." + "efi";
  }

  lemma UkiNamesOf(name: string, extension: string)
    requires '.' !in extension
    ensures LastDot(name) > 0 && name[LastDot(name) + 1..] == extension <==>
            exists stem :: stem != "" && name == stem + "." + extension
  {
    if LastDot(name) > 0 && name[LastDot(name) + 1..] == extension {
      LastDotSplits(name);
      assert name[..LastDot(name)] != "";
    }
    if stem :| stem != "" && name == stem + "." + extension {
      LastDotIs(stem, extension);
      assert name[|stem| + 1..] == extension;
    }
  }

  lemma AbootNames(name: string)
    ensures IsAbootName(name) <==> exists version :: version != "" && name == "aboot-" + version + ".img"
  {
    AbootNamesOf(name, "aboot-", "img");
    assert forall version: string :: "aboot-" + version + ".img" == "aboot-" + version + "." + "img";
  }

  lemma AbootNamesOf(name: string, prefix: string, extension: string)
    requires '.' !in extension
    ensures LastDot(name) > |prefix| && name[..|prefix|] == prefix && name[LastDot(name) + 1..] == extension <==>
            exists version :: version != "" && name == prefix + version + "." + extension
  {
    var dot := LastDot(name);
    if dot > |prefix| && name[..|prefix|] == prefix && name[dot + 1..] == extension {
      LastDotSplits(name);
      var version := name[|prefix|..dot];
      assert name[..dot] == prefix + version;
      assert version != "" && name == prefix + version + "." + extension;
    }
    if version :| version != "" && name == prefix + version + "." + extension {
      LastDotIs(prefix + version, extension);
      assert name[..|prefix|] == prefix && name[|prefix + version| + 1..] == extension;
    }
  }

  // ---- The tiers by their entries -------------------------------------------------

  lemma {:induction false} FlatMembers<A, B>(s: seq<A>, g: A -> seq<B>, y: B)
    ensures y in Flat(s, g) <==> exists x :: x in s && y in g(x)
  {
    if s != [] {
      FlatMembers(s[..|s| - 1], g, y);
      assert s == s[..|s| - 1] + [s[|s| - 1]];
    }
  }

  /** When one entry alone has results, they are the results. */
  lemma {:induction false} FlatSole<A, B>(s: seq<A>, g: A -> seq<B>, i: nat)
    requires i < |s| && forall j :: 0 <= j < |s| && j != i ==> g(s[j]) == []
    ensures Flat(s, g) == g(s[i])
  {
    var n := |s| - 1;
    if i < n {
      FlatSole(s[..n], g, i);
      assert g(s[n]) == [] && s[..n][i] == s[i];
    } else {
      forall x | x in s[..n]
        ensures g(x) == []
      {
        var j :| 0 <= j < n && s[j] == x;
      }
      FlatNone(s[..n], g);
      assert Flat(s, g) == [] + g(s[n]);
    }
  }

  lemma {:induction false} FlatNone<A, B>(s: seq<A>, g: A -> seq<B>)
    requires forall x :: x in s ==> g(x) == []
    ensures Flat(s, g) == []
  {
    if s != [] {
      FlatNone(s[..|s| - 1], g);
    }
  }

  lemma AbootOfEntry(f: BootFile, k: KernelInfo)
    ensures k in AbootOf(f) <==> AbootEntry(f, k)
  {
    if f.name.Some? {
      AbootNames(f.name.value);
    }
    KindOfHeader(f.header, k.kind);
    hide IsAbootName, AbootKind;
  }

  lemma KindOfHeader(header: Option<string>, kind: KernelKind)
    ensures AbootKind(header) == Some(kind) <==>
            && header.Some?
            && match kind
               case AndroidBoot => header.value == "ANDROID!"
               case Uki => "MZ" <= header.value
               case Traditional => false
  {
    if header.Some? && "MZ" <= header.value {
      assert header.value[0] == 'M';
    }
  }

  /** An aboot artifact that ends the search: named as one, but with other first bytes or too
      few of them. */
  lemma BadAbootExact(files: seq<BootFile>)
    ensures HasBadAboot(files) <==>
            exists f :: f in files && f.kind.RegularFile?
              && (exists version :: version != "" && f.name == Some("aboot-" + version + ".img"))
              && (f.header.None? || !(f.header.value == "ANDROID!" || "MZ" <= f.header.value))
  {
    forall f | f in files
      ensures IsBadAboot(f) <==>
              && f.kind.RegularFile?
              && (exists version :: version != "" && f.name == Some("aboot-" + version + ".img"))
              && (f.header.None? || !(f.header.value == "ANDROID!" || "MZ" <= f.header.value))
    {
      BadAbootEntry(f);
    }
    hide IsBadAboot;
  }

  lemma BadAbootEntry(f: BootFile)
    ensures IsBadAboot(f) <==>
            && f.kind.RegularFile?
            && (exists version :: version != "" && f.name == Some("aboot-" + version + ".img"))
            && (f.header.None? || !(f.header.value == "ANDROID!" || "MZ" <= f.header.value))
  {
    if f.name.Some? {
      AbootNames(f.name.value);
    }
    KindOfHeader(f.header, AndroidBoot);
    KindOfHeader(f.header, Uki);
    KindOfHeader(f.header, Traditional);
    hide IsAbootName, AbootKind;
  }

  lemma EspUkiEntry(f: File, k: KernelInfo)
    ensures k in EspUki(f) <==> UkiEntry(f, "boot/EFI/Linux/", k)
  {
    if f.name.Some? {
      UkiNames(f.name.value);
    }
    hide IsUkiName;
  }

  lemma VersionUkisEntry(v: Version, k: KernelInfo)
    ensures k in VersionUkis(v) <==> exists f :: f in v.listing && ModuleUki(v, f, k)
  {
    if IsVersion(v) {
      var g := f => VersionUki(v.name.value, f);
      assert VersionUkis(v) == Flat(v.listing, g);
      FlatMembers(v.listing, g, k);
      forall f | f in v.listing
        ensures k in g(f) <==> ModuleUki(v, f, k)
      {
        VersionUkiEntry(v, f, k);
      }
    }
  }

  lemma VersionUkiEntry(v: Version, f: File, k: KernelInfo)
    requires IsVersion(v) && f in v.listing
    ensures k in VersionUki(v.name.value, f) <==> ModuleUki(v, f, k)
  {
    if f.name.Some? {
      UkiNames(f.name.value);
    }
    hide IsUkiName;
  }

  lemma VersionKernelEntry(v: Version, k: KernelInfo)
    ensures k in VersionKernel(v) <==> KernelEntry(v, k)
  {
    if IsVersion(v) {
      KernelPaths(v.name.value);
    }
  }

  lemma KernelPaths(version: string)
    ensures var dir := "usr/lib/modules/" + version;
            && dir + "/vmlinuz" == "usr/lib/modules/" + version + "/vmlinuz"
            && dir + "/initramfs.img" == "usr/lib/modules/" + version + "/initramfs.img"
  {
  }

  lemma TierMembers(root: Root, k: KernelInfo)
    ensures k in Tiers(root)[0] <==> IsAbootArtifact(root, k)
    ensures k in Tiers(root)[1] <==> IsUki(root, k)
    ensures k in Tiers(root)[2] <==> IsKernel(root, k)
  {
    FlatMembers(BootFiles(root), AbootOf, k);
    FlatMembers(EfiFiles(root), EspUki, k);
    FlatMembers(Versions(root), VersionUkis, k);
    FlatMembers(Versions(root), VersionKernel, k);
    forall f: BootFile ensures k in AbootOf(f) <==> AbootEntry(f, k) { AbootOfEntry(f, k); }
    forall f: File ensures k in EspUki(f) <==> UkiEntry(f, "boot/EFI/Linux/", k) { EspUkiEntry(f, k); }
    forall v ensures k in VersionUkis(v) <==> exists f :: f in v.listing && ModuleUki(v, f, k) { VersionUkisEntry(v, k); }
    forall v ensures k in VersionKernel(v) <==> KernelEntry(v, k) { VersionKernelEntry(v, k); }
    hide AbootOf, AbootEntry, EspUki, UkiEntry, VersionUkis, ModuleUki, VersionKernel, KernelEntry, Flat;
  }

  ghost predicate NoAboot(root: Root) {
    forall k :: !IsAbootArtifact(root, k)
  }

  ghost predicate NoUki(root: Root) {
    forall k :: !IsUki(root, k)
  }

  ghost predicate NoKernel(root: Root) {
    forall k :: !IsKernel(root, k)
  }

  /** An aboot artifact wins over a unified image, that over a traditional kernel; what is found
      is made of files the image lists, and it is the only one of its kind. Nothing is found
      exactly when there is nothing of any kind. */
  lemma FoundIsListed(root: Root, k: KernelInfo)
    ensures Search(root) == Ok(Some(k)) ==>
              || (IsAbootArtifact(root, k) && forall other :: IsAbootArtifact(root, other) ==> other == k)
              || (NoAboot(root) && IsUki(root, k) && forall other :: IsUki(root, other) ==> other == k)
              || (NoAboot(root) && NoUki(root) && IsKernel(root, k) && forall other :: IsKernel(root, other) ==> other == k)
    ensures Search(root) == Ok(None) <==>
            !HasBadAboot(BootFiles(root)) && NoAboot(root) && NoUki(root) && NoKernel(root)
  {
    TiersByKind(root);
    FoundIsSoleBest(root, k);
    hide Tiers, IsAbootArtifact, IsUki, IsKernel, HasBadAboot;
  }

  lemma TiersByKind(root: Root)
    ensures forall k :: k in Tiers(root)[0] <==> IsAbootArtifact(root, k)
    ensures forall k :: k in Tiers(root)[1] <==> IsUki(root, k)
    ensures forall k :: k in Tiers(root)[2] <==> IsKernel(root, k)
    ensures Tiers(root)[0] == [] <==> NoAboot(root)
    ensures Tiers(root)[1] == [] <==> NoUki(root)
    ensures Tiers(root)[2] == [] <==> NoKernel(root)
  {
    hide Tiers, IsAbootArtifact, IsUki, IsKernel;
    forall k
      ensures k in Tiers(root)[0] <==> IsAbootArtifact(root, k)
      ensures k in Tiers(root)[1] <==> IsUki(root, k)
      ensures k in Tiers(root)[2] <==> IsKernel(root, k)
    {
      TierMembers(root, k);
    }
    NoMember(Tiers(root)[0]);
    NoMember(Tiers(root)[1]);
    NoMember(Tiers(root)[2]);
  }

  /** A single aboot artifact is found, whatever else there is. */
  lemma SoleAbootFound(root: Root, i: nat, k: KernelInfo)
    requires !HasBadAboot(BootFiles(root))
    requires i < |BootFiles(root)| && AbootEntry(BootFiles(root)[i], k)
    requires forall j, other :: 0 <= j < |BootFiles(root)| && j != i ==> !AbootEntry(BootFiles(root)[j], other)
    ensures Search(root) == Ok(Some(k))
  {
    var files := BootFiles(root);
    forall j, other | 0 <= j < |files|
      ensures other in AbootOf(files[j]) <==> AbootEntry(files[j], other)
    {
      AbootOfEntry(files[j], other);
    }
    OneAboot(files[i], k);
    hide AbootOf, AbootEntry, Flat;
    SoleResult(files, AbootOf, i, k);
  }

  lemma OneAboot(f: BootFile, k: KernelInfo)
    requires k in AbootOf(f)
    ensures AbootOf(f) == [k]
  {
    hide IsAboot, AbootKind;
  }

  /** No results from the other entries, and one from this. */
  lemma SoleResult<A, B>(s: seq<A>, g: A -> seq<B>, i: nat, y: B)
    requires i < |s| && y in g(s[i]) && |g(s[i])| == 1
    requires forall j, z :: 0 <= j < |s| && j != i ==> z !in g(s[j])
    ensures Flat(s, g) == [y]
  {
    hide Flat;
    forall j | 0 <= j < |s| && j != i
      ensures g(s[j]) == []
    {
      var r := g(s[j]);
      assert forall z :: z !in r;
      NoMember(r);
    }
    FlatSole(s, g, i);
    OneMember(g(s[i]), y);
  }

  lemma OneMember<B>(s: seq<B>, y: B)
    requires y in s && |s| == 1
    ensures s == [y]
  {
  }

  lemma NoMember<B>(s: seq<B>)
    ensures (forall z :: z !in s) ==> s == []
  {
    if s != [] {
      assert s[0] in s;
    }
  }

  /** A single boot-loader image is found when there is no aboot artifact and no image among
      the modules. */
  lemma SoleEspUkiFound(root: Root, i: nat, k: KernelInfo)
    requires !HasBadAboot(BootFiles(root)) && NoAboot(root)
    requires i < |EfiFiles(root)| && UkiEntry(EfiFiles(root)[i], "boot/EFI/Linux/", k)
    requires forall j, other :: 0 <= j < |EfiFiles(root)| && j != i ==> !UkiEntry(EfiFiles(root)[j], "boot/EFI/Linux/", other)
    requires forall v, f, other :: v in Versions(root) && f in v.listing ==> !ModuleUki(v, f, other)
    ensures Search(root) == Ok(Some(k))
  {
    var files, versions := EfiFiles(root), Versions(root);
    TiersByKind(root);
    forall f, other ensures other in EspUki(f) <==> UkiEntry(f, "boot/EFI/Linux/", other) { EspUkiEntry(f, other); }
    assert |EspUki(files[i])| <= 1;
    hide EspUki, UkiEntry, Flat, IsAboot, AbootOf, HasBadAboot, IsAbootArtifact, IsUki, IsKernel;
    SoleResult(files, EspUki, i, k);
    forall v | v in versions
      ensures VersionUkis(v) == []
    {
      forall other ensures other !in VersionUkis(v) { VersionUkisEntry(v, other); }
      NoMember(VersionUkis(v));
    }
    hide ModuleUki, VersionUkis;
    FlatNone(versions, VersionUkis);
  }

  /** A single image among the modules is found when there is no aboot artifact and no
      boot-loader image. */
  lemma SoleModuleUkiFound(root: Root, i: nat, j: nat, k: KernelInfo)
    requires !HasBadAboot(BootFiles(root)) && NoAboot(root)
    requires forall f, other :: f in EfiFiles(root) ==> !UkiEntry(f, "boot/EFI/Linux/", other)
    requires i < |Versions(root)| && j < |Versions(root)[i].listing|
    requires ModuleUki(Versions(root)[i], Versions(root)[i].listing[j], k)
    requires forall m, n, other ::
      0 <= m < |Versions(root)| && 0 <= n < |Versions(root)[m].listing| && (m, n) != (i, j) ==>
        !ModuleUki(Versions(root)[m], Versions(root)[m].listing[n], other)
    ensures Search(root) == Ok(Some(k))
  {
    var files, versions := EfiFiles(root), Versions(root);
    TiersByKind(root);
    forall f | f in files
      ensures EspUki(f) == []
    {
      forall other ensures other !in EspUki(f) { EspUkiEntry(f, other); }
      NoMember(EspUki(f));
    }
    FlatNone(files, EspUki);
    OneModuleUki(versions[i], j, k);
    forall m, other | 0 <= m < |versions| && m != i
      ensures other !in VersionUkis(versions[m])
    {
      VersionUkisEntry(versions[m], other);
    }
    hide EspUki, UkiEntry, VersionUkis, ModuleUki, Flat, IsAboot, AbootOf, HasBadAboot, IsAbootArtifact, IsUki, IsKernel;
    SoleResult(versions, VersionUkis, i, k);
  }

  lemma OneModuleUki(v: Version, j: nat, k: KernelInfo)
    requires j < |v.listing| && ModuleUki(v, v.listing[j], k)
    requires forall n, other :: 0 <= n < |v.listing| && n != j ==> !ModuleUki(v, v.listing[n], other)
    ensures VersionUkis(v) == [k]
  {
    var g := f => VersionUki(v.name.value, f);
    assert VersionUkis(v) == Flat(v.listing, g);
    forall n, other | 0 <= n < |v.listing|
      ensures other in g(v.listing[n]) <==> ModuleUki(v, v.listing[n], other)
    {
      VersionUkiEntry(v, v.listing[n], other);
    }
    assert |g(v.listing[j])| <= 1;
    hide ModuleUki, VersionUki, VersionUkis;
    SoleResult(v.listing, g, j, k);
  }

  /** A single traditional kernel is found when there is nothing better. */
  lemma SoleKernelFound(root: Root, i: nat, k: KernelInfo)
    requires !HasBadAboot(BootFiles(root)) && NoAboot(root) && NoUki(root)
    requires i < |Versions(root)| && KernelEntry(Versions(root)[i], k)
    requires forall j, other :: 0 <= j < |Versions(root)| && j != i ==> !KernelEntry(Versions(root)[j], other)
    ensures Search(root) == Ok(Some(k))
  {
    var versions := Versions(root);
    TiersByKind(root);
    forall v, other ensures other in VersionKernel(v) <==> KernelEntry(v, other) { VersionKernelEntry(v, other); }
    assert |VersionKernel(versions[i])| <= 1;
    hide VersionKernel, KernelEntry, Flat, HasBadAboot, IsAbootArtifact, IsUki, IsKernel, AbootOf, EspUki, VersionUkis;
    SoleResult(versions, VersionKernel, i, k);
  }
}
