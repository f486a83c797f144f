/** Mount unit names and file system tags of the directories bound into a guest. */
module MountUnits {
  import opened Wrappers
  import opened Text
  import opened DomainXml

  // ---- Unit names -----------------------------------------------------------------

  const DASH := "\\x2d"

  /** Dashes escaped. */
  function Escape(s: string): string {
    if s == "" then "" else (if s[0] == '-' then DASH else [s[0]]) + Escape(s[1..])
  }

  function EscapeEach(parts: seq<string>): (r: seq<string>)
    ensures |r| == |parts| && forall i :: 0 <= i < |r| ==> r[i] == Escape(parts[i])
  {
    seq(|parts|, i requires 0 <= i < |parts| => Escape(parts[i]))
  }

  function PathParts(guestPath: string): seq<string> {
    Split(StripPrefix(guestPath, "/"), '/')
  }

  function UnitName(guestPath: string): string {
    Join(EscapeEach(PathParts(guestPath)), "-") + ".mount"
  }

  // ---- Their inverse --------------------------------------------------------------

  /** Escaped dashes read back. */
  function Unescape(s: string): string {
    if s == "" then ""
    else if StartsWith(s, DASH) then "-" + Unescape(s[4..])
    else [s[0]] + Unescape(s[1..])
  }

  function UnescapeEach(parts: seq<string>): (r: seq<string>)
    ensures |r| == |parts| && forall i :: 0 <= i < |r| ==> r[i] == Unescape(parts[i])
  {
    seq(|parts|, i requires 0 <= i < |parts| => Unescape(parts[i]))
  }

  /** The absolute path of a unit. */
  function PathOfUnit(unit: string): string {
    var body := if EndsWith(unit, ".mount") then unit[..|unit| - 6] else unit;
    "/" + Join(UnescapeEach(Split(body, '-')), "/")
  }

  lemma {:induction false} EscapedHasNoDash(s: string)
    ensures NoChar(Escape(s), '-')
  {
    if s != "" {
      EscapedHasNoDash(s[1..]);
    }
  }

  lemma HeadKept(t: string, c: char)
    requires c != '-' && c != '\\'
    ensures Escape(t) != "" && Escape(t)[0] == c <==> t != "" && t[0] == c
    ensures t != "" && t[0] == c ==> Escape(t)[1..] == Escape(t[1..])
  {
  }

  lemma EscapeHead(t: string)
    ensures StartsWith(Escape(t), "x2d") <==> StartsWith(t, "x2d")
  {
    HeadKept(t, 'x');
    if t != "" && t[0] == 'x' {
      HeadKept(t[1..], '2');
      if t[1..] != "" && t[1..][0] == '2' {
        HeadKept(t[1..][1..], 'd');
      }
    }
  }

  lemma EscapedDashHead(t: string)
    ensures StartsWith(t, DASH) <==> t != "" && t[0] == '\\' && StartsWith(t[1..], "x2d")
  {
  }

  /** Escaping loses only the difference between a dash and a dash already escaped. */
  lemma {:induction false} UnescapeEscaped(s: string)
    ensures Unescape(Escape(s)) == Unescape(s)
    decreases |s|
  {
    if s == "" {
    } else if StartsWith(s, DASH) {
      UnescapeEscaped(s[4..]);
      EscapedDash(s);
      assert (DASH + Escape(s[4..]))[4..] == Escape(s[4..]);
    } else if s[0] == '-' {
      UnescapeEscaped(s[1..]);
      assert (DASH + Escape(s[1..]))[4..] == Escape(s[1..]);
    } else {
      UnescapeEscaped(s[1..]);
      EscapeHead(s[1..]);
      var e := Escape(s);
      assert e == [s[0]] + Escape(s[1..]);
      assert e[1..] == Escape(s[1..]);
      EscapedDashHead(s);
      EscapedDashHead(e);
    }
  }

  lemma EscapedDash(s: string)
    requires StartsWith(s, DASH)
    ensures Escape(s) == DASH + Escape(s[4..])
  {
    assert Escape(s) == "\\" + Escape(s[1..]);
    assert Escape(s[1..]) == "x" + Escape(s[2..]);
    assert Escape(s[2..]) == "2" + Escape(s[3..]);
    assert Escape(s[3..]) == "d" + Escape(s[4..]);
  }

  lemma {:induction false} EscapeUnescaped(s: string)
    ensures Escape(Unescape(s)) == Escape(s)
    decreases |s|
  {
    if s == "" {
    } else if StartsWith(s, DASH) {
      EscapeUnescaped(s[4..]);
      EscapedDash(s);
      assert Unescape(s)[1..] == Unescape(s[4..]);
    } else {
      EscapeUnescaped(s[1..]);
      assert Unescape(s)[1..] == Unescape(s[1..]);
    }
  }

  lemma {:induction false} UnescapePlain(s: string)
    requires NoChar(s, '\\')
    ensures Unescape(s) == s
  {
    if s != "" {
      assert s[0] in s;
      assert forall c :: c in s[1..] ==> c in s;
      UnescapePlain(s[1..]);
      assert s == [s[0]] + s[1..];
    }
  }

  lemma UnitParts(guestPath: string)
    ensures EndsWith(UnitName(guestPath), ".mount")
    ensures Split(UnitName(guestPath)[..|UnitName(guestPath)| - 6], '-') == EscapeEach(PathParts(guestPath))
  {
    var parts := EscapeEach(PathParts(guestPath));
    forall p | p in parts
      ensures NoChar(p, '-')
    {
      var i :| 0 <= i < |parts| && parts[i] == p;
      EscapedHasNoDash(PathParts(guestPath)[i]);
    }
    SplitJoin(parts, '-');
    var body := Join(parts, "-");
    assert UnitName(guestPath)[..|body|] == body;
    assert UnitName(guestPath)[|body|..] == ".mount";
  }

  /** Two guest paths share a unit name exactly when their components agree once an escaped
      dash is read as a dash. */
  lemma UnitNamesCollide(p: string, q: string)
    ensures UnitName(p) == UnitName(q) <==> UnescapeEach(PathParts(p)) == UnescapeEach(PathParts(q))
  {
    UnitParts(p);
    UnitParts(q);
    var a, b := PathParts(p), PathParts(q);
    hide Escape, Unescape, PathParts, Split;
    if UnitName(p) == UnitName(q) {
      assert EscapeEach(a) == EscapeEach(b);
      forall i | 0 <= i < |a|
        ensures Unescape(a[i]) == Unescape(b[i])
      {
        assert EscapeEach(a)[i] == EscapeEach(b)[i];
        UnescapeEscaped(a[i]);
        UnescapeEscaped(b[i]);
      }
      assert UnescapeEach(a) == UnescapeEach(b);
    }
    if UnescapeEach(a) == UnescapeEach(b) {
      forall i | 0 <= i < |a|
        ensures Escape(a[i]) == Escape(b[i])
      {
        assert UnescapeEach(a)[i] == UnescapeEach(b)[i];
        EscapeUnescaped(a[i]);
        EscapeUnescaped(b[i]);
      }
      assert EscapeEach(a) == EscapeEach(b);
    }
  }

  /** An absolute path without backslashes can be read back from its unit name, so such
      paths never share one. */
  lemma PathReadBack(p: string)
    requires StartsWith(p, "/") && NoChar(p, '\\')
    ensures PathOfUnit(UnitName(p)) == p
  {
    UnitParts(p);
    var parts := PathParts(p);
    JoinSplit(p[1..], '/');
    forall i | 0 <= i < |parts|
      ensures Unescape(Escape(parts[i])) == parts[i]
    {
      UnescapeEscaped(parts[i]);
      PartsAreInPath(p[1..], i);
      assert forall c :: c in parts[i] ==> c in p[1..];
      assert forall c :: c in p[1..] ==> c in p;
      UnescapePlain(parts[i]);
    }
    hide Escape, Unescape, Split, EndsWith, PathParts;
    assert UnescapeEach(EscapeEach(parts)) == parts;
    assert p == "/" + p[1..];
  }

  lemma {:induction false} PartsAreInPath(s: string, i: nat)
    requires i < |Split(s, '/')|
    ensures forall c :: c in Split(s, '/')[i] ==> c in s
  {
    if s != "" {
      var rest := Split(s[1..], '/');
      if s[0] == '/' {
        if i > 0 {
          PartsAreInPath(s[1..], i - 1);
        }
      } else {
        PartsAreInPath(s[1..], i);
      }
      assert forall c :: c in s[1..] ==> c in s;
      assert s[0] in s;
    }
  }

  lemma OnePart(s: string)
    requires NoChar(s, '/')
    ensures PathParts("/" + s) == [s] && PathParts(s) == [s]
  {
    assert ("/" + s)[1..] == s;
    SplitWhole(s, '/');
    assert StartsWith("/" + s, "/");
    assert s != "" ==> s[0] in s;
  }

  /** Backslashes and a missing first slash are where names collide: an escaped dash reads
      as a dash, and a relative path as an absolute one. */
  lemma CollidingPaths(s: string)
    requires NoChar(s, '/') && '-' in s
    ensures s != Escape(s) && UnitName("/" + s) == UnitName("/" + Escape(s)) == UnitName(s)
  {
    EscapedHasNoDash(s);
    EscapedHasNoSlash(s);
    OnePart(s);
    OnePart(Escape(s));
    EscapeClean(Escape(s));
    hide Escape, PathParts;
    assert EscapeEach([s]) == EscapeEach([Escape(s)]);
  }

  lemma {:induction false} EscapedHasNoSlash(s: string)
    requires NoChar(s, '/')
    ensures NoChar(Escape(s), '/')
  {
    if s != "" {
      assert s[0] in s;
      assert forall c :: c in s[1..] ==> c in s;
      EscapedHasNoSlash(s[1..]);
    }
  }

  lemma {:induction false} EscapeClean(s: string)
    requires NoChar(s, '-')
    ensures Escape(s) == s
  {
    if s != "" {
      assert s[0] in s;
      assert forall c :: c in s[1..] ==> c in s;
      EscapeClean(s[1..]);
      assert s == [s[0]] + s[1..];
    }
  }

  // ---- Tags -----------------------------------------------------------------------

  datatype BindMount = BindMount(hostPath: string, guestPath: string)

  /** A volume the user names a tag for; the guest mounts it by hand. */
  datatype RawVolume = RawVolume(hostPath: string, tag: string)

  const BIND := "bcvk-bind-"
  const BIND_RO := "bcvk-bind-ro-"
  const STORAGE := "hoststorage"
  const STORAGE_GUEST_PATH := "/run/host-container-storage"

  function Bindings(mounts: seq<BindMount>, prefix: string, readonly: bool): (r: seq<VirtiofsFilesystem>)
    ensures |r| == |mounts|
    ensures forall i :: 0 <= i < |r| ==> r[i] == VirtiofsFilesystem(mounts[i].hostPath, prefix + Decimal(i), readonly)
  {
    seq(|mounts|, i requires 0 <= i < |mounts| => VirtiofsFilesystem(mounts[i].hostPath, prefix + Decimal(i), readonly))
  }

  function Units(mounts: seq<BindMount>): (r: seq<string>)
    ensures |r| == |mounts| && forall i :: 0 <= i < |r| ==> r[i] == UnitName(mounts[i].guestPath)
  {
    seq(|mounts|, i requires 0 <= i < |mounts| => UnitName(mounts[i].guestPath))
  }

  /** Adds a group of mounts to the domain's file systems and to the unit names. */
  method ProcessBindMounts(mounts: seq<BindMount>, prefix: string, readonly: bool,
                           filesystems: seq<VirtiofsFilesystem>, units: seq<string>)
    returns (allFilesystems: seq<VirtiofsFilesystem>, allUnits: seq<string>)
    ensures allFilesystems == filesystems + Bindings(mounts, prefix, readonly)
    ensures allUnits == units + Units(mounts)
  {
    hide UnitName, Decimal;
    allFilesystems, allUnits := filesystems, units;
    for idx := 0 to |mounts|
      invariant allFilesystems == filesystems + Bindings(mounts, prefix, readonly)[..idx]
      invariant allUnits == units + Units(mounts)[..idx]
    {
      var tag := prefix + Decimal(idx);
      allFilesystems := allFilesystems + [VirtiofsFilesystem(mounts[idx].hostPath, tag, readonly)];
      allUnits := allUnits + [UnitName(mounts[idx].guestPath)];
    }
  }

  lemma TagsOfGroup(prefix: string, i: nat, j: nat)
    requires i != j
    ensures prefix + Decimal(i) != prefix + Decimal(j)
  {
    assert (prefix + Decimal(i))[|prefix|..] == Decimal(i) && (prefix + Decimal(j))[|prefix|..] == Decimal(j);
    if Decimal(i) == Decimal(j) {
      DecimalInjective(i, j);
    }
  }

  lemma TagsOfGroupsApart(i: nat, j: nat)
    ensures BIND + Decimal(i) != BIND_RO + Decimal(j) && BIND + Decimal(i) != STORAGE && BIND_RO + Decimal(j) != STORAGE
  {
    assert (BIND + Decimal(i))[10] == Decimal(i)[0] && Decimal(i)[0] in Decimal(i);
    assert (BIND_RO + Decimal(j))[10] == 'r';
    assert (BIND + Decimal(i))[0] == 'b' && (BIND_RO + Decimal(j))[0] == 'b' && STORAGE[0] == 'h';
  }

  function StorageBinding(storagePath: Option<string>): seq<VirtiofsFilesystem> {
    if storagePath.None? then [] else [VirtiofsFilesystem(storagePath.value, STORAGE, true)]
  }

  function RawBindings(volumes: seq<RawVolume>): (r: seq<VirtiofsFilesystem>)
    ensures |r| == |volumes|
    ensures forall i :: 0 <= i < |r| ==> r[i] == VirtiofsFilesystem(volumes[i].hostPath, volumes[i].tag, false)
  {
    seq(|volumes|, i requires 0 <= i < |volumes| => VirtiofsFilesystem(volumes[i].hostPath, volumes[i].tag, false))
  }

  function AllBindings(raw: seq<RawVolume>, readWrite: seq<BindMount>, readOnly: seq<BindMount>,
                       storagePath: Option<string>): seq<VirtiofsFilesystem>
  {
    RawBindings(raw) + Bindings(readWrite, BIND, false) + Bindings(readOnly, BIND_RO, true) + StorageBinding(storagePath)
  }

  ghost predicate TagsApart(all: seq<VirtiofsFilesystem>) {
    forall i, j :: 0 <= i < j < |all| ==> all[i].tag != all[j].tag
  }

  /** The tags the program makes up: one for each bind mount, then the container storage. */
  function TagAt(n: nat, m: nat, i: nat): string {
    if i < n then BIND + Decimal(i) else if i < n + m then BIND_RO + Decimal(i - n) else STORAGE
  }

  ghost predicate MadeUp(n: nat, m: nat, storage: bool, tag: string) {
    exists g: nat :: g < n + m + (if storage then 1 else 0) && tag == TagAt(n, m, g)
  }

  lemma ConcatAt<T>(a: seq<T>, b: seq<T>, c: seq<T>, d: seq<T>, i: nat)
    requires i < |a| + |b| + |c| + |d|
    ensures (a + b + c + d)[i] ==
            if i < |a| then a[i] else if i < |a| + |b| then b[i - |a|]
            else if i < |a| + |b| + |c| then c[i - |a| - |b|] else d[i - |a| - |b| - |c|]
  {
  }

  lemma TagsListed(raw: seq<RawVolume>, readWrite: seq<BindMount>, readOnly: seq<BindMount>, storagePath: Option<string>)
    ensures var all := AllBindings(raw, readWrite, readOnly, storagePath);
            var k := |raw|;
            && |all| == k + |readWrite| + |readOnly| + (if storagePath.Some? then 1 else 0)
            && (forall i :: 0 <= i < k ==> all[i].tag == raw[i].tag)
            && (forall i :: k <= i < |all| ==> all[i].tag == TagAt(|readWrite|, |readOnly|, i - k))
  {
    hide Decimal, RawBindings, Bindings;
    var a, b := RawBindings(raw), Bindings(readWrite, BIND, false);
    var c, d := Bindings(readOnly, BIND_RO, true), StorageBinding(storagePath);
    forall i | 0 <= i < |a + b + c + d|
      ensures (a + b + c + d)[i].tag == if i < |raw| then raw[i].tag else TagAt(|readWrite|, |readOnly|, i - |raw|)
    {
      ConcatAt(a, b, c, d, i);
    }
  }

  ghost predicate TagsAccepted(raw: seq<RawVolume>, n: nat, m: nat, storage: bool) {
    && (forall i, j :: 0 <= i < j < |raw| ==> raw[i].tag != raw[j].tag)
    && (forall i :: 0 <= i < |raw| ==> !MadeUp(n, m, storage, raw[i].tag))
  }

  lemma AcceptedTagsAreApart(raw: seq<RawVolume>, readWrite: seq<BindMount>, readOnly: seq<BindMount>,
                             storagePath: Option<string>)
    requires TagsAccepted(raw, |readWrite|, |readOnly|, storagePath.Some?)
    ensures TagsApart(AllBindings(raw, readWrite, readOnly, storagePath))
  {
    hide TagAt, AllBindings, Decimal;
    TagsListed(raw, readWrite, readOnly, storagePath);
    var all := AllBindings(raw, readWrite, readOnly, storagePath);
    var k := |raw|;
    forall i, j | 0 <= i < j < |all|
      ensures all[i].tag != all[j].tag
    {
      if i >= k {
        AllTagsApart(|readWrite|, |readOnly|, i - k, j - k);
      } else if j >= k {
        assert !MadeUp(|readWrite|, |readOnly|, storagePath.Some?, raw[i].tag);
      }
    }
  }

  lemma ApartTagsAreAccepted(raw: seq<RawVolume>, readWrite: seq<BindMount>, readOnly: seq<BindMount>,
                             storagePath: Option<string>)
    requires TagsApart(AllBindings(raw, readWrite, readOnly, storagePath))
    ensures TagsAccepted(raw, |readWrite|, |readOnly|, storagePath.Some?)
  {
    hide TagAt, AllBindings, Decimal;
    TagsListed(raw, readWrite, readOnly, storagePath);
    var all := AllBindings(raw, readWrite, readOnly, storagePath);
    var k := |raw|;
    forall i, g: nat | 0 <= i < k && g < |all| - k
      ensures raw[i].tag != TagAt(|readWrite|, |readOnly|, g)
    {
      assert all[i].tag != all[k + g].tag;
    }
    forall i, j | 0 <= i < j < k
      ensures raw[i].tag != raw[j].tag
    {
      assert all[i].tag != all[j].tag;
    }
  }

  /** All file systems of one domain have different tags if and only if the user's tags
      differ from one another and none of them is a tag the program makes up itself. */
  lemma TagsDistinct(raw: seq<RawVolume>, readWrite: seq<BindMount>, readOnly: seq<BindMount>, storagePath: Option<string>)
    ensures TagsApart(AllBindings(raw, readWrite, readOnly, storagePath)) <==>
            && (forall i, j :: 0 <= i < j < |raw| ==> raw[i].tag != raw[j].tag)
            && (forall i :: 0 <= i < |raw| ==> !MadeUp(|readWrite|, |readOnly|, storagePath.Some?, raw[i].tag))
  {
    hide TagsApart, AllBindings, MadeUp;
    if TagsAccepted(raw, |readWrite|, |readOnly|, storagePath.Some?) {
      AcceptedTagsAreApart(raw, readWrite, readOnly, storagePath);
    }
    if TagsApart(AllBindings(raw, readWrite, readOnly, storagePath)) {
      ApartTagsAreAccepted(raw, readWrite, readOnly, storagePath);
    }
  }

  method ProcessRawVolumes(raw: seq<RawVolume>) returns (filesystems: seq<VirtiofsFilesystem>)
    ensures filesystems == RawBindings(raw)
  {
    filesystems := [];
    for i := 0 to |raw|
      invariant filesystems == RawBindings(raw)[..i]
    {
      filesystems := filesystems + [VirtiofsFilesystem(raw[i].hostPath, raw[i].tag, false)];
    }
  }

  /** The raw volumes, then all bind mounts of one domain, and the container storage if it is
      bound too. */
  method ProcessMounts(raw: seq<RawVolume>, readWrite: seq<BindMount>, readOnly: seq<BindMount>,
                       storagePath: Option<string>)
    returns (filesystems: seq<VirtiofsFilesystem>, units: seq<string>)
    ensures filesystems == AllBindings(raw, readWrite, readOnly, storagePath)
    ensures units == Units(readWrite) + Units(readOnly)
                     + if storagePath.Some? then [UnitName(STORAGE_GUEST_PATH)] else []
    ensures raw == [] ==> TagsApart(filesystems)
  {
    hide UnitName, Bindings, RawBindings, Units, TagsApart, MadeUp;
    filesystems := ProcessRawVolumes(raw);
    units := [];
    filesystems, units := ProcessBindMounts(readWrite, BIND, false, filesystems, units);
    filesystems, units := ProcessBindMounts(readOnly, BIND_RO, true, filesystems, units);
    if storagePath.Some? {
      filesystems := filesystems + [VirtiofsFilesystem(storagePath.value, STORAGE, true)];
      units := units + [UnitName(STORAGE_GUEST_PATH)];
    }
    TagsDistinct(raw, readWrite, readOnly, storagePath);
  }

  lemma AllTagsApart(n: nat, m: nat, i: nat, j: nat)
    requires i < j <= n + m
    ensures TagAt(n, m, i) != TagAt(n, m, j)
  {
    hide Decimal;
    if j < n {
      TagsOfGroup(BIND, i, j);
    } else if i >= n && j < n + m {
      TagsOfGroup(BIND_RO, i - n, j - n);
    } else if i < n {
      TagsOfGroupsApart(i, if j < n + m then j - n else 0);
    } else {
      TagsOfGroupsApart(0, i - n);
    }
  }
}
