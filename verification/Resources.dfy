/** How many tokens the jobserver starts with: the memory the host or its control groups
    allow, times a fraction, in token sizes. */
module Resources {
  import opened Wrappers
  import opened Text
  import J = Jobserver

  const U64_LIMIT := 0x1_0000_0000_0000_0000
  const MIB := 0x10_0000

  // ---- Paths ----------------------------------------------------------------------

  /** A path as its components. */
  type Path = seq<string>

  /** The components of a relative path; repeated and trailing slashes and single dots make
      none. */
  function Components(parts: seq<string>): Path {
    if parts == [] then []
    else (if parts[0] == "" || parts[0] == "." then [] else [parts[0]]) + Components(parts[1..])
  }

  predicate TextAtLeast(a: string, b: string) {
    if b == "" then true
    else if a == "" then false
    else if a[0] == b[0] then TextAtLeast(a[1..], b[1..])
    else a[0] > b[0]
  }

  /** `>=` on paths: component by component, as a dictionary orders words. */
  predicate PathAtLeast(a: Path, b: Path) {
    if b == [] then true
    else if a == [] then false
    else if a[0] == b[0] then PathAtLeast(a[1..], b[1..])
    else TextAtLeast(a[0], b[0])
  }

  /** A path that extends another is at least it. */
  lemma {:induction false} ExtensionAtLeast(root: Path, rest: Path)
    ensures PathAtLeast(root + rest, root)
  {
    if root != [] {
      assert (root + rest)[1..] == root[1..] + rest;
      ExtensionAtLeast(root[1..], rest);
    }
  }

  // ---- Limits ---------------------------------------------------------------------

  /** The number in a `memory.max` file; "max" and anything else unreadable give none. */
  function LimitIn(files: map<Path, string>, path: Path): Option<nat> {
    if path !in files then None
    else
      var content := Trim(files[path]);
      if content == "max" then None else ParseUnsigned(content, U64_LIMIT)
  }

  function StripSlashes(s: string): string {
    if s != "" && s[0] == '/' then StripSlashes(s[1..]) else s
  }

  /** The group named by the first unified-hierarchy line of /proc/self/cgroup. */
  function GroupPath(lines: seq<string>): Option<string> {
    if lines == [] then None
    else
      var line := Trim(lines[0]);
      if StartsWith(line, "0::") then Some(line[3..]) else GroupPath(lines[1..])
  }

  /** The first line of the unified hierarchy counts, whatever stands around it. */
  lemma {:induction false} GroupFound(before: seq<string>, group: string, after: seq<string>)
    requires forall line :: line in before ==> !StartsWith(Trim(line), "0::")
    requires group == "" || !IsWhitespace(group[|group| - 1])
    ensures GroupPath(before + ["0::" + group] + after) == Some(group)
  {
    var lines := before + ["0::" + group] + after;
    if before == [] {
      UnifiedLine(group);
      hide Trim;
      assert lines[0] == "0::" + group;
      assert ("0::" + group)[3..] == group;
    } else {
      assert lines[1..] == before[1..] + ["0::" + group] + after;
      assert lines[0] == before[0] && before[0] in before;
      hide Trim;
      GroupFound(before[1..], group, after);
    }
  }

  lemma UnifiedLine(group: string)
    requires group == "" || !IsWhitespace(group[|group| - 1])
    ensures Trim("0::" + group) == "0::" + group
  {
    var line := "0::" + group;
    assert line[0] == '0' && line[|line| - 1] == if group == "" then ':' else group[|group| - 1];
    TrimOfTrimmed(line);
  }

  function GroupComponents(group: string): Path {
    Components(Split(StripSlashes(group), '/'))
  }

  lemma {:induction false} PlainComponents(parts: Path)
    requires forall p :: p in parts ==> p != "" && p != "."
    ensures Components(parts) == parts
  {
    if parts != [] {
      assert parts[0] in parts && forall p :: p in parts[1..] ==> p in parts;
      PlainComponents(parts[1..]);
      assert parts == [parts[0]] + parts[1..];
    }
  }

  /** An absolute group path has the components it is spelled with. */
  lemma GroupReadBack(parts: Path)
    requires forall p :: p in parts ==> p != "" && p != "." && NoChar(p, '/')
    ensures GroupComponents("/" + Join(parts, "/")) == parts
  {
    var s := Join(parts, "/");
    assert ("/" + s)[1..] == s;
    assert StripSlashes("/" + s) == StripSlashes(s);
    if parts == [] {
      NoComponents();
    } else {
      assert parts[0] in parts && parts[0][0] in parts[0];
      JoinHead(parts, "/");
      assert StripSlashes(s) == s;
      hide Split, Join, Components;
      SplitJoin(parts, '/');
      PlainComponents(parts);
    }
  }

  lemma NoComponents()
    ensures Components(Split("", '/')) == []
  {
    assert Split("", '/') == [""] && [""][1..] == [];
  }

  lemma JoinHead(parts: seq<string>, sep: string)
    requires parts != [] && parts[0] != ""
    ensures Join(parts, sep) != "" && Join(parts, sep)[0] == parts[0][0]
  {
  }

  /** A limit is read back from its file; `max`, a missing file and a number beyond 64 bits
      are no limit. */
  lemma LimitReadBack(files: map<Path, string>, path: Path, n: nat)
    ensures path !in files ==> LimitIn(files, path) == None
    ensures path in files && files[path] == "max\n" ==> LimitIn(files, path) == None
    ensures path in files && files[path] == Decimal(n) + "\n" ==>
              LimitIn(files, path) == if n < U64_LIMIT then Some(n) else None
  {
    if path in files {
      MaxLine();
      DigitsLine(n);
      hide *;
      ReadLimit(files, path);
    }
  }

  lemma ReadLimit(files: map<Path, string>, path: Path)
    requires path in files
    ensures Trim(files[path]) == "max" ==> LimitIn(files, path) == None
    ensures Trim(files[path]) != "max" ==> LimitIn(files, path) == ParseUnsigned(Trim(files[path]), U64_LIMIT)
  {
    hide Trim, ParseUnsigned;
  }

  lemma MaxLine()
    ensures Trim("max\n") == "max"
  {
    MaxEnds();
    assert "max" + "\n" == "max\n";
    hide *;
    TrimLine("max");
  }

  lemma MaxEnds()
    ensures var s := "max"; s != "" && !IsWhitespace(s[0]) && !IsWhitespace(s[|s| - 1])
  {
    var s := "max";
    assert s[0] == 'm' && s[2] == 'x' && |s| == 3;
  }

  lemma DigitsLine(n: nat)
    ensures Trim(Decimal(n) + "\n") == Decimal(n) && Decimal(n) != "max"
    ensures ParseUnsigned(Decimal(n), U64_LIMIT) == if n < U64_LIMIT then Some(n) else None
  {
    DigitsPlain(n);
    hide Trim, Decimal, ParseUnsigned, IsWhitespace;
    TrimLine(Decimal(n));
    ParseDecimal(n, U64_LIMIT);
  }

  lemma DigitsPlain(n: nat)
    ensures var s := Decimal(n); s != "max" && !IsWhitespace(s[0]) && !IsWhitespace(s[|s| - 1])
  {
    var s := Decimal(n);
    assert s[0] in s && s[|s| - 1] in s;
    hide Decimal;
  }

  lemma TrimLine(s: string)
    requires s != "" && !IsWhitespace(s[0]) && !IsWhitespace(s[|s| - 1])
    ensures Trim(s + "\n") == s
  {
    var line := s + "\n";
    assert IsWhitespace('\n');
    hide IsWhitespace;
    TrimEndUnique(line, s);
  }

  /** The limit set on the group `k` levels below the root, on the way to `group`. */
  function LimitAt(files: map<Path, string>, root: Path, group: Path, k: nat): Option<nat>
    requires k <= |group|
  {
    LimitIn(files, root + group[..k])
  }

  /** `m` is the least limit set on the groups `from` and more levels below the root. */
  ghost predicate LeastLimit(files: map<Path, string>, root: Path, group: Path, from: nat, m: Option<nat>) {
    && (m.Some? ==> exists k :: from <= k <= |group| && LimitAt(files, root, group, k) == m)
    && (forall k :: from <= k <= |group| && LimitAt(files, root, group, k).Some?
          ==> m.Some? && m.value <= LimitAt(files, root, group, k).value)
  }

  /** Walks from the process's group up to the root of the hierarchy. The walk ends at the
      root, not before: the ordering guard holds at every ancestor. */
  method DetectCgroupV2(selfCgroup: Option<seq<string>>, root: Path, files: map<Path, string>)
    returns (limit: Option<nat>)
    ensures selfCgroup.None? || GroupPath(selfCgroup.value).None? ==> limit == None
    ensures selfCgroup.Some? && GroupPath(selfCgroup.value).Some? ==>
              LeastLimit(files, root, GroupComponents(GroupPath(selfCgroup.value).value), 0, limit)
  {
    if selfCgroup.None? || GroupPath(selfCgroup.value).None? {
      return None;
    }
    var group := GroupComponents(GroupPath(selfCgroup.value).value);
    limit := WalkUp(root, group, files);
  }

  method WalkUp(root: Path, group: Path, files: map<Path, string>) returns (limit: Option<nat>)
    ensures LeastLimit(files, root, group, 0, limit)
  {
    hide LimitIn, PathAtLeast;
    limit := None;
    var path := root + group;
    ghost var k: nat := |group|;
    assert group[..k] == group;
    while true
      invariant k <= |group| && path == root + group[..k]
      invariant LeastLimit(files, root, group, k + 1, limit)
      decreases k
    {
      var here := LimitIn(files, path);
      assert here == LimitAt(files, root, group, k);
      if here.Some? {
        limit := if limit.None? then here else Some(if limit.value <= here.value then limit.value else here.value);
      }
      assert LeastLimit(files, root, group, k, limit);
      if path == root {
        assert |path| == |root| + k;
        return;
      }
      assert root + group[..0] == root;
      var parent := path[..|path| - 1];
      assert parent == root + group[..k - 1];
      ExtensionAtLeast(root, group[..k - 1]);
      if !PathAtLeast(parent, root) {
        assert false;
      }
      path := parent;
      k := k - 1;
    }
  }

  // ---- Tokens ---------------------------------------------------------------------

  const DEFAULT_KIB := 0x40_0000

  /** Memory in MiB: the smaller of the physical memory and the group limit, with the 64-bit
      and 32-bit truncations of the program. */
  function DetectMemoryMib(physicalKib: Option<nat>, limit: Option<nat>): (mib: nat)
    ensures mib < J.U32_LIMIT
  {
    var kib := if physicalKib.Some? then physicalKib.value else DEFAULT_KIB;
    var physical := (kib * 1024) % U64_LIMIT;
    var effective := if limit.Some? && limit.value < physical then limit.value else physical;
    (effective / MIB) % J.U32_LIMIT
  }

  /** Tokens for a budget of `numerator / denominator` of the memory, unless overridden. */
  function TokenCount(slots: Option<nat>, memoryMib: nat, numerator: nat, denominator: nat): (tokens: nat)
    requires denominator > 0
    ensures tokens >= 1
  {
    if slots.Some? then (if slots.value >= 1 then slots.value else 1)
    else
      var floor := memoryMib * numerator / denominator;
      var available := if floor < J.U32_LIMIT then floor else J.U32_LIMIT - 1;
      var tokens := available / J.TOKEN_MIB;
      if tokens >= 1 then tokens else 1
  }

  lemma FractionAtMostWhole(x: nat, numerator: nat, denominator: nat)
    requires 0 < denominator && numerator <= denominator
    ensures x * numerator / denominator <= x
  {
  }

  /** Without an override the budget fits both the physical memory and the group limit, or
      is the one token that is always granted. */
  lemma BudgetFits(physicalKib: nat, limit: Option<nat>, numerator: nat, denominator: nat)
    requires 0 < denominator && numerator <= denominator
    ensures var tokens := TokenCount(None, DetectMemoryMib(Some(physicalKib), limit), numerator, denominator);
            tokens > 1 ==>
              && tokens * J.TOKEN_MIB * MIB <= physicalKib * 1024
              && (limit.Some? ==> tokens * J.TOKEN_MIB * MIB <= limit.value)
  {
    var mib := DetectMemoryMib(Some(physicalKib), limit);
    FractionAtMostWhole(mib, numerator, denominator);
    MemoryMibFits(physicalKib, limit);
  }

  lemma MemoryMibFits(physicalKib: nat, limit: Option<nat>)
    ensures var mib := DetectMemoryMib(Some(physicalKib), limit);
            mib * MIB <= physicalKib * 1024 && (limit.Some? ==> mib * MIB <= limit.value)
  {
  }

  /** The budget cannot be raised: one more token would exceed the fraction of the memory. An
      override takes its place, but grants at least one token. */
  lemma BudgetIsLargest(memoryMib: nat, numerator: nat, denominator: nat, slots: nat)
    requires 0 < denominator && numerator <= denominator && memoryMib < J.U32_LIMIT
    ensures var tokens := TokenCount(None, memoryMib, numerator, denominator);
            && memoryMib * numerator < (tokens + 1) * J.TOKEN_MIB * denominator
            && (tokens > 1 ==> tokens * J.TOKEN_MIB * denominator <= memoryMib * numerator)
    ensures TokenCount(Some(slots), memoryMib, numerator, denominator) == if slots == 0 then 1 else slots
  {
    var tokens := TokenCount(None, memoryMib, numerator, denominator);
    var product := memoryMib * numerator;
    var floor := product / denominator;
    FractionAtMostWhole(memoryMib, numerator, denominator);
    assert floor < (tokens + 1) * J.TOKEN_MIB;
    hide TokenCount;
    FloorBounds(product, denominator, (tokens + 1) * J.TOKEN_MIB);
    if tokens > 1 {
      FloorBounds(product, denominator, tokens * J.TOKEN_MIB);
    }
  }

  lemma FloorBounds(x: nat, d: nat, n: nat)
    requires d > 0
    ensures x / d < n <==> x < n * d
  {
    assert x == x / d * d + x % d;
    if x / d < n {
      assert (x / d + 1) * d <= n * d;
    } else {
      assert n * d <= x / d * d;
    }
  }

  /** While the sizes fit their integers, the memory is the smaller of the two limits to the
      MiB; unknown physical memory counts as 4 GiB. */
  lemma MemoryMibExact(physicalKib: Option<nat>, limit: Option<nat>, bytes: nat)
    requires bytes <= (if physicalKib.Some? then physicalKib.value else 4 * 1024 * 1024) * 1024 < U64_LIMIT
    requires limit.Some? ==> bytes <= limit.value
    requires bytes == (if physicalKib.Some? then physicalKib.value else 4 * 1024 * 1024) * 1024 || limit == Some(bytes)
    ensures DetectMemoryMib(physicalKib, limit) * MIB <= bytes
    ensures bytes / MIB < J.U32_LIMIT ==> bytes < (DetectMemoryMib(physicalKib, limit) + 1) * MIB
  {
  }

  /** The point of the jobserver: with its default budget of more than one token, the VMs
      that run at one time fit the host, in every interleaving. */
  lemma RunningVmsFitHost(physicalKib: nat, limit: Option<nat>, numerator: nat, denominator: nat,
                          mems: seq<nat>, wants: seq<nat>, actions: seq<J.Action>)
    requires 0 < denominator && numerator <= denominator && |wants| == |mems|
    requires forall i :: 0 <= i < |mems| ==>
      mems[i] + J.TOKEN_MIB - 1 < J.U32_LIMIT && wants[i] == J.TokensFor(mems[i])
    requires TokenCount(None, DetectMemoryMib(Some(physicalKib), limit), numerator, denominator) > 1
    requires J.Run(J.Initial(TokenCount(None, DetectMemoryMib(Some(physicalKib), limit), numerator, denominator), wants),
                   actions).Some?
    ensures var tokens := TokenCount(None, DetectMemoryMib(Some(physicalKib), limit), numerator, denominator);
            var s := J.Run(J.Initial(tokens, wants), actions).value;
            && |s.clients| == |mems|
            && J.Sum(J.RunningMemory(s, mems)) * MIB <= physicalKib * 1024
            && (limit.Some? ==> J.Sum(J.RunningMemory(s, mems)) * MIB <= limit.value)
  {
    var tokens := TokenCount(None, DetectMemoryMib(Some(physicalKib), limit), numerator, denominator);
    J.MemoryBounded(tokens, mems, wants, actions);
    BudgetFits(physicalKib, limit, numerator, denominator);
  }
}
