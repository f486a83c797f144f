/** Disk files given on the command line, and their passage into the container in one
    environment variable. */
module DiskSpecs {
  import opened Wrappers
  import opened Text

  datatype Format = Raw | Qcow2

  function FormatName(f: Format): (s: string)
    ensures NoChar(s, ':') && NoChar(s, ',')
  {
    match f
    case Raw => "raw"
    case Qcow2 => "qcow2"
  }

  function FormatOf(s: string): Option<Format> {
    if s == "raw" then Some(Raw) else if s == "qcow2" then Some(Qcow2) else None
  }

  function DetectFormat(file: string): Format {
    if EndsWith(file, ".qcow2") then Qcow2 else Raw
  }

  // ---- The command line -----------------------------------------------------------

  datatype Disk = Disk(file: string, name: string, format: Format)

  datatype SpecError = UnsupportedFormat(format: string)

  /** `file`, `file:name` or `file:name:format`. */
  function ParseSpec(spec: string): Result<Disk, SpecError> {
    match SplitOnce(spec, ":")
    case None => Ok(Disk(spec, "output", DetectFormat(spec)))
    case Some((file, rest)) =>
      match SplitOnce(rest, ":")
      case None => Ok(Disk(file, rest, DetectFormat(file)))
      case Some((name, format)) =>
        if FormatOf(format).Some? then Ok(Disk(file, name, FormatOf(format).value)) else Err(UnsupportedFormat(format))
  }

  function ParseSpecs(specs: seq<string>): Result<seq<Disk>, SpecError> {
    if specs == [] then Ok([])
    else
      var before := ParseSpecs(specs[..|specs| - 1]);
      if before.Err? then before
      else
        var last := ParseSpec(specs[|specs| - 1]);
        if last.Err? then Err(last.error) else Ok(before.value + [last.value])
  }

  lemma {:induction false} SpecErrorStays(specs: seq<string>, n: nat)
    requires n <= |specs| && ParseSpecs(specs[..n]).Err?
    ensures ParseSpecs(specs) == ParseSpecs(specs[..n])
  {
    if n == |specs| {
      assert specs[..n] == specs;
    } else {
      assert specs[..|specs| - 1][..n] == specs[..n];
      SpecErrorStays(specs[..|specs| - 1], n);
    }
  }

  /** The loop over the specifications; the first bad one ends it. */
  method ProcessDiskFiles(specs: seq<string>) returns (r: Result<seq<Disk>, SpecError>)
    ensures r == ParseSpecs(specs)
  {
    hide ParseSpec;
    var disks: seq<Disk> := [];
    assert specs[..|specs|] == specs;
    for i := 0 to |specs|
      invariant ParseSpecs(specs[..i]) == Ok(disks)
    {
      assert specs[..i + 1][..i] == specs[..i];
      var disk := ParseSpec(specs[i]);
      if disk.Err? {
        SpecErrorStays(specs, i + 1);
        return Err(disk.error);
      }
      disks := disks + [disk.value];
    }
    r := Ok(disks);
  }

  lemma ColonOccurs(s: string, i: nat)
    requires i < |s|
    ensures OccursAt(s, ":", i) <==> s[i] == ':'
  {
  }

  lemma BeforeColon(s: string)
    ensures SplitOnce(s, ":").Some? ==> NoChar(SplitOnce(s, ":").value.0, ':')
    ensures SplitOnce(s, ":").None? ==> NoChar(s, ':')
  {
    forall i | 0 <= i < |s|
      ensures OccursAt(s, ":", i) <==> s[i] == ':'
    {
      ColonOccurs(s, i);
    }
  }

  /** The parser leaves no colon in a name. */
  lemma {:induction false} NamesHaveNoColon(specs: seq<string>)
    requires ParseSpecs(specs).Ok?
    ensures forall d :: d in ParseSpecs(specs).value ==> NoChar(d.name, ':')
  {
    if specs != [] {
      NamesHaveNoColon(specs[..|specs| - 1]);
      var spec := specs[|specs| - 1];
      BeforeColon(spec);
      if SplitOnce(spec, ":").Some? {
        BeforeColon(SplitOnce(spec, ":").value.1);
      }
    }
  }

  lemma SplitAtColon(head: string, tail: string)
    requires NoChar(head, ':')
    ensures SplitOnce(head + ":" + tail, ":") == Some((head, tail))
  {
    var s := head + ":" + tail;
    forall j | 0 <= j < |head|
      ensures !OccursAt(s, ":", j)
    {
      assert s[j..j + 1] == [head[j]];
    }
    assert s[|head|..|head| + 1] == ":";
    assert OccursAt(s, ":", |head|);
    var r := SplitOnce(s, ":").value;
    assert OccursAt(s, ":", |r.0|) by {
      assert s[|r.0|..|r.0| + 1] == ":";
    }
    assert r.0 == s[..|head|] && r.1 == s[|head| + 1..];
  }

  /** Three parts with colons between them, the first two without one, split into those. */
  lemma SplitInThree(a: string, b: string, c: string)
    requires NoChar(a, ':') && NoChar(b, ':')
    ensures SplitOnce(a + ":" + b + ":" + c, ":") == Some((a, b + ":" + c)) && SplitOnce(b + ":" + c, ":") == Some((b, c))
  {
    hide SplitOnce;
    SplitAtColon(a, b + ":" + c);
    SplitAtColon(b, c);
    assert a + ":" + b + ":" + c == a + ":" + (b + ":" + c);
  }

  lemma NoColonNoSplit(s: string)
    requires NoChar(s, ':')
    ensures SplitOnce(s, ":") == None
  {
    forall i | 0 <= i <= |s|
      ensures !OccursAt(s, ":", i)
    {
      if i < |s| {
        ColonOccurs(s, i);
      }
    }
  }

  /** The extension alone decides the format that is assumed. */
  ghost predicate Assumed(file: string, format: Format) {
    format == if exists stem :: file == stem + ".qcow2" then Qcow2 else Raw
  }

  lemma DetectedIsAssumed(file: string)
    ensures Assumed(file, DetectFormat(file))
  {
    if EndsWith(file, ".qcow2") {
      assert file == file[..|file| - 6] + ".qcow2";
    }
    if stem :| file == stem + ".qcow2" {
      assert file[|stem|..] == ".qcow2";
    }
  }

  /** A specification composed of its parts is read back as those parts: the file alone, the
      file and a name, or all three, of which the format must be a known one. */
  lemma SpecReadBack(file: string, name: string, format: string)
    requires NoChar(file, ':') && NoChar(name, ':')
    ensures var r := ParseSpec(file);
            r.Ok? && r.value.file == file && r.value.name == "output" && Assumed(file, r.value.format)
    ensures var r := ParseSpec(file + ":" + name);
            r.Ok? && r.value.file == file && r.value.name == name && Assumed(file, r.value.format)
    ensures ParseSpec(file + ":" + name + ":" + format) ==
            if format == "raw" then Ok(Disk(file, name, Raw))
            else if format == "qcow2" then Ok(Disk(file, name, Qcow2))
            else Err(UnsupportedFormat(format))
  {
    DetectedIsAssumed(file);
    hide SplitOnce, DetectFormat, Assumed;
    NoColonNoSplit(file);
    NoColonNoSplit(name);
    SplitAtColon(file, name);
    SplitInThree(file, name, format);
    assert file + ":" + name + ":" + format == file + ":" + (name + ":" + format);
  }

  predicate Form(spec: string, file: string, name: string, format: string) {
    && NoChar(file, ':') && NoChar(name, ':')
    && (spec == file || spec == file + ":" + name || spec == file + ":" + name + ":" + format)
  }

  /** Every specification has one of the three forms. */
  lemma SpecForms(spec: string)
    ensures exists file, name, format :: Form(spec, file, name, format)
  {
    BeforeColon(spec);
    if SplitOnce(spec, ":").None? {
      assert Form(spec, spec, "", "");
    } else {
      var (file, rest) := SplitOnce(spec, ":").value;
      hide SplitOnce;
      RestForms(file, rest);
    }
  }

  lemma RestForms(file: string, rest: string)
    requires NoChar(file, ':')
    ensures exists name, format :: Form(file + ":" + rest, file, name, format)
  {
    BeforeColon(rest);
    if SplitOnce(rest, ":").None? {
      assert Form(file + ":" + rest, file, rest, "");
    } else {
      var (name, format) := SplitOnce(rest, ":").value;
      hide SplitOnce;
      assert file + ":" + rest == file + ":" + name + ":" + format;
      assert Form(file + ":" + rest, file, name, format);
    }
  }

  /** The disks come in the order of their specifications; the first bad one is the error. */
  lemma {:induction false} SpecsInOrder(specs: seq<string>)
    ensures var r := ParseSpecs(specs);
            && (r.Ok? <==> forall s :: s in specs ==> ParseSpec(s).Ok?)
            && (r.Ok? ==> |r.value| == |specs| && forall i :: 0 <= i < |specs| ==> Ok(r.value[i]) == ParseSpec(specs[i]))
            && (r.Err? ==> exists i :: 0 <= i < |specs| && ParseSpec(specs[i]) == Err(r.error)
                             && forall j :: 0 <= j < i ==> ParseSpec(specs[j]).Ok?)
  {
    hide ParseSpec;
    if specs != [] {
      var before := specs[..|specs| - 1];
      SpecsInOrder(before);
      assert specs == before + [specs[|specs| - 1]];
    }
  }

  // ---- Into the container ---------------------------------------------------------

  const DISK_DIR := "/run/disk-files/"

  /** What the container sees of a disk. */
  datatype Device = Device(file: string, serial: string, format: Format)

  function Seen(d: Disk): Device {
    Device(DISK_DIR + d.name, d.name, d.format)
  }

  function Entry(d: Disk): string {
    DISK_DIR + d.name + ":" + d.name + ":" + FormatName(d.format)
  }

  function Entries(disks: seq<Disk>): (r: seq<string>)
    ensures |r| == |disks| && forall i :: 0 <= i < |r| ==> r[i] == Entry(disks[i])
  {
    seq(|disks|, i requires 0 <= i < |disks| => Entry(disks[i]))
  }

  /** The value of the variable, set when there is at least one disk. */
  function Print(disks: seq<Disk>): string {
    Join(Entries(disks), ",")
  }

  /** `str::splitn(3, ':')` and what is made of the parts; a part alone is skipped. */
  function ParseEntry(entry: string): Option<Device> {
    match SplitOnce(entry, ":")
    case None => None
    case Some((file, rest)) =>
      match SplitOnce(rest, ":")
      case None => Some(Device(file, rest, DetectFormat(file)))
      case Some((name, format)) =>
        Some(Device(file, name, if FormatOf(format).Some? then FormatOf(format).value else DetectFormat(file)))
  }

  function Devices(entries: seq<string>): (r: seq<Device>)
    ensures forall d :: d in r ==> exists e :: e in entries && ParseEntry(e) == Some(d)
  {
    if entries == [] then []
    else
      var last := entries[|entries| - 1];
      var d := ParseEntry(last);
      Devices(entries[..|entries| - 1]) + if d.Some? then [d.value] else []
  }

  datatype DeviceError = MissingDisk(file: string, serial: string)

  /** The devices, or the first disk file that is not there. */
  function Recovered(entries: seq<string>, present: set<string>): (r: Result<seq<Device>, DeviceError>) {
    if entries == [] then Ok([])
    else
      var before, d := Recovered(entries[..|entries| - 1], present), ParseEntry(entries[|entries| - 1]);
      if before.Err? || d.None? then before
      else if d.value.file !in present then Err(MissingDisk(d.value.file, d.value.serial))
      else Ok(before.value + [d.value])
  }

  /** With every file in place the devices are those of the entries, in order; otherwise the
      first one without its file is the error. */
  lemma {:induction false} RecoveredDevices(entries: seq<string>, present: set<string>)
    ensures var all, r := Devices(entries), Recovered(entries, present);
            && (r.Ok? <==> forall d :: d in all ==> d.file in present)
            && (r.Ok? ==> r.value == all)
            && (r.Err? ==> exists i :: 0 <= i < |all| && r.error == MissingDisk(all[i].file, all[i].serial)
                             && all[i].file !in present && forall j :: 0 <= j < i ==> all[j].file in present)
  {
    hide ParseEntry;
    if entries != [] {
      var before := entries[..|entries| - 1];
      RecoveredDevices(before, present);
      var last := ParseEntry(entries[|entries| - 1]);
      assert Devices(entries) == Devices(before) + if last.Some? then [last.value] else [];
      assert forall j :: 0 <= j < |Devices(before)| ==> Devices(entries)[j] == Devices(before)[j];
      if Recovered(before, present).Ok? && last.Some? {
        assert Devices(entries)[|Devices(before)|] == last.value;
      }
    }
  }

  lemma {:induction false} MissingStays(entries: seq<string>, present: set<string>, n: nat)
    requires n <= |entries| && Recovered(entries[..n], present).Err?
    ensures Recovered(entries, present) == Recovered(entries[..n], present)
  {
    if n == |entries| {
      assert entries[..n] == entries;
    } else {
      assert entries[..|entries| - 1][..n] == entries[..n];
      MissingStays(entries[..|entries| - 1], present, n);
    }
  }

  /** The loop in the container, given the files that are there; the first missing disk file
      ends it. */
  method ParseDiskFiles(variable: string, present: set<string>) returns (r: Result<seq<Device>, DeviceError>)
    ensures r == Recovered(Split(variable, ','), present)
  {
    hide ParseEntry;
    var devices: seq<Device> := [];
    var entries := Split(variable, ',');
    assert entries[..|entries|] == entries;
    for i := 0 to |entries|
      invariant Recovered(entries[..i], present) == Ok(devices)
    {
      assert entries[..i + 1][..i] == entries[..i];
      var device := ParseEntry(entries[i]);
      if device.Some? {
        if device.value.file !in present {
          MissingStays(entries, present, i + 1);
          return Err(MissingDisk(device.value.file, device.value.serial));
        }
        devices := devices + [device.value];
      }
    }
    return Ok(devices);
  }

  // ---- The round trip -------------------------------------------------------------

  lemma FormatReadBack(f: Format)
    ensures FormatOf(FormatName(f)) == Some(f)
  {
  }

  lemma EntryReadBack(d: Disk)
    requires NoChar(d.name, ':')
    ensures ParseEntry(Entry(d)) == Some(Seen(d))
  {
    assert NoChar(DISK_DIR, ':');
    FormatReadBack(d.format);
    hide FormatName, FormatOf, SplitOnce;
    SplitInThree(DISK_DIR + d.name, d.name, FormatName(d.format));
  }

  /** An entry with an unknown format, or none, is taken by its extension; one without a name is
      skipped. */
  lemma EntryForms(file: string, name: string, format: string)
    requires NoChar(file, ':') && NoChar(name, ':')
    ensures ParseEntry(file).None?
    ensures var d := ParseEntry(file + ":" + name);
            d.Some? && d.value.file == file && d.value.serial == name && Assumed(file, d.value.format)
    ensures var d := ParseEntry(file + ":" + name + ":" + format);
            && d.Some? && d.value.file == file && d.value.serial == name
            && (format == "raw" ==> d.value.format == Raw) && (format == "qcow2" ==> d.value.format == Qcow2)
            && (format != "raw" && format != "qcow2" ==> Assumed(file, d.value.format))
  {
    DetectedIsAssumed(file);
    hide SplitOnce, DetectFormat, Assumed;
    NoColonNoSplit(file);
    NoColonNoSplit(name);
    SplitAtColon(file, name);
    SplitInThree(file, name, format);
    assert file + ":" + name + ":" + format == file + ":" + (name + ":" + format);
  }

  lemma {:induction false} DevicesOfEntries(disks: seq<Disk>)
    requires forall d :: d in disks ==> NoChar(d.name, ':')
    ensures Devices(Entries(disks)) == AllSeen(disks)
  {
    hide Entry, Seen, ParseEntry;
    if disks != [] {
      var before := disks[..|disks| - 1];
      DevicesOfEntries(before);
      assert Entries(disks)[..|disks| - 1] == Entries(before);
      EntryReadBack(disks[|disks| - 1]);
    }
  }

  lemma EntryHasNoComma(d: Disk)
    requires NoChar(d.name, ',')
    ensures NoChar(Entry(d), ',')
  {
  }

  /** A device the container finds has a comma-free name. */
  lemma FoundHasNoComma(variable: string, device: Device)
    requires device in Devices(Split(variable, ','))
    ensures NoChar(device.serial, ',')
  {
    var e :| e in Split(variable, ',') && ParseEntry(e) == Some(device);
    assert NoChar(e, ',');
    var (file, rest) := SplitOnce(e, ":").value;
    assert forall c :: c in rest ==> c in e;
    if SplitOnce(rest, ":").Some? {
      var (name, format) := SplitOnce(rest, ":").value;
      assert forall c :: c in name ==> c in rest;
    }
  }

  function AllSeen(disks: seq<Disk>): (r: seq<Device>)
    ensures |r| == |disks| && forall i :: 0 <= i < |r| ==> r[i] == Seen(disks[i])
  {
    seq(|disks|, i requires 0 <= i < |disks| => Seen(disks[i]))
  }

  lemma EntriesSurvive(disks: seq<Disk>)
    requires disks != [] && forall d :: d in disks ==> NoChar(d.name, ':')
    ensures Devices(Split(Print(disks), ',')) == AllSeen(disks) <==> forall d :: d in disks ==> NoChar(d.name, ',')
  {
    hide Entry, ParseEntry, NoChar, Split;
    if forall d :: d in disks ==> NoChar(d.name, ',') {
      forall e | e in Entries(disks)
        ensures NoChar(e, ',')
      {
        var i :| 0 <= i < |disks| && Entries(disks)[i] == e;
        EntryHasNoComma(disks[i]);
      }
      SplitJoin(Entries(disks), ',');
      DevicesOfEntries(disks);
    }
    if Devices(Split(Print(disks), ',')) == AllSeen(disks) {
      forall d | d in disks
        ensures NoChar(d.name, ',')
      {
        var i :| 0 <= i < |disks| && disks[i] == d;
        assert AllSeen(disks)[i] == Seen(d);
        FoundHasNoComma(Print(disks), Seen(d));
      }
    }
  }

  /** For every accepted list of disks whose files are in the container under their names, the
      container recovers the same paths, names and formats in the same order exactly when no
      name holds a comma. */
  lemma DisksSurvive(specs: seq<string>, present: set<string>)
    requires ParseSpecs(specs).Ok? && specs != []
    requires forall d :: d in ParseSpecs(specs).value ==> DISK_DIR + d.name in present
    ensures var disks := ParseSpecs(specs).value;
            Recovered(Split(Print(disks), ','), present) == Ok(AllSeen(disks)) <==>
            forall d :: d in disks ==> NoChar(d.name, ',')
  {
    var disks := ParseSpecs(specs).value;
    assert disks != [];
    NamesHaveNoColon(specs);
    hide ParseSpecs, NoChar, Split, Print, Recovered, Devices;
    EntriesSurvive(disks);
    RecoveredDevices(Split(Print(disks), ','), present);
    forall s | s in AllSeen(disks)
      ensures s.file in present
    {
      var i :| 0 <= i < |disks| && AllSeen(disks)[i] == s;
      assert disks[i] in disks;
    }
  }
}
