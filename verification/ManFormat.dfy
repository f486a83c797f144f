/** The text generated for a manual page's regions. Help texts without an opening bracket
    give text without a marker, so the pass over the page settles. */
module ManFormat {
  import opened Wrappers
  import opened Text
  import opened ManPages
  import ManSync

  datatype CliOption = CliOption(long: string, short: Option<string>, valueName: Option<string>, default: Option<string>,
                                 help: string, possibleValues: seq<string>)

  /** A positional argument, its name already in capitals. */
  datatype CliPositional = CliPositional(name: string, help: Option<string>, required: bool)

  datatype CliCommand = CliCommand(name: string, about: Option<string>)

  predicate Plain(s: string) {
    '<' !in s
  }

  predicate PlainText(s: Option<string>) {
    s.Some? ==> Plain(s.value)
  }

  predicate PlainOption(o: CliOption) {
    Plain(o.long) && PlainText(o.short) && PlainText(o.valueName) && PlainText(o.default) && Plain(o.help)
    && forall v :: v in o.possibleValues ==> Plain(v)
  }

  predicate PlainPositional(p: CliPositional) {
    Plain(p.name) && PlainText(p.help)
  }

  predicate PlainCommand(c: CliCommand) {
    Plain(c.name) && PlainText(c.about)
  }

  // ---- Options --------------------------------------------------------------------

  function FormatPositional(p: CliPositional): (r: string)
    ensures PlainPositional(p) ==> Plain(r)
  {
    "**" + p.name + "**\n\n"
    + (if p.help.Some? then "    " + p.help.value + "\n\n" else "")
    + if p.required then "    This argument is required.\n\n" else ""
  }

  function FlagLine(o: CliOption): (r: string)
    ensures PlainOption(o) ==> Plain(r)
  {
    (if o.short.Some? then "**-" + o.short.value + "**, " else "")
    + "**--" + o.long + "**"
    + if o.valueName.Some? then "=*" + o.valueName.value + "*" else ""
  }

  function ValueLines(values: seq<string>): (r: string)
    ensures (forall v :: v in values ==> Plain(v)) ==> Plain(r)
  {
    if values == [] then ""
    else
      var before, last := values[..|values| - 1], values[|values| - 1];
      assert last in values && forall v :: v in before ==> v in values;
      ValueLines(before) + "    - " + last + "\n"
  }

  function ValuePart(values: seq<string>): (r: string)
    ensures (forall v :: v in values ==> Plain(v)) ==> Plain(r)
  {
    if values == [] then "" else "    Possible values:\n" + ValueLines(values) + "\n"
  }

  function FormatOption(o: CliOption): (r: string)
    ensures PlainOption(o) ==> Plain(r)
  {
    FlagLine(o) + "\n\n" + "    " + o.help + "\n\n" + ValuePart(o.possibleValues)
    + if o.default.Some? then "    Default: " + o.default.value + "\n\n" else ""
  }

  function FormatPositionals(positionals: seq<CliPositional>): (r: string)
    ensures (forall p :: p in positionals ==> PlainPositional(p)) ==> Plain(r)
  {
    if positionals == [] then ""
    else FormatPositionals(positionals[..|positionals| - 1]) + FormatPositional(positionals[|positionals| - 1])
  }

  function FormatOptions(options: seq<CliOption>): (r: string)
    ensures (forall o :: o in options ==> PlainOption(o)) ==> Plain(r)
  {
    if options == [] then "" else FormatOptions(options[..|options| - 1]) + FormatOption(options[|options| - 1])
  }

  /** The positional arguments first, then the options. */
  method FormatOptionsAsMarkdown(options: seq<CliOption>, positionals: seq<CliPositional>) returns (result: string)
    ensures result == FormatPositionals(positionals) + FormatOptions(options)
    ensures (forall o :: o in options ==> PlainOption(o)) && (forall p :: p in positionals ==> PlainPositional(p))
            ==> NoMarks(result)
  {
    hide FormatPositional, FormatOption;
    result := "";
    assert positionals[..|positionals|] == positionals && options[..|options|] == options;
    for i := 0 to |positionals|
      invariant result == FormatPositionals(positionals[..i])
    {
      assert positionals[..i + 1][..i] == positionals[..i];
      result := result + FormatPositional(positionals[i]);
    }
    ghost var first := result;
    for i := 0 to |options|
      invariant result == first + FormatOptions(options[..i])
    {
      assert options[..i + 1][..i] == options[..i];
      result := result + FormatOption(options[i]);
    }
    PlainHasNoMarks(result);
  }

  lemma PlainHasNoMarks(s: string)
    ensures Plain(s) ==> NoMarks(s)
  {
    if Plain(s) {
      forall m: Marker
        ensures !Contains(s, Mark(m))
      {
        PlainNoMark(s, m);
      }
    }
  }

  // ---- Subcommands ----------------------------------------------------------------

  /** `trim_end_matches('.')`. */
  function TrimDots(s: string): (r: string)
    ensures forall c :: c in r ==> c in s
    ensures r <= s && (r != "" ==> r[|r| - 1] != '.')
    ensures forall i :: |r| <= i < |s| ==> s[i] == '.'
  {
    if s != "" && s[|s| - 1] == '.' then TrimDots(s[..|s| - 1]) else s
  }

  function Row(c: CliCommand, parents: seq<string>): string {
    "| **" + Join(["bcvk"] + parents + [c.name], " ") + "** | "
    + (if c.about.Some? then TrimDots(c.about.value) else "") + " |\n"
  }

  function Rows(commands: seq<CliCommand>, parents: seq<string>): string {
    if commands == [] then "" else Rows(commands[..|commands| - 1], parents) + Row(commands[|commands| - 1], parents)
  }

  const TABLE_HEAD := "| Command | Description |\n" + "|---------|-------------|\n"

  function Table(commands: seq<CliCommand>, parents: seq<string>): string {
    if commands == [] then "" else TABLE_HEAD + Rows(commands, parents) + "\n"
  }

  lemma {:induction false} JoinPlain(parts: seq<string>)
    requires forall p :: p in parts ==> Plain(p)
    ensures Plain(Join(parts, " "))
  {
    if parts != [] {
      assert parts[0] in parts;
      JoinPlain(parts[1..]);
    }
  }

  lemma RowPlain(c: CliCommand, parents: seq<string>)
    requires PlainCommand(c) && forall p :: p in parents ==> Plain(p)
    ensures Plain(Row(c, parents))
  {
    JoinPlain(["bcvk"] + parents + [c.name]);
    hide Join, TrimDots;
  }

  lemma {:induction false} RowsPlain(commands: seq<CliCommand>, parents: seq<string>)
    requires (forall c :: c in commands ==> PlainCommand(c)) && forall p :: p in parents ==> Plain(p)
    ensures Plain(Rows(commands, parents))
  {
    hide Row, PlainCommand;
    if commands != [] {
      RowsPlain(commands[..|commands| - 1], parents);
      RowPlain(commands[|commands| - 1], parents);
    }
  }

  lemma TableHeadPlain()
    ensures Plain(TABLE_HEAD)
  {
    assert Plain("| Command | Description |\n");
    assert Plain("|---------|-------------|\n");
  }

  lemma TableHasNoMarks(commands: seq<CliCommand>, parents: seq<string>)
    requires (forall c :: c in commands ==> PlainCommand(c)) && forall p :: p in parents ==> Plain(p)
    ensures NoMarks(Table(commands, parents))
  {
    PlainHasNoMarks(Table(commands, parents));
    RowsPlain(commands, parents);
    TableHeadPlain();
    hide Rows, NoMarks;
    PlainAround(TABLE_HEAD, Rows(commands, parents), "\n");
  }

  lemma PlainAround(a: string, b: string, c: string)
    requires Plain(a) && Plain(b) && Plain(c)
    ensures Plain(a + b + c)
  {
  }

  method FormatSubcommandsAsTable(commands: seq<CliCommand>, parents: seq<string>) returns (result: string)
    ensures result == Table(commands, parents)
    ensures (forall c :: c in commands ==> PlainCommand(c)) && (forall p :: p in parents ==> Plain(p)) ==> NoMarks(result)
  {
    hide Row, NoMarks, Plain, PlainCommand;
    if (forall c :: c in commands ==> PlainCommand(c)) && (forall p :: p in parents ==> Plain(p)) {
      TableHasNoMarks(commands, parents);
    }
    result := "";
    if commands != [] {
      var head := TABLE_HEAD;
      result := FormatRows(commands, parents, head);
      result := result + "\n";
    }
  }

  method FormatRows(commands: seq<CliCommand>, parents: seq<string>, head: string) returns (result: string)
    ensures result == head + Rows(commands, parents)
  {
    hide Row;
    result := head;
    assert commands[..|commands|] == commands;
    for i := 0 to |commands|
      invariant result == head + Rows(commands[..i], parents)
    {
      assert commands[..i + 1][..i] == commands[..i];
      result := result + Row(commands[i], parents);
    }
  }

  // ---- The text line by line ------------------------------------------------------

  /** Every line with its end. */
  function Ended(lines: seq<string>): string {
    if lines == [] then "" else lines[0] + "\n" + Ended(lines[1..])
  }

  lemma {:induction false} EndedAppend(a: seq<string>, b: seq<string>)
    ensures Ended(a + b) == Ended(a) + Ended(b)
  {
    if a == [] {
      assert a + b == b;
    } else {
      assert (a + b)[1..] == a[1..] + b;
      EndedAppend(a[1..], b);
    }
  }

  lemma EndedOne(line: string)
    ensures Ended([line]) == line + "\n"
  {
    assert [line][1..] == [];
  }

  /** The lines of a text are found again, when none holds a line end itself. */
  lemma {:induction false} LinesReadBack(lines: seq<string>)
    requires forall line :: line in lines ==> NoChar(line, '\n')
    ensures Split(Ended(lines), '\n') == lines + [""]
  {
    if lines != [] {
      LinesReadBack(lines[1..]);
      SplitHead(lines[0], '\n', Ended(lines[1..]));
      assert lines == [lines[0]] + lines[1..];
    }
  }

  /** What stands under an option: its flags, then its help, its possible values and its
      default, indented, each block followed by an empty line. */
  function OptionLines(o: CliOption): seq<string> {
    var flag := "**--" + o.long + "**";
    var named := if o.valueName.Some? then flag + "=*" + o.valueName.value + "*" else flag;
    [if o.short.Some? then "**-" + o.short.value + "**, " + named else named, "", "    " + o.help, ""]
    + ValueBlock(o.possibleValues) + DefaultBlock(o.default)
  }

  function ValueBlock(values: seq<string>): seq<string> {
    if values != [] then ["    Possible values:"] + Bullets(values) + [""] else []
  }

  function DefaultBlock(default: Option<string>): seq<string> {
    if default.Some? then ["    Default: " + default.value, ""] else []
  }

  function Bullets(values: seq<string>): (r: seq<string>)
    ensures |r| == |values| && forall i :: 0 <= i < |r| ==> r[i] == "    - " + values[i]
  {
    seq(|values|, i requires 0 <= i < |values| => "    - " + values[i])
  }

  function HelpBlock(help: Option<string>): seq<string> {
    if help.Some? then ["    " + help.value, ""] else []
  }

  function RequiredBlock(required: bool): seq<string> {
    if required then ["    This argument is required.", ""] else []
  }

  function PositionalLines(p: CliPositional): seq<string> {
    ["**" + p.name + "**", ""] + HelpBlock(p.help) + RequiredBlock(p.required)
  }

  function AllOptionLines(options: seq<CliOption>): seq<string> {
    if options == [] then [] else OptionLines(options[0]) + AllOptionLines(options[1..])
  }

  function AllPositionalLines(positionals: seq<CliPositional>): seq<string> {
    if positionals == [] then [] else PositionalLines(positionals[0]) + AllPositionalLines(positionals[1..])
  }

  lemma BulletsLast(values: seq<string>)
    requires values != []
    ensures Bullets(values) == Bullets(values[..|values| - 1]) + ["    - " + values[|values| - 1]]
  {
  }

  lemma {:induction false} BulletText(values: seq<string>)
    ensures ValueLines(values) == Ended(Bullets(values))
  {
    if values != [] {
      var n := |values| - 1;
      var line := "    - " + values[n];
      BulletText(values[..n]);
      BulletsLast(values);
      assert ValueLines(values) == ValueLines(values[..n]) + (line + "\n");
      hide *;
      EndedAppend(Bullets(values[..n]), [line]);
      EndedOne(line);
    }
  }

  lemma ValueText(values: seq<string>, title: string)
    ensures title + "\n" + ValueLines(values) + "\n" == Ended([title] + Bullets(values) + [""])
  {
    BulletText(values);
    EndedOne(title);
    EndedOne("");
    hide Ended, Bullets, ValueLines;
    EndedAppend([title], Bullets(values));
    EndedAppend([title] + Bullets(values), [""]);
  }

  lemma TwoLines(line: string)
    ensures Ended([line, ""]) == line + "\n\n"
  {
    EndedOne(line);
    EndedOne("");
    EndedAppend([line], [""]);
    assert [line, ""] == [line] + [""];
  }

  lemma OptionText(o: CliOption)
    ensures FormatOption(o) == Ended(OptionLines(o))
  {
    FlagText(o);
    ValuePartText(o.possibleValues);
    DefaultText(o.default);
    var help := "    " + o.help;
    hide *;
    TwoLines(FlagLine(o));
    TwoLines(help);
    OptionParts(o);
    var first, second := [FlagLine(o), ""], [help, ""];
    EndedAppend(first, second);
    EndedAppend(first + second, ValueBlock(o.possibleValues));
    EndedAppend(first + second + ValueBlock(o.possibleValues), DefaultBlock(o.default));
  }

  lemma OptionParts(o: CliOption)
    ensures OptionLines(o) ==
            [FlagLine(o), ""] + ["    " + o.help, ""] + ValueBlock(o.possibleValues) + DefaultBlock(o.default)
    ensures FormatOption(o) ==
            (FlagLine(o) + "\n\n") + ("    " + o.help + "\n\n") + ValuePart(o.possibleValues)
            + if o.default.Some? then "    Default: " + o.default.value + "\n\n" else ""
  {
    FlagText(o);
    hide FlagLine, ValuePart, Bullets;
  }

  lemma FlagText(o: CliOption)
    ensures OptionLines(o)[0] == FlagLine(o)
  {
    hide Bullets;
  }

  lemma ValuePartText(values: seq<string>)
    ensures ValuePart(values) == Ended(ValueBlock(values))
  {
    if values != [] {
      ValueText(values, "    Possible values:");
      hide Ended, Bullets, ValueLines;
    }
  }

  lemma DefaultText(default: Option<string>)
    ensures Ended(DefaultBlock(default)) == if default.Some? then "    Default: " + default.value + "\n\n" else ""
  {
    if default.Some? {
      TwoLines("    Default: " + default.value);
      hide Ended;
    }
  }

  lemma PositionalText(p: CliPositional)
    ensures FormatPositional(p) == Ended(PositionalLines(p))
  {
    var name := "**" + p.name + "**";
    HelpText(p.help);
    RequiredText(p.required);
    PositionalParts(p);
    hide *;
    TwoLines(name);
    EndedAppend([name, ""], HelpBlock(p.help));
    EndedAppend([name, ""] + HelpBlock(p.help), RequiredBlock(p.required));
  }

  lemma PositionalParts(p: CliPositional)
    ensures PositionalLines(p) == ["**" + p.name + "**", ""] + HelpBlock(p.help) + RequiredBlock(p.required)
    ensures FormatPositional(p) ==
            ("**" + p.name + "**" + "\n\n") + (if p.help.Some? then "    " + p.help.value + "\n\n" else "")
            + if p.required then "    This argument is required.\n\n" else ""
  {
  }

  lemma RequiredText(required: bool)
    ensures Ended(RequiredBlock(required)) == if required then "    This argument is required.\n\n" else ""
  {
    if required {
      TwoLines("    This argument is required.");
      hide Ended;
    }
  }

  lemma HelpText(help: Option<string>)
    ensures Ended(HelpBlock(help)) == if help.Some? then "    " + help.value + "\n\n" else ""
  {
    if help.Some? {
      TwoLines("    " + help.value);
      hide Ended;
    }
  }

  lemma {:induction false} OptionsText(options: seq<CliOption>)
    ensures FormatOptions(options) == Ended(AllOptionLines(options))
  {
    hide FormatOption, OptionLines;
    if options != [] {
      var n := |options| - 1;
      OptionsText(options[..n]);
      OptionText(options[n]);
      AllOptionLinesLast(options);
      EndedAppend(AllOptionLines(options[..n]), OptionLines(options[n]));
    }
  }

  lemma {:induction false} AllOptionLinesLast(options: seq<CliOption>)
    requires options != []
    ensures AllOptionLines(options) == AllOptionLines(options[..|options| - 1]) + OptionLines(options[|options| - 1])
  {
    hide OptionLines;
    var n := |options| - 1;
    if n > 0 {
      AllOptionLinesLast(options[1..]);
      assert options[1..][..n - 1] == options[..n][1..];
    } else {
      assert options[1..] == [];
    }
  }

  lemma {:induction false} PositionalsText(positionals: seq<CliPositional>)
    ensures FormatPositionals(positionals) == Ended(AllPositionalLines(positionals))
  {
    hide FormatPositional, PositionalLines;
    if positionals != [] {
      var n := |positionals| - 1;
      PositionalsText(positionals[..n]);
      PositionalText(positionals[n]);
      AllPositionalLinesLast(positionals);
      EndedAppend(AllPositionalLines(positionals[..n]), PositionalLines(positionals[n]));
    }
  }

  lemma {:induction false} AllPositionalLinesLast(positionals: seq<CliPositional>)
    requires positionals != []
    ensures AllPositionalLines(positionals) ==
            AllPositionalLines(positionals[..|positionals| - 1]) + PositionalLines(positionals[|positionals| - 1])
  {
    hide PositionalLines;
    var n := |positionals| - 1;
    if n > 0 {
      AllPositionalLinesLast(positionals[1..]);
      assert positionals[1..][..n - 1] == positionals[..n][1..];
    } else {
      assert positionals[1..] == [];
    }
  }

  /** The text generated for a command's options, line by line: the arguments, then the
      options, each with all it has to say and nothing else, in order. */
  lemma OptionTextReadBack(options: seq<CliOption>, positionals: seq<CliPositional>)
    ensures var text := FormatPositionals(positionals) + FormatOptions(options);
            var lines := AllPositionalLines(positionals) + AllOptionLines(options);
            && text == Ended(lines)
            && ((forall line :: line in lines ==> NoChar(line, '\n')) ==> Split(text, '\n') == lines + [""])
  {
    OptionsText(options);
    PositionalsText(positionals);
    var lines := AllPositionalLines(positionals) + AllOptionLines(options);
    hide FormatOptions, FormatPositionals, AllOptionLines, AllPositionalLines, Ended, Split;
    EndedAppend(AllPositionalLines(positionals), AllOptionLines(options));
    if forall line :: line in lines ==> NoChar(line, '\n') {
      LinesReadBack(lines);
    }
  }

  /** The names of the commands above, each with a space. */
  function Spaced(parents: seq<string>): string {
    if parents == [] then "" else parents[0] + " " + Spaced(parents[1..])
  }

  lemma {:induction false} JoinPath(parents: seq<string>, name: string)
    ensures Join(parents + [name], " ") == Spaced(parents) + name
  {
    if parents == [] {
      assert parents + [name] == [name];
    } else {
      assert (parents + [name])[1..] == parents[1..] + [name];
      JoinPath(parents[1..], name);
    }
  }

  /** A row names the whole path of the command and gives its description without the dots at
      its end. */
  function RowLine(c: CliCommand, parents: seq<string>): string {
    "| **bcvk " + Spaced(parents) + c.name + "** | " + (if c.about.Some? then TrimDots(c.about.value) else "") + " |"
  }

  function RowLines(commands: seq<CliCommand>, parents: seq<string>): (r: seq<string>)
    ensures |r| == |commands| && forall i :: 0 <= i < |r| ==> r[i] == RowLine(commands[i], parents)
  {
    seq(|commands|, i requires 0 <= i < |commands| => RowLine(commands[i], parents))
  }

  lemma RowText(c: CliCommand, parents: seq<string>)
    ensures Row(c, parents) == RowLine(c, parents) + "\n"
  {
    CommandPath(parents, c.name);
    var text := if c.about.Some? then TrimDots(c.about.value) else "";
    RowOf(c, parents, "bcvk " + Spaced(parents) + c.name, text);
    RowPrefix(Spaced(parents), c.name, text);
    hide Row, Spaced, TrimDots;
  }

  lemma CommandPath(parents: seq<string>, name: string)
    ensures Join(["bcvk"] + parents + [name], " ") == "bcvk " + Spaced(parents) + name
  {
    JoinPath(["bcvk"] + parents, name);
    assert (["bcvk"] + parents)[1..] == parents;
  }

  lemma RowOf(c: CliCommand, parents: seq<string>, path: string, text: string)
    requires Join(["bcvk"] + parents + [c.name], " ") == path
    requires text == if c.about.Some? then TrimDots(c.about.value) else ""
    ensures Row(c, parents) == "| **" + path + "** | " + text + " |\n"
  {
    hide Join, TrimDots;
  }

  lemma RowPrefix(above: string, name: string, text: string)
    ensures "| **" + ("bcvk " + above + name) + "** | " + text + " |\n" == "| **bcvk " + above + name + "** | " + text + " |" + "\n"
  {
    assert "| **" + ("bcvk " + above + name) == "| **bcvk " + above + name;
  }

  lemma {:induction false} RowsText(commands: seq<CliCommand>, parents: seq<string>)
    ensures Rows(commands, parents) == Ended(RowLines(commands, parents))
  {
    hide Row, RowLine;
    if commands != [] {
      var n := |commands| - 1;
      RowsText(commands[..n], parents);
      RowText(commands[n], parents);
      assert RowLines(commands, parents) == RowLines(commands[..n], parents) + [RowLine(commands[n], parents)];
      EndedAppend(RowLines(commands[..n], parents), [RowLine(commands[n], parents)]);
      EndedOne(RowLine(commands[n], parents));
    }
  }

  /** The table is its two head lines, one row for each command in order, and an empty line;
      without commands there is none. */
  lemma TableReadBack(commands: seq<CliCommand>, parents: seq<string>)
    ensures Table(commands, parents) ==
            if commands == [] then ""
            else Ended(["| Command | Description |", "|---------|-------------|"] + RowLines(commands, parents) + [""])
  {
    RowsText(commands, parents);
    HeadedLines("| Command | Description |", "|---------|-------------|", RowLines(commands, parents));
    hide Ended, Rows, RowLines;
  }

  lemma HeadedLines(first: string, second: string, lines: seq<string>)
    ensures Ended([first, second] + lines + [""]) == (first + "\n" + (second + "\n")) + Ended(lines) + "\n"
  {
    EndedOne(first);
    EndedOne(second);
    EndedOne("");
    hide Ended;
    EndedAppend([first], [second]);
    assert [first] + [second] == [first, second];
    EndedAppend([first, second], lines);
    EndedAppend([first, second] + lines, [""]);
  }

  // ---- The pass -------------------------------------------------------------------

  function OptionsOf(options: seq<CliOption>, positionals: seq<CliPositional>): Options {
    Options(options != [] || positionals != [], FormatPositionals(positionals) + FormatOptions(options))
  }

  lemma OptionsHaveNoMarks(options: seq<CliOption>, positionals: seq<CliPositional>)
    requires forall o :: o in options ==> PlainOption(o)
    requires forall p :: p in positionals ==> PlainPositional(p)
    ensures NoMarks(OptionsOf(options, positionals).text)
    ensures OptionsOf(options, positionals).any <==> options != [] || positionals != []
  {
    PlainHasNoMarks(OptionsOf(options, positionals).text);
    hide FormatOptions, FormatPositionals, NoMarks, PlainOption, PlainPositional;
  }

  /** A command line whose texts hold no opening bracket: once its page has been brought in
      step, with the options first and at least one option or argument, the next pass writes
      nothing. */
  lemma NextPassWritesNothing(x: string, r: string, y: string, m: string, z: string, options: seq<CliOption>,
                              positionals: seq<CliPositional>, commands: seq<CliCommand>, parents: seq<string>)
    requires ManSync.OptionsFirst(x, r, y, m) && (options != [] || positionals != [])
    requires forall o :: o in options ==> PlainOption(o)
    requires forall p :: p in positionals ==> PlainPositional(p)
    requires (forall c :: c in commands ==> PlainCommand(c)) && forall p :: p in parents ==> Plain(p)
    ensures var o, table := OptionsOf(options, positionals), Table(commands, parents);
            var synced := Sync(ManSync.OptionsFirstPage(x, r, y, m, z), o, table).content;
            Sync(synced, o, table) == Synced(synced, None)
  {
    var o, table := OptionsOf(options, positionals), Table(commands, parents);
    hide Sync, NoMarks, Table, OptionsOf, ManSync.OptionsFirst, PlainCommand;
    TableHasNoMarks(commands, parents);
    OptionsHaveNoMarks(options, positionals);
    ManSync.FixedPointOptionsFirst(x, r, y, m, z, o, table);
  }
}
