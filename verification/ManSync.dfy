/** The whole pass over a manual page: its fixed point, for either order of the regions. */
module ManSync {
  import opened Wrappers
  import opened Text
  import opened ManPages

  // ---- Pages with both regions ----------------------------------------------------

  /** Options region `r`, then subcommands region `m`, with the texts around them. */
  function OptionsFirstPage(x: string, r: string, y: string, m: string, z: string): string {
    Assemble(x, BeginOptions, r, EndOptions, y + Mark(BeginSubcommands) + (m + Mark(EndSubcommands) + z))
  }

  /** The two regions are the first of their kinds and do not overlap. */
  predicate OptionsFirst(x: string, r: string, y: string, m: string) {
    && !Contains(x, Mark(BeginOptions)) && !Contains(r, Mark(EndOptions))
    && !Contains(x + Mark(BeginOptions) + (r + Mark(EndOptions) + y), Mark(BeginSubcommands))
    && !Contains(m, Mark(EndSubcommands))
  }

  /** Subcommands region `m`, then options region `r`. */
  function SubcommandsFirstPage(x: string, m: string, y: string, r: string, z: string): string {
    Assemble(x, BeginSubcommands, m, EndSubcommands, y + Mark(BeginOptions) + (r + Mark(EndOptions) + z))
  }

  predicate SubcommandsFirst(x: string, m: string, y: string, r: string) {
    && !Contains(x, Mark(BeginSubcommands)) && !Contains(m, Mark(EndSubcommands))
    && !Contains(x + Mark(BeginSubcommands) + (m + Mark(EndSubcommands) + y), Mark(BeginOptions))
    && !Contains(r, Mark(EndOptions))
  }

  predicate Clean(o: Options, table: string) {
    NoMarks(o.text) && NoMarks(table)
  }

  // ---- Text around the regions ----------------------------------------------------

  lemma Associate(a: string, b: string, c: string)
    ensures a + b + c == a + (b + c)
  {
  }

  /** After a marker's closing bracket, trimming and stripping only touch what follows. */
  lemma TrimAfterMark(u: string, y: string)
    requires u != "" && u[|u| - 1] == '>'
    ensures TrimEnd(u + y) == u + TrimEnd(y)
  {
    var t := TrimEnd(y);
    TrimEndUnique(u + y, u + t);
  }

  lemma EndAfterMark(u: string, t: string, h: string)
    requires u != "" && u[|u| - 1] == '>' && '>' !in h
    ensures EndsWith(u + t, h) <==> EndsWith(t, h)
    ensures EndsWith(t, h) ==> |h| <= |t| && (u + t)[..|u + t| - |h|] == u + t[..|t| - |h|]
  {
    var s := u + t;
    if |h| <= |t| {
      assert s[|s| - |h|..] == t[|t| - |h|..];
    } else if |h| <= |s| {
      assert s[|s| - |h|..][|h| - |t| - 1] == '>';
    }
  }

  lemma CutAfterMark(u: string, t: string, h: string)
    requires u != "" && u[|u| - 1] == '>' && '>' !in h
    ensures CutEnd(u + t, h) == u + CutEnd(t, h)
  {
    hide EndsWith, TrimEnd;
    EndAfterMark(u, t, h);
    if EndsWith(t, h) {
      TrimAfterMark(u, t[..|t| - |h|]);
    }
  }

  lemma StripAfterMark(u: string, y: string)
    requires u != "" && u[|u| - 1] == '>'
    ensures StripHeader(u + y) == u + StripHeader(y)
  {
    hide TrimEnd, CutEnd;
    assert '>' !in HEADER;
    TrimAfterMark(u, y);
    CutAfterMark(u, TrimEnd(y), HEADER);
  }

  lemma MarkEnds(u: string, m: Marker)
    ensures var s := u + Mark(m); s != "" && s[|s| - 1] == '>'
  {
  }

  /** New text before, between and inside the regions brings in no mark. */
  lemma PiecesNoMark(p: string, first: Marker, body: string, end: string, m: Marker)
    requires !Contains(p, Mark(m)) && !Contains(body, Mark(m)) && !Contains(end, Mark(m)) && first != m
    requires body != "" && body[0] == '\n' && end != "" && end[0] == '<'
    ensures !Contains(p + Mark(first) + (body + end), Mark(m))
  {
    MarkersApart(first, m);
    MarkerShape(first);
    hide Mark, Contains;
    JoinNoMark(body, end, m);
    JoinNoMark(Mark(first), body + end, m);
    JoinNoMark(p, Mark(first) + (body + end), m);
    Associate(p, Mark(first), body + end);
  }

  lemma BlankNoMark(b: string, m: Marker)
    requires !Contains(b, Mark(m))
    ensures !Contains(b + "\n\n", Mark(m))
  {
    PlainNoMark("\n\n", m);
    JoinNoMark(b, "\n\n", m);
  }

  /** The parts of a text that holds no mark hold none: what is before the first region, and
      what follows its inside. */
  lemma OuterParts(x: string, first: Marker, inside: string, end: Marker, y: string, m: Marker)
    requires !Contains(x + Mark(first) + (inside + Mark(end) + y), Mark(m))
    ensures !Contains(x, Mark(m)) && !Contains(Mark(end) + y, Mark(m))
  {
    hide Mark, Contains;
    var e := Mark(end) + y;
    Associate(inside, Mark(end), y);
    Associate(x, Mark(first), inside + e);
    Associate(x, Mark(first) + inside, e);
    Associate(Mark(first), inside, e);
    var s := x + Mark(first) + (inside + Mark(end) + y);
    assert s == "" + x + (Mark(first) + (inside + e));
    PartNoMark("", x, Mark(first) + (inside + e), m);
    assert s == x + (Mark(first) + inside) + e;
    assert s == (x + (Mark(first) + inside)) + e + "";
    PartNoMark(x + (Mark(first) + inside), e, "", m);
  }

  lemma EndPart(end: Marker, y: string, kept: string, m: Marker)
    requires kept <= y && !Contains(Mark(end) + y, Mark(m))
    ensures !Contains(Mark(end) + kept, Mark(m))
  {
    hide Mark, Contains;
    PrefixNoMark(Mark(end) + kept, Mark(end) + y, m);
  }

  // ---- Options first --------------------------------------------------------------

  function OptionsFirstSynced(x: string, y: string, z: string, o: Options, table: string): string {
    OptionsFirstPage(StripHeader(x) + Lead(o), OptionsBody(o), TrimEnd(y) + "\n\n", "\n" + table, z)
  }

  lemma PageAsSubcommands(x: string, r: string, y: string, m: string, z: string)
    ensures OptionsFirstPage(x, r, y, m, z) ==
            Assemble(x + Mark(BeginOptions) + (r + Mark(EndOptions) + y), BeginSubcommands, m, EndSubcommands, z)
  {
  }

  /** The new options region is still the first of its kind, and before the other. */
  lemma OptionsFirstKept(x: string, r: string, y: string, kept: string, m: string, o: Options)
    requires OptionsFirst(x, r, y, m) && NoMarks(o.text) && kept <= y
    ensures !Contains(StripHeader(x) + Lead(o), Mark(BeginOptions))
    ensures !Contains(OptionsBody(o), Mark(EndOptions))
    ensures !Contains(StripHeader(x) + Lead(o) + Mark(BeginOptions) + (OptionsBody(o) + Mark(EndOptions) + kept),
                      Mark(BeginSubcommands))
  {
    OuterParts(x, BeginOptions, r, EndOptions, y, BeginSubcommands);
    MarkerShape(EndOptions);
    hide Mark, Contains, StripHeader;
    var b := StripHeader(x);
    PrefixNoMark(b, x, BeginOptions);
    PrefixNoMark(b, x, BeginSubcommands);
    LeadNoMark(b, o, BeginOptions);
    LeadNoMark(b, o, BeginSubcommands);
    BodyNoMark(o, EndOptions);
    BodyNoMark(o, BeginSubcommands);
    EndPart(EndOptions, y, kept, BeginSubcommands);
    PiecesNoMark(b + Lead(o), BeginOptions, OptionsBody(o), Mark(EndOptions) + kept, BeginSubcommands);
    Associate(OptionsBody(o), Mark(EndOptions), kept);
  }

  /** One pass over a page with the options first: only the two insides, the options header
      and the blank space before each region change. */
  lemma SyncOptionsFirst(x: string, r: string, y: string, m: string, z: string, o: Options, table: string)
    requires OptionsFirst(x, r, y, m) && NoMarks(o.text)
    ensures Sync(OptionsFirstPage(x, r, y, m, z), o, table) == Synced(OptionsFirstSynced(x, y, z, o, table), None)
  {
    var page, p := OptionsFirstPage(x, r, y, m, z), StripHeader(x) + Lead(o);
    OptionsFirstKept(x, r, y, y, m, o);
    hide Mark, StripHeader, Lead, OptionsBody, Contains, FindRegion;
    RegionFound(x, BeginOptions, r, EndOptions, y + Mark(BeginSubcommands) + (m + Mark(EndSubcommands) + z));
    assert UpdateOptions(page, o) == Ok(OptionsFirstPage(p, OptionsBody(o), y, m, z));
    PageAsSubcommands(x, r, y, m, z);
    HoldsMark(x + Mark(BeginOptions) + (r + Mark(EndOptions) + y), BeginSubcommands, m + Mark(EndSubcommands) + z);
    var before := p + Mark(BeginOptions) + (OptionsBody(o) + Mark(EndOptions) + y);
    PageAsSubcommands(p, OptionsBody(o), y, m, z);
    RegionFound(before, BeginSubcommands, m, EndSubcommands, z);
    TrimRegionEnd(p, OptionsBody(o), y);
    PageAsSubcommands(p, OptionsBody(o), TrimEnd(y) + "\n\n", "\n" + table, z);
  }

  lemma HoldsMark(a: string, m: Marker, b: string)
    ensures Contains(a + Mark(m) + b, Mark(m))
  {
    ContainsMiddle(a, Mark(m), b);
  }

  lemma TrimRegionEnd(p: string, body: string, y: string)
    ensures TrimEnd(p + Mark(BeginOptions) + (body + Mark(EndOptions) + y)) + "\n\n" ==
            p + Mark(BeginOptions) + (body + Mark(EndOptions) + (TrimEnd(y) + "\n\n"))
  {
    var u := p + Mark(BeginOptions) + (body + Mark(EndOptions));
    MarkEnds(p + Mark(BeginOptions) + body, EndOptions);
    hide Mark, TrimEnd;
    Associate(p + Mark(BeginOptions), body, Mark(EndOptions));
    Associate(p + Mark(BeginOptions), body + Mark(EndOptions), y);
    TrimAfterMark(u, y);
    Associate(u, TrimEnd(y), "\n\n");
    Associate(p + Mark(BeginOptions), body + Mark(EndOptions), TrimEnd(y) + "\n\n");
  }

  lemma OptionsFirstSyncedKept(x: string, r: string, y: string, m: string, o: Options, table: string)
    requires OptionsFirst(x, r, y, m) && Clean(o, table)
    ensures OptionsFirst(StripHeader(x) + Lead(o), OptionsBody(o), TrimEnd(y) + "\n\n", "\n" + table)
  {
    var p, kept := StripHeader(x) + Lead(o), TrimEnd(y);
    OptionsFirstKept(x, r, y, kept, m, o);
    PrependNoMark("\n", table, EndSubcommands);
    hide Mark, StripHeader, Lead, OptionsBody, Contains, TrimEnd;
    BlankNoMark(p + Mark(BeginOptions) + (OptionsBody(o) + Mark(EndOptions) + kept), BeginSubcommands);
    Associate(p + Mark(BeginOptions), OptionsBody(o) + Mark(EndOptions) + kept, "\n\n");
    Associate(OptionsBody(o) + Mark(EndOptions), kept, "\n\n");
  }

  /** A pass over a page that a pass has written. */
  lemma ResyncOptionsFirst(b: string, kept: string, z: string, o: Options, table: string)
    requires TrimEnd(b) == b && TrimEnd(kept) == kept && NoMarks(o.text)
    requires OptionsFirst(b + Lead(o), OptionsBody(o), kept + "\n\n", "\n" + table)
    ensures var page := OptionsFirstPage(b + Lead(o), OptionsBody(o), kept + "\n\n", "\n" + table, z);
            Sync(page, o, table) == Synced(page, None) <==> o.any || !EndsWith(b, HEADER)
  {
    StripAgain(b, o);
    TrimEndBlank(kept, "\n\n");
    hide Mark, StripHeader, CutHeader, Lead, OptionsBody, TrimEnd, Sync, EndsWith, OptionsFirst, NoMarks;
    SyncOptionsFirst(b + Lead(o), OptionsBody(o), kept + "\n\n", "\n" + table, z, o, table);
    if !o.any && EndsWith(b, HEADER) {
      assert CutHeader(b) <= b;
      AssembleLonger(CutHeader(b) + Lead(o), b + Lead(o), BeginOptions, OptionsBody(o), EndOptions,
                     kept + "\n\n" + Mark(BeginSubcommands) + ("\n" + table + Mark(EndSubcommands) + z));
    }
  }

  /** One pass reaches the fixed point, options first: exactly when there are options, or no
      second header stands before the region. */
  lemma FixedPointOptionsFirst(x: string, r: string, y: string, m: string, z: string, o: Options, table: string)
    requires OptionsFirst(x, r, y, m) && Clean(o, table)
    ensures var synced := Sync(OptionsFirstPage(x, r, y, m, z), o, table).content;
            Sync(synced, o, table) == Synced(synced, None) <==> o.any || !EndsWith(StripHeader(x), HEADER)
  {
    hide Mark, StripHeader, Lead, OptionsBody, TrimEnd, Sync, EndsWith, OptionsFirst, NoMarks, OptionsFirstPage;
    SyncOptionsFirst(x, r, y, m, z, o, table);
    OptionsFirstSyncedKept(x, r, y, m, o, table);
    TrimEndAgain(y);
    ResyncOptionsFirst(StripHeader(x), TrimEnd(y), z, o, table);
  }

  lemma TrimEndAgain(s: string)
    ensures TrimEnd(TrimEnd(s)) == TrimEnd(s)
  {
    TrimEndUnique(TrimEnd(s), TrimEnd(s));
  }

  // ---- Subcommands first ----------------------------------------------------------

  function SubcommandsFirstSynced(x: string, y: string, z: string, o: Options, table: string): string {
    SubcommandsFirstPage(TrimEnd(x) + "\n\n", "\n" + table, StripHeader(y) + Lead(o), OptionsBody(o), z)
  }

  lemma PageAsOptions(x: string, m: string, y: string, r: string, z: string)
    ensures SubcommandsFirstPage(x, m, y, r, z) ==
            Assemble(x + Mark(BeginSubcommands) + (m + Mark(EndSubcommands) + y), BeginOptions, r, EndOptions, z)
  {
  }

  lemma StripRegionEnd(x: string, m: string, y: string, o: Options)
    ensures StripHeader(x + Mark(BeginSubcommands) + (m + Mark(EndSubcommands) + y)) + Lead(o) ==
            x + Mark(BeginSubcommands) + (m + Mark(EndSubcommands) + (StripHeader(y) + Lead(o)))
  {
    var u := x + Mark(BeginSubcommands) + (m + Mark(EndSubcommands));
    MarkEnds(x + Mark(BeginSubcommands) + m, EndSubcommands);
    hide Mark, StripHeader, Lead;
    Associate(x + Mark(BeginSubcommands), m, Mark(EndSubcommands));
    Associate(x + Mark(BeginSubcommands), m + Mark(EndSubcommands), y);
    StripAfterMark(u, y);
    Associate(u, StripHeader(y), Lead(o));
    Associate(x + Mark(BeginSubcommands), m + Mark(EndSubcommands), StripHeader(y) + Lead(o));
  }

  lemma SyncSubcommandsFirst(x: string, m: string, y: string, r: string, z: string, o: Options, table: string)
    requires SubcommandsFirst(x, m, y, r)
    ensures Sync(SubcommandsFirstPage(x, m, y, r, z), o, table) ==
            Synced(SubcommandsFirstSynced(x, y, z, o, table), None)
  {
    var page := SubcommandsFirstPage(x, m, y, r, z);
    var y' := StripHeader(y) + Lead(o);
    hide Mark, StripHeader, Lead, OptionsBody, Contains, FindRegion, TrimEnd;
    var before := x + Mark(BeginSubcommands) + (m + Mark(EndSubcommands) + y);
    PageAsOptions(x, m, y, r, z);
    RegionFound(before, BeginOptions, r, EndOptions, z);
    StripRegionEnd(x, m, y, o);
    PageAsOptions(x, m, y', OptionsBody(o), z);
    assert UpdateOptions(page, o) == Ok(SubcommandsFirstPage(x, m, y', OptionsBody(o), z));
    HoldsMark(x, BeginSubcommands, m + Mark(EndSubcommands) + (y + Mark(BeginOptions) + (r + Mark(EndOptions) + z)));
    RegionFound(x, BeginSubcommands, m, EndSubcommands, y' + Mark(BeginOptions) + (OptionsBody(o) + Mark(EndOptions) + z));
  }

  lemma SubcommandsFirstKept(x: string, m: string, y: string, r: string, o: Options, table: string)
    requires SubcommandsFirst(x, m, y, r) && Clean(o, table)
    ensures SubcommandsFirst(TrimEnd(x) + "\n\n", "\n" + table, StripHeader(y) + Lead(o), OptionsBody(o))
  {
    OuterParts(x, BeginSubcommands, m, EndSubcommands, y, BeginOptions);
    MarkerShape(EndSubcommands);
    var b, kept := TrimEnd(x), StripHeader(y);
    hide Mark, Contains, StripHeader, TrimEnd;
    PrefixNoMark(b, x, BeginOptions);
    PrefixNoMark(b, x, BeginSubcommands);
    BlankNoMark(b, BeginOptions);
    BlankNoMark(b, BeginSubcommands);
    PrependNoMark("\n", table, EndSubcommands);
    PrependNoMark("\n", table, BeginOptions);
    BodyNoMark(o, EndOptions);
    EndPart(EndSubcommands, y, kept, BeginOptions);
    LeadNoMark(Mark(EndSubcommands) + kept, o, BeginOptions);
    Associate(Mark(EndSubcommands), kept, Lead(o));
    PiecesNoMark(b + "\n\n", BeginSubcommands, "\n" + table, Mark(EndSubcommands) + (kept + Lead(o)), BeginOptions);
    Associate("\n" + table, Mark(EndSubcommands), kept + Lead(o));
  }

  lemma ResyncSubcommandsFirst(b: string, kept: string, z: string, o: Options, table: string)
    requires TrimEnd(b) == b && TrimEnd(kept) == kept
    requires SubcommandsFirst(b + "\n\n", "\n" + table, kept + Lead(o), OptionsBody(o))
    ensures var page := SubcommandsFirstPage(b + "\n\n", "\n" + table, kept + Lead(o), OptionsBody(o), z);
            Sync(page, o, table) == Synced(page, None) <==> o.any || !EndsWith(kept, HEADER)
  {
    StripAgain(kept, o);
    TrimEndBlank(b, "\n\n");
    hide Mark, StripHeader, CutHeader, Lead, OptionsBody, TrimEnd, Sync, EndsWith, SubcommandsFirst;
    SyncSubcommandsFirst(b + "\n\n", "\n" + table, kept + Lead(o), OptionsBody(o), z, o, table);
    if !o.any && EndsWith(kept, HEADER) {
      assert CutHeader(kept) <= kept;
      PageLonger(b + "\n\n", "\n" + table, CutHeader(kept) + Lead(o), kept + Lead(o), OptionsBody(o), z);
    }
  }

  /** One pass reaches the fixed point, subcommands first, under the same condition on the
      text before the options region. */
  lemma FixedPointSubcommandsFirst(x: string, m: string, y: string, r: string, z: string, o: Options, table: string)
    requires SubcommandsFirst(x, m, y, r) && Clean(o, table)
    ensures var synced := Sync(SubcommandsFirstPage(x, m, y, r, z), o, table).content;
            Sync(synced, o, table) == Synced(synced, None) <==> o.any || !EndsWith(StripHeader(y), HEADER)
  {
    hide Mark, StripHeader, Lead, OptionsBody, TrimEnd, Sync, EndsWith, SubcommandsFirst, Clean, SubcommandsFirstPage;
    SyncSubcommandsFirst(x, m, y, r, z, o, table);
    SubcommandsFirstKept(x, m, y, r, o, table);
    TrimEndAgain(x);
    ResyncSubcommandsFirst(TrimEnd(x), StripHeader(y), z, o, table);
  }

  lemma PageLonger(x: string, m: string, y: string, y': string, r: string, z: string)
    requires |y| != |y'|
    ensures SubcommandsFirstPage(x, m, y, r, z) != SubcommandsFirstPage(x, m, y', r, z)
  {
  }

  /** With no options, every pass takes one header away: the second pass settles a page
      exactly when no third header stands before the region. */
  lemma SecondPassOptionsFirst(x: string, r: string, y: string, m: string, z: string, o: Options, table: string)
    requires OptionsFirst(x, r, y, m) && Clean(o, table) && !o.any
    ensures var once := Sync(OptionsFirstPage(x, r, y, m, z), o, table).content;
            var twice := Sync(once, o, table).content;
            Sync(twice, o, table) == Synced(twice, None) <==> !EndsWith(StripHeader(StripHeader(x)), HEADER)
  {
    var x1, y1 := StripHeader(x) + Lead(o), TrimEnd(y) + "\n\n";
    SyncOptionsFirst(x, r, y, m, z, o, table);
    OptionsFirstSyncedKept(x, r, y, m, o, table);
    StripAgain(StripHeader(x), o);
    StripTrimmed(StripHeader(x));
    hide Mark, StripHeader, CutHeader, Lead, OptionsBody, TrimEnd, Sync, EndsWith, OptionsFirst, NoMarks, OptionsFirstPage;
    FixedPointOptionsFirst(x1, OptionsBody(o), y1, "\n" + table, z, o, table);
  }

  lemma StripTrimmed(b: string)
    requires TrimEnd(b) == b
    ensures StripHeader(b) == CutHeader(b)
  {
  }

  const TWO_HEADERS := HEADER + "\n\n" + HEADER + "\n\n"

  lemma TwoHeadersStripped()
    ensures StripHeader(TWO_HEADERS) == HEADER && StripHeader(HEADER) == ""
  {
    AppendedEnd("", HEADER);
    assert "" + HEADER == HEADER;
    hide EndsWith, TrimEnd, CutHeader;
    StripWritten(HEADER, "\n\n");
    TrimEndUnique("", "");
    CutWritten("", "");
    StripTrimmed(HEADER);
    assert "" + "" + HEADER == HEADER;
  }

  /** A page with two headers and no options is changed by its second pass, and by none
      after that. */
  lemma TwoHeadersTakeTwoPasses(r: string, y: string, m: string, z: string, o: Options, table: string)
    requires OptionsFirst(TWO_HEADERS, r, y, m) && Clean(o, table) && !o.any
    ensures var once := Sync(OptionsFirstPage(TWO_HEADERS, r, y, m, z), o, table).content;
            var twice := Sync(once, o, table).content;
            Sync(once, o, table) != Synced(once, None) && Sync(twice, o, table) == Synced(twice, None)
  {
    TwoHeadersStripped();
    AppendedEnd("", HEADER);
    assert "" + HEADER == HEADER && !EndsWith("", HEADER);
    hide Mark, StripHeader, Sync, EndsWith, OptionsFirst, Clean, OptionsFirstPage;
    FixedPointOptionsFirst(TWO_HEADERS, r, y, m, z, o, table);
    SecondPassOptionsFirst(TWO_HEADERS, r, y, m, z, o, table);
  }
}
