/** Keeping the generated regions of the manual pages in step with the command line. */
module ManPages {
  import opened Wrappers
  import opened Text

  // ---- Markers --------------------------------------------------------------------

  datatype Marker = BeginOptions | EndOptions | BeginSubcommands | EndSubcommands

  /** The comment lines that enclose the regions, such as
      `<!-- BEGIN GENERATED OPTIONS -->`. */
  function Mark(m: Marker): string {
    "<!-- " + MarkText(m) + " -->"
  }

  function MarkText(m: Marker): string {
    match m
    case BeginOptions => "BEGIN" + " GENERATED " + "OPTIONS"
    case EndOptions => "END" + " GENERATED " + "OPTIONS"
    case BeginSubcommands => "BEGIN" + " GENERATED " + "SUBCOMMANDS"
    case EndSubcommands => "END" + " GENERATED " + "SUBCOMMANDS"
  }

  const HEADER := "# OPTIONS"

  /** No generated text may hold one of the four markers. */
  predicate NoMarks(s: string) {
    forall m: Marker :: !Contains(s, Mark(m))
  }

  /** One line in angle brackets with no others inside: what keeps markers from overlapping
      themselves, each other and the text around them. */
  predicate HasMarkerShape(s: string) {
    && |s| >= 2 && s[0] == '<' && s[|s| - 1] == '>'
    && '<' !in s[1..] && '>' !in s[..|s| - 1] && '\n' !in s
  }

  lemma MarkTextPlain(m: Marker)
    ensures forall c :: c in {'<', '>', '\n'} ==> c !in MarkText(m)
  {
    assert forall c :: c in {'<', '>', '\n'} ==> c !in "BEGIN" && c !in "END" && c !in " GENERATED ";
    assert forall c :: c in {'<', '>', '\n'} ==> c !in "OPTIONS" && c !in "SUBCOMMANDS";
  }

  lemma MarkerShape(m: Marker)
    ensures HasMarkerShape(Mark(m))
  {
    MarkTextPlain(m);
    hide MarkText;
    var s := Mark(m);
    assert s[1..] == "!-- " + MarkText(m) + " -->";
    assert s[..|s| - 1] == "<!-- " + MarkText(m) + " --";
    assert forall c :: c in {'<', '>', '\n'} ==> c !in "!-- " && c !in " --";
  }

  lemma MarkersDiffer(m: Marker, n: Marker)
    requires m != n
    ensures Mark(m) != Mark(n)
  {
  }

  // ---- Where a marker can occur ---------------------------------------------------

  lemma OccursCharacters(s: string, t: string, i: nat)
    requires OccursAt(s, t, i)
    ensures forall k :: i <= k < i + |t| ==> s[k] == t[k - i]
  {
  }

  /** A marker begins with the only opening bracket it has and holds no line break, so no
      occurrence reaches past the next of these. */
  lemma OccursBefore(s: string, t: string, i: nat, k: nat)
    requires HasMarkerShape(t) && OccursAt(s, t, i) && i < k < |s| && (s[k] == '<' || s[k] == '\n')
    ensures i + |t| <= k
  {
  }

  lemma OccursLeft(a: string, b: string, t: string, i: nat)
    requires OccursAt(a + b, t, i) && i + |t| <= |a|
    ensures Contains(a, t)
  {
    assert a[i..i + |t|] == (a + b)[i..i + |t|];
    assert OccursAt(a, t, i);
  }

  lemma OccursRight(a: string, b: string, t: string, i: nat)
    requires OccursAt(a + b, t, i) && i >= |a|
    ensures Contains(b, t)
  {
    assert b[i - |a|..i - |a| + |t|] == (a + b)[i..i + |t|];
    assert OccursAt(b, t, i - |a|);
  }

  /** Joining at a line break or at the start of a marker makes no new occurrence. */
  lemma OccursInPart(a: string, b: string, t: string)
    requires HasMarkerShape(t) && Contains(a + b, t)
    requires b != "" ==> b[0] == '\n' || b[0] == '<'
    ensures Contains(a, t) || Contains(b, t)
  {
    var i :| 0 <= i <= |a + b| && OccursAt(a + b, t, i);
    if i >= |a| {
      OccursRight(a, b, t, i);
    } else {
      if b != "" {
        OccursBefore(a + b, t, i, |a|);
      }
      OccursLeft(a, b, t, i);
    }
  }

  lemma OccursAfterPlain(a: string, b: string, t: string)
    requires HasMarkerShape(t) && Contains(a + b, t) && '<' !in a
    ensures Contains(b, t)
  {
    var i :| 0 <= i <= |a + b| && OccursAt(a + b, t, i);
    OccursCharacters(a + b, t, i);
    assert forall k :: 0 <= k < |a| ==> (a + b)[k] in a;
    OccursRight(a, b, t, i);
  }

  /** No marker holds another one. */
  lemma OccursInMarker(s: string, t: string)
    requires HasMarkerShape(s) && HasMarkerShape(t) && Contains(s, t)
    ensures s == t
  {
  }

  lemma MarkersApart(m: Marker, n: Marker)
    requires m != n
    ensures !Contains(Mark(m), Mark(n))
  {
    MarkersDiffer(m, n);
    MarkerShape(m);
    MarkerShape(n);
    hide Mark;
    if Contains(Mark(m), Mark(n)) {
      OccursInMarker(Mark(m), Mark(n));
    }
  }

  // ---- First occurrences ----------------------------------------------------------

  lemma OccursEarly(p: string, t: string, tail: string, i: nat)
    requires HasMarkerShape(t) && OccursAt(p + t + tail, t, i) && i < |p|
    ensures Contains(p, t)
  {
    OccursBefore(p + t + tail, t, i, |p|);
    assert p + t + tail == p + (t + tail);
    OccursLeft(p, t + tail, t, i);
  }

  lemma NoneEarlier(p: string, t: string, tail: string)
    requires HasMarkerShape(t)
    ensures forall i :: 0 <= i < |p| && OccursAt(p + t + tail, t, i) ==> Contains(p, t)
  {
    forall i | 0 <= i < |p| && OccursAt(p + t + tail, t, i)
      ensures Contains(p, t)
    {
      OccursEarly(p, t, tail, i);
    }
  }

  /** A marker after text that does not hold it is found there and nowhere earlier: it cannot
      begin in the text and end in itself. */
  lemma FirstSplit(p: string, m: Marker, tail: string)
    requires !Contains(p, Mark(m))
    ensures SplitOnce(p + Mark(m) + tail, Mark(m)) == Some((p, tail))
  {
    MarkerShape(m);
    hide Mark;
    var t, s := Mark(m), p + Mark(m) + tail;
    NoneEarlier(p, t, tail);
    assert OccursAt(s, t, |p|);
    var r := SplitOnce(s, t).value;
    assert OccursAt(s, t, |r.0|);
    assert |r.0| == |p|;
    assert r.0 == s[..|p|] && r.1 == s[|p| + |t|..];
  }

  /** Two texts without a mark joined where a mark cannot cross. */
  lemma JoinNoMark(a: string, b: string, m: Marker)
    requires !Contains(a, Mark(m)) && !Contains(b, Mark(m))
    requires b != "" ==> b[0] == '\n' || b[0] == '<'
    ensures !Contains(a + b, Mark(m))
  {
    MarkerShape(m);
    hide Mark, Contains;
    if Contains(a + b, Mark(m)) {
      OccursInPart(a, b, Mark(m));
    }
  }

  /** Text without an opening bracket in front makes none either. */
  lemma PrependNoMark(a: string, b: string, m: Marker)
    requires '<' !in a && !Contains(b, Mark(m))
    ensures !Contains(a + b, Mark(m))
  {
    MarkerShape(m);
    hide Mark, Contains;
    if Contains(a + b, Mark(m)) {
      OccursAfterPlain(a, b, Mark(m));
    }
  }

  lemma PlainNoMark(a: string, m: Marker)
    requires '<' !in a
    ensures !Contains(a, Mark(m))
  {
    MarkerShape(m);
    hide Mark;
    assert !Contains("", Mark(m));
    assert a + "" == a;
    PrependNoMark(a, "", m);
  }

  lemma PartNoMark(a: string, b: string, c: string, m: Marker)
    requires !Contains(a + b + c, Mark(m))
    ensures !Contains(b, Mark(m))
  {
    if Contains(b, Mark(m)) {
      ContainsMonotone(a, b, c, Mark(m));
    }
  }

  // ---- The updates ----------------------------------------------------------------

  datatype UpdateError = MissingEnd(begin: Marker)

  datatype Region = Region(before: string, inside: string, after: string)

  function Assemble(before: string, begin: Marker, inside: string, end: Marker, after: string): string {
    before + Mark(begin) + (inside + Mark(end) + after)
  }

  /** The first region, if the file has one. */
  function FindRegion(content: string, begin: Marker, end: Marker): Result<Option<Region>, UpdateError> {
    match SplitOnce(content, Mark(begin))
    case None => Ok(None)
    case Some((before, rest)) =>
      match SplitOnce(rest, Mark(end))
      case None => Err(MissingEnd(begin))
      case Some((inside, after)) => Ok(Some(Region(before, inside, after)))
  }

  /** Cuts off `end` and the white space before it. */
  function CutEnd(trimmed: string, end: string): (b: string)
    ensures b <= trimmed
    ensures TrimEnd(trimmed) == trimmed ==> TrimEnd(b) == b
  {
    if EndsWith(trimmed, end) then
      var b := TrimEnd(trimmed[..|trimmed| - |end|]);
      TrimEndUnique(b, b);
      b
    else trimmed
  }

  function CutHeader(trimmed: string): (b: string)
    ensures b <= trimmed
    ensures TrimEnd(trimmed) == trimmed ==> TrimEnd(b) == b
  {
    CutEnd(trimmed, HEADER)
  }

  /** The text before the options region, without the header that an earlier run left. */
  function StripHeader(before: string): (b: string)
    ensures b <= before && TrimEnd(b) == b
  {
    var trimmed := TrimEnd(before);
    TrimEndUnique(trimmed, trimmed);
    CutHeader(trimmed)
  }

  /** What the options are: whether there are any, and their text. */
  datatype Options = Options(any: bool, text: string)

  function Lead(o: Options): string {
    if o.any then "\n\n" + HEADER + "\n\n" else "\n\n"
  }

  function OptionsBody(o: Options): string {
    if o.any then "\n" + o.text else "\n"
  }

  function UpdateOptions(content: string, o: Options): Result<string, UpdateError> {
    match FindRegion(content, BeginOptions, EndOptions)
    case Err(e) => Err(e)
    case Ok(None) => Ok(content)
    case Ok(Some(r)) =>
      Ok(Assemble(StripHeader(r.before) + Lead(o), BeginOptions, OptionsBody(o), EndOptions, r.after))
  }

  function UpdateSubcommands(content: string, table: string): Result<string, UpdateError> {
    match FindRegion(content, BeginSubcommands, EndSubcommands)
    case Err(e) => Err(e)
    case Ok(None) => Ok(content)
    case Ok(Some(r)) =>
      Ok(Assemble(TrimEnd(r.before) + "\n\n", BeginSubcommands, "\n" + table, EndSubcommands, r.after))
  }

  /** The outcome for one page: an error of the second update leaves the first in place. */
  datatype Synced = Synced(content: string, error: Option<UpdateError>)

  function Sync(content: string, o: Options, table: string): Synced {
    var first := UpdateOptions(content, o);
    if first.Err? then Synced(content, Some(first.error))
    else if !Contains(content, Mark(BeginSubcommands)) then Synced(first.value, None)
    else
      var second := UpdateSubcommands(first.value, table);
      if second.Err? then Synced(first.value, Some(second.error)) else Synced(second.value, None)
  }

  /** A page on disk, with the number of times it was written. */
  class MarkdownFile {
    var content: string
    var writes: nat

    constructor (text: string)
      ensures content == text && writes == 0
    {
      content, writes := text, 0;
    }

    method WriteIfChanged(text: string)
      modifies this
      ensures content == text && writes == old(writes) + if text == old(content) then 0 else 1
    {
      if text != content {
        content := text;
        writes := writes + 1;
      }
    }

    method UpdateMarkdownWithOptions(o: Options) returns (r: Result<(), UpdateError>)
      modifies this
      ensures UpdateOptions(old(content), o).Err? ==>
                r == Err(UpdateOptions(old(content), o).error) && content == old(content) && writes == old(writes)
      ensures UpdateOptions(old(content), o).Ok? ==>
                && r == Ok(()) && content == UpdateOptions(old(content), o).value
                && writes == old(writes) + if content == old(content) then 0 else 1
    {
      hide Mark, OptionsBody, Lead, Contains;
      var begin := SplitOnce(content, Mark(BeginOptions));
      if begin.None? {
        return Ok(());
      }
      var end := SplitOnce(begin.value.1, Mark(EndOptions));
      if end.None? {
        return Err(MissingEnd(BeginOptions));
      }
      var before := TrimEnd(begin.value.0);
      if EndsWith(before, HEADER) {
        before := TrimEnd(before[..|before| - |HEADER|]);
      }
      var body := OptionsBody(o);
      WriteIfChanged(Assemble(before + Lead(o), BeginOptions, body, EndOptions, end.value.1));
      r := Ok(());
    }

    method UpdateMarkdownWithSubcommands(table: string) returns (r: Result<(), UpdateError>)
      modifies this
      ensures UpdateSubcommands(old(content), table).Err? ==>
                r == Err(UpdateSubcommands(old(content), table).error) && content == old(content) && writes == old(writes)
      ensures UpdateSubcommands(old(content), table).Ok? ==>
                && r == Ok(()) && content == UpdateSubcommands(old(content), table).value
                && writes == old(writes) + if content == old(content) then 0 else 1
    {
      hide Mark, Contains;
      var begin := SplitOnce(content, Mark(BeginSubcommands));
      if begin.None? {
        return Ok(());
      }
      var end := SplitOnce(begin.value.1, Mark(EndSubcommands));
      if end.None? {
        return Err(MissingEnd(BeginSubcommands));
      }
      WriteIfChanged(Assemble(TrimEnd(begin.value.0) + "\n\n", BeginSubcommands, "\n" + table, EndSubcommands, end.value.1));
      r := Ok(());
    }

    /** One page of the pass; both markers are looked for before anything is written. */
    method SyncPage(o: Options, table: string) returns (r: Result<(), UpdateError>)
      modifies this
      ensures var s := Sync(old(content), o, table);
              content == s.content && r == (if s.error.Some? then Err(s.error.value) else Ok(()))
      ensures UpdateOptions(old(content), o) == Ok(old(content)) && UpdateSubcommands(old(content), table) == Ok(old(content))
              ==> writes == old(writes)
    {
      hide Mark, Assemble, StripHeader;
      var before := content;
      if Contains(before, Mark(BeginOptions)) {
        var first := UpdateMarkdownWithOptions(o);
        if first.Err? {
          return first;
        }
      } else {
        NoRegion(before, o);
      }
      if Contains(before, Mark(BeginSubcommands)) {
        r := UpdateMarkdownWithSubcommands(table);
      } else {
        r := Ok(());
      }
    }
  }

  lemma NoRegion(content: string, o: Options)
    requires !Contains(content, Mark(BeginOptions))
    ensures UpdateOptions(content, o) == Ok(content)
  {
  }

  // ---- Idempotence of one update --------------------------------------------------

  /** A region with no end marker inside, after text with no begin marker, is the region
      that is found. */
  lemma RegionFound(before: string, begin: Marker, inside: string, end: Marker, after: string)
    requires !Contains(before, Mark(begin)) && !Contains(inside, Mark(end))
    ensures FindRegion(Assemble(before, begin, inside, end, after), begin, end) == Ok(Some(Region(before, inside, after)))
  {
    FirstSplit(before, begin, inside + Mark(end) + after);
    FirstSplit(inside, end, after);
  }

  predicate Blank(s: string) {
    forall c :: c in s ==> IsWhitespace(c)
  }

  /** `b` is the text with the white space at its end cut off and, where a header stood there,
      the header and the white space before it too. */
  ghost predicate Stripped(text: string, b: string) {
    && b <= text && (b != "" ==> !IsWhitespace(b[|b| - 1]))
    && (|| (Blank(text[|b|..]) && !EndsWith(b, HEADER))
        || (exists gap, tail :: Blank(gap) && Blank(tail) && text == b + gap + HEADER + tail))
  }

  lemma TrimmedBlank(s: string)
    ensures TrimEnd(s) <= s && Blank(s[|TrimEnd(s)|..])
  {
    var r := TrimEnd(s);
    forall c | c in s[|r|..]
      ensures IsWhitespace(c)
    {
      var i :| 0 <= i < |s| - |r| && s[|r|..][i] == c;
      assert s[|r| + i] == c;
    }
  }

  lemma HeaderStripped(text: string)
    ensures Stripped(text, StripHeader(text))
  {
    var trimmed := TrimEnd(text);
    TrimmedBlank(text);
    hide HEADER;
    if EndsWith(trimmed, HEADER) {
      var before := trimmed[..|trimmed| - |HEADER|];
      TrimmedBlank(before);
      assert StripHeader(text) == TrimEnd(before) && trimmed == before + HEADER by {
        hide TrimEnd, IsWhitespace, HEADER;
      }
      hide *;
      CutsMeet(text, trimmed, before, TrimEnd(before));
    } else {
      hide Blank, TrimEnd, IsWhitespace;
    }
  }

  lemma CutsMeet(text: string, trimmed: string, before: string, b: string)
    requires trimmed <= text && Blank(text[|trimmed|..]) && trimmed == before + HEADER
    requires b <= before && Blank(before[|b|..]) && (b != "" ==> !IsWhitespace(b[|b| - 1]))
    ensures Stripped(text, b)
  {
    hide Blank, IsWhitespace;
    var gap, tail := before[|b|..], text[|trimmed|..];
    assert before == b + gap && text == trimmed + tail;
    assert text == b + gap + HEADER + tail;
    HeaderBetween(text, b, gap, tail);
  }

  lemma HeaderBetween(text: string, b: string, gap: string, tail: string)
    requires text == b + gap + HEADER + tail && Blank(gap) && Blank(tail)
    requires b != "" ==> !IsWhitespace(b[|b| - 1])
    ensures Stripped(text, b)
  {
    hide Blank, IsWhitespace;
    assert text == b + (gap + HEADER + tail);
  }

  /** What the update makes of a page whose first region is this one: the header stands before
      the region exactly when there are options, the region holds their text, and the text
      outside stays but for blank space and an old header before the region. */
  lemma OptionsWritten(before: string, inside: string, after: string, o: Options)
    requires !Contains(before, Mark(BeginOptions)) && !Contains(inside, Mark(EndOptions))
    ensures exists b :: Stripped(before, b) &&
              UpdateOptions(Assemble(before, BeginOptions, inside, EndOptions, after), o) ==
              Ok(if o.any then Assemble(b + "\n\n# OPTIONS\n\n", BeginOptions, "\n" + o.text, EndOptions, after)
                 else Assemble(b + "\n\n", BeginOptions, "\n", EndOptions, after))
  {
    RegionFound(before, BeginOptions, inside, EndOptions, after);
    HeaderStripped(before);
    LeadSpelled();
    hide Mark, Assemble, StripHeader, FindRegion, Stripped;
    assert StripHeader(before) + "\n\n# OPTIONS\n\n" == StripHeader(before) + ("\n\n" + HEADER + "\n\n");
  }

  lemma LeadSpelled()
    ensures "\n\n" + HEADER + "\n\n" == "\n\n# OPTIONS\n\n"
  {
  }

  lemma SubcommandsWritten(before: string, inside: string, after: string, table: string)
    requires !Contains(before, Mark(BeginSubcommands)) && !Contains(inside, Mark(EndSubcommands))
    ensures exists b :: b <= before && Blank(before[|b|..]) && (b != "" ==> !IsWhitespace(b[|b| - 1])) &&
              UpdateSubcommands(Assemble(before, BeginSubcommands, inside, EndSubcommands, after), table) ==
              Ok(Assemble(b + "\n\n", BeginSubcommands, "\n" + table, EndSubcommands, after))
  {
    RegionFound(before, BeginSubcommands, inside, EndSubcommands, after);
    TrimmedBlank(before);
    hide Mark, Assemble, FindRegion, Blank;
  }

  /** A page without the begin marker is left alone; one with a begin marker and no end marker
      after it is an error. */
  lemma NothingWritten(before: string, rest: string, o: Options, table: string)
    ensures !Contains(before, Mark(BeginOptions)) ==> UpdateOptions(before, o) == Ok(before)
    ensures !Contains(before, Mark(BeginSubcommands)) ==> UpdateSubcommands(before, table) == Ok(before)
    ensures !Contains(before, Mark(BeginOptions)) && !Contains(rest, Mark(EndOptions)) ==>
              UpdateOptions(before + Mark(BeginOptions) + rest, o) == Err(MissingEnd(BeginOptions))
    ensures !Contains(before, Mark(BeginSubcommands)) && !Contains(rest, Mark(EndSubcommands)) ==>
              UpdateSubcommands(before + Mark(BeginSubcommands) + rest, table) == Err(MissingEnd(BeginSubcommands))
  {
    hide Mark, Contains;
    if !Contains(before, Mark(BeginOptions)) {
      FirstSplit(before, BeginOptions, rest);
    }
    if !Contains(before, Mark(BeginSubcommands)) {
      FirstSplit(before, BeginSubcommands, rest);
    }
  }

  lemma MarksSpelled()
    ensures Mark(BeginOptions) == "<!-- BEGIN GENERATED OPTIONS -->"
    ensures Mark(EndOptions) == "<!-- END GENERATED OPTIONS -->"
    ensures Mark(BeginSubcommands) == "<!-- BEGIN GENERATED SUBCOMMANDS -->"
    ensures Mark(EndSubcommands) == "<!-- END GENERATED SUBCOMMANDS -->"
  {
    hide *;
    BeginOptionsSpelled();
    BeginSubcommandsSpelled();
    EndOptionsSpelled();
    EndSubcommandsSpelled();
  }

  lemma BeginOptionsSpelled()
    ensures Mark(BeginOptions) == "<!-- BEGIN GENERATED OPTIONS -->"
  {
  }

  lemma BeginSubcommandsSpelled()
    ensures Mark(BeginSubcommands) == "<!-- BEGIN GENERATED SUBCOMMANDS -->"
  {
  }

  lemma EndOptionsSpelled()
    ensures Mark(EndOptions) == "<!-- END GENERATED OPTIONS -->"
  {
  }

  lemma EndSubcommandsSpelled()
    ensures Mark(EndSubcommands) == "<!-- END GENERATED SUBCOMMANDS -->"
  {
  }

  lemma RegionParts(content: string, begin: Marker, end: Marker)
    ensures var f := FindRegion(content, begin, end);
            f.Ok? && f.value.Some? ==>
              && content == Assemble(f.value.value.before, begin, f.value.value.inside, end, f.value.value.after)
              && !Contains(f.value.value.before, Mark(begin)) && !Contains(f.value.value.inside, Mark(end))
  {
    MarkerShape(begin);
    MarkerShape(end);
    hide Mark;
    var f := FindRegion(content, begin, end);
    if f.Ok? && f.value.Some? {
      var rest := SplitOnce(content, Mark(begin)).value.1;
      PartBeforeFirst(content, Mark(begin));
      PartBeforeFirst(rest, Mark(end));
    }
  }

  lemma PartBeforeFirst(s: string, pat: string)
    requires pat != "" && Contains(s, pat)
    ensures !Contains(SplitOnce(s, pat).value.0, pat)
  {
    var p := SplitOnce(s, pat).value.0;
    forall j | 0 <= j <= |p|
      ensures !OccursAt(p, pat, j)
    {
      if OccursAt(p, pat, j) {
        assert s[j..j + |pat|] == p[j..j + |pat|];
        assert OccursAt(s, pat, j);
      }
    }
  }

  lemma LeadNoMark(b: string, o: Options, m: Marker)
    requires !Contains(b, Mark(m))
    ensures !Contains(b + Lead(o), Mark(m))
  {
    PlainNoMark(Lead(o), m);
    JoinNoMark(b, Lead(o), m);
  }

  lemma PrefixNoMark(b: string, s: string, m: Marker)
    requires b <= s && !Contains(s, Mark(m))
    ensures !Contains(b, Mark(m))
  {
    assert s == "" + b + s[|b|..];
    PartNoMark("", b, s[|b|..], m);
  }

  lemma TrimEndBlank(b: string, blank: string)
    requires TrimEnd(b) == b && forall c :: c in blank ==> IsWhitespace(c)
    ensures TrimEnd(b + blank) == b
  {
    TrimEndUnique(b + blank, b);
  }

  lemma StripHeaderOf(b: string, blank: string)
    requires TrimEnd(b) == b && forall c :: c in blank ==> IsWhitespace(c)
    ensures StripHeader(b + blank) == CutHeader(b)
  {
    TrimEndBlank(b, blank);
    hide TrimEnd, IsWhitespace, CutHeader;
  }

  lemma AppendedEnd(a: string, h: string)
    requires h != "" && !IsWhitespace(h[|h| - 1])
    ensures EndsWith(a + h, h) && (a + h)[..|a + h| - |h|] == a && TrimEnd(a + h) == a + h
  {
  }

  lemma CutWritten(b: string, blank: string)
    requires TrimEnd(b) == b && forall c :: c in blank ==> IsWhitespace(c)
    ensures CutHeader(b + blank + HEADER) == b && TrimEnd(b + blank + HEADER) == b + blank + HEADER
  {
    assert !IsWhitespace(HEADER[|HEADER| - 1]);
    hide EndsWith, TrimEnd, IsWhitespace;
    AppendedEnd(b + blank, HEADER);
    TrimEndBlank(b, blank);
  }

  lemma StripWritten(b: string, blank: string)
    requires TrimEnd(b) == b && forall c :: c in blank ==> IsWhitespace(c)
    ensures StripHeader(b + blank + HEADER + blank) == b
  {
    hide *;
    CutWritten(b, blank);
    StripHeaderOf(b + blank + HEADER, blank);
  }

  /** Stripping again: with options the header just written goes and the rest stays; without,
      what is left may end in an older header, which then goes too. */
  lemma StripAgain(b: string, o: Options)
    requires TrimEnd(b) == b
    ensures StripHeader(b + Lead(o)) == if o.any then b else CutHeader(b)
    ensures CutHeader(b) == b <==> !EndsWith(b, HEADER)
  {
    hide TrimEnd, StripHeader;
    StripHeaderOf(b, "\n\n");
    StripWritten(b, "\n\n");
    hide CutHeader;
    Regroup(b, "\n\n", HEADER, "\n\n");
  }

  lemma Regroup(a: string, b: string, c: string, d: string)
    ensures a + (b + c + d) == a + b + c + d
  {
  }

  lemma BodyNoMark(o: Options, m: Marker)
    requires !Contains(o.text, Mark(m))
    ensures !Contains(OptionsBody(o), Mark(m))
  {
    if o.any {
      PrependNoMark("\n", o.text, m);
    } else {
      PlainNoMark("\n", m);
    }
  }

  lemma SplitAtMost(s: string, pat: string, i: nat)
    requires i <= |s| && OccursAt(s, pat, i)
    ensures var r := SplitOnce(s, pat);
            r.Some? && |r.value.0| <= i && |r.value.0| + |pat| + |r.value.1| == |s|
  {
  }

  /** A region whose new inside holds the end marker is found cut short. */
  lemma RegionCutShort(before: string, begin: Marker, inside: string, end: Marker, after: string)
    requires !Contains(before, Mark(begin)) && Contains(inside, Mark(end))
    ensures var f := FindRegion(Assemble(before, begin, inside, end, after), begin, end);
            f.Ok? && f.value.Some? && f.value.value.before == before && |f.value.value.after| > |after|
  {
    hide SplitOnce;
    MarkerShape(end);
    hide Mark;
    var rest := inside + Mark(end) + after;
    FirstSplit(before, begin, rest);
    var i :| 0 <= i <= |inside| && OccursAt(inside, Mark(end), i);
    assert rest[i..i + |Mark(end)|] == inside[i..i + |Mark(end)|];
    SplitAtMost(rest, Mark(end), i);
  }

  /** Updating the options twice is updating them once exactly when the generated text does
      not hold the end marker or, with no options to generate, when no second header stands
      before the region. */
  lemma OptionsIdempotent(content: string, o: Options)
    requires UpdateOptions(content, o).Ok? && Contains(content, Mark(BeginOptions))
    ensures var before := FindRegion(content, BeginOptions, EndOptions).value.value.before;
            var updated := UpdateOptions(content, o).value;
            UpdateOptions(updated, o) == Ok(updated) <==>
            if o.any then !Contains(o.text, Mark(EndOptions)) else !EndsWith(StripHeader(before), HEADER)
  {
    var r := FindRegion(content, BeginOptions, EndOptions).value.value;
    RegionParts(content, BeginOptions, EndOptions);
    var b := StripHeader(r.before);
    PrefixNoMark(b, r.before, BeginOptions);
    LeadNoMark(b, o, BeginOptions);
    hide Mark, FindRegion, Contains, StripHeader, Lead, SplitOnce;
    UpdateAgain(b, o, r.after);
  }

  /** An update of what an update wrote. */
  lemma UpdateAgain(b: string, o: Options, after: string)
    requires TrimEnd(b) == b && !Contains(b + Lead(o), Mark(BeginOptions))
    ensures var updated := Assemble(b + Lead(o), BeginOptions, OptionsBody(o), EndOptions, after);
            UpdateOptions(updated, o) == Ok(updated) <==>
            if o.any then !Contains(o.text, Mark(EndOptions)) else !EndsWith(b, HEADER)
  {
    StripAgain(b, o);
    OptionsBodyMark(o);
    hide Mark, FindRegion, Contains, StripHeader, CutHeader, Lead, OptionsBody, EndsWith, TrimEnd;
    if Contains(OptionsBody(o), Mark(EndOptions)) {
      RegionCutShort(b + Lead(o), BeginOptions, OptionsBody(o), EndOptions, after);
      var updated := Assemble(b + Lead(o), BeginOptions, OptionsBody(o), EndOptions, after);
      assert |UpdateOptions(updated, o).value| > |updated|;
    } else {
      RegionFound(b + Lead(o), BeginOptions, OptionsBody(o), EndOptions, after);
      if CutHeader(b) != b {
        assert CutHeader(b) <= b;
        AssembleLonger(CutHeader(b) + Lead(o), b + Lead(o), BeginOptions, OptionsBody(o), EndOptions, after);
      }
    }
  }

  lemma OptionsBodyMark(o: Options)
    ensures Contains(OptionsBody(o), Mark(EndOptions)) <==> o.any && Contains(o.text, Mark(EndOptions))
  {
    if o.any && Contains(o.text, Mark(EndOptions)) {
      assert "\n" + o.text + "" == "\n" + o.text;
      ContainsMonotone("\n", o.text, "", Mark(EndOptions));
    } else if o.any {
      BodyNoMark(o, EndOptions);
    } else {
      PlainNoMark("\n", EndOptions);
    }
  }

  lemma AssembleLonger(a: string, b: string, begin: Marker, inside: string, end: Marker, after: string)
    requires |a| != |b|
    ensures Assemble(a, begin, inside, end, after) != Assemble(b, begin, inside, end, after)
  {
  }

  /** Updating the subcommands twice is updating them once exactly when the generated table
      does not hold the end marker. */
  lemma SubcommandsIdempotent(content: string, table: string)
    requires UpdateSubcommands(content, table).Ok? && Contains(content, Mark(BeginSubcommands))
    ensures var updated := UpdateSubcommands(content, table).value;
            UpdateSubcommands(updated, table) == Ok(updated) <==> !Contains(table, Mark(EndSubcommands))
  {
    var r := FindRegion(content, BeginSubcommands, EndSubcommands).value.value;
    RegionParts(content, BeginSubcommands, EndSubcommands);
    var b := TrimEnd(r.before);
    TrimEndUnique(b, b);
    TrimEndBlank(b, "\n\n");
    PrefixNoMark(b, r.before, BeginSubcommands);
    PlainNoMark("\n\n", BeginSubcommands);
    JoinNoMark(b, "\n\n", BeginSubcommands);
    hide Mark, FindRegion, Contains, TrimEnd;
    var updated := Assemble(b + "\n\n", BeginSubcommands, "\n" + table, EndSubcommands, r.after);
    if Contains(table, Mark(EndSubcommands)) {
      assert "\n" + table + "" == "\n" + table;
      ContainsMonotone("\n", table, "", Mark(EndSubcommands));
      RegionCutShort(b + "\n\n", BeginSubcommands, "\n" + table, EndSubcommands, r.after);
      assert |UpdateSubcommands(updated, table).value| > |updated|;
    } else {
      PrependNoMark("\n", table, EndSubcommands);
      RegionFound(b + "\n\n", BeginSubcommands, "\n" + table, EndSubcommands, r.after);
    }
  }
}
