/** Replies that fit Telegram's limit of 4096 UTF-16 units, with quotation
    entities that cover exactly the sections they are for (src/response.rs). */
module ResponseLayout {
  import opened Basics
  import opened Utf

  const MAX_UTF16_UNITS := 4096
  const I32_MAX := 0x7FFF_FFFF

  datatype Locale = English | Russian

  function TruncatedText(locale: Locale): string {
    match locale
    case English => "… output truncated"
    case Russian => "… вывод сокращён"
  }

  function DocumentationTruncatedText(locale: Locale): string {
    match locale
    case English => "… documentation truncated"
    case Russian => "… описание сокращено"
  }

  /** The two notices, word for word. */
  lemma NoticesAre(locale: Locale)
    ensures TruncatedText(locale) == if locale.English? then "… output truncated" else "… вывод сокращён"
    ensures DocumentationTruncatedText(locale) ==
      if locale.English? then "… documentation truncated" else "… описание сокращено"
  {
  }

  lemma SuffixesAreShort(locale: Locale)
    ensures Units(TruncatedText(locale)) <= 64 && Units(DocumentationTruncatedText(locale)) <= 64
  {
    UnitsBounds(TruncatedText(locale));
    UnitsBounds(DocumentationTruncatedText(locale));
  }

  // ------------------------------------------------------------ truncation

  /** The text cut after its last newline, or whole when it has none. */
  function CutAtNewline(s: string): (r: string)
    ensures r <= s
    ensures '\n' in s ==> r != "" && r[|r| - 1] == '\n' && forall i :: |r| <= i < |s| ==> s[i] != '\n'
    ensures '\n' !in s ==> r == s
  {
    if '\n' !in s then s
    else if s[|s| - 1] == '\n' then s
    else
      assert s == s[..|s| - 1] + [s[|s| - 1]];
      CutAtNewline(s[..|s| - 1])
  }

  /** The text, or its longest prefix that leaves room for the suffix, cut back
      to a whole line, and the suffix. */
  function TruncatedLines(text: string, suffix: string): string {
    if Units(text) <= MAX_UTF16_UNITS then text
    else CutAtNewline(text[..LongestPrefix(text, SaturatingSub(MAX_UTF16_UNITS, Units(suffix)))]) + suffix
  }

  function SaturatingSub(a: nat, b: nat): nat {
    if a < b then 0 else a - b
  }

  function Truncated(locale: Locale, text: string): string {
    TruncatedLines(text, TruncatedText(locale))
  }

  /** The same for any limit, without regard to lines; nothing at all when not
      even the suffix would leave room. */
  function TruncatedTo(text: string, limit: nat, suffix: string): string {
    if Units(text) <= limit then text
    else if limit <= Units(suffix) then ""
    else text[..LongestPrefix(text, limit - Units(suffix))] + suffix
  }

  lemma UnitsOfPrefix(a: string, b: string)
    requires a <= b
    ensures Units(a) <= Units(b)
  {
    assert b == a + b[|a|..];
    UnitsConcat(a, b[|a|..]);
  }

  lemma TruncatedLinesFits(text: string, suffix: string)
    requires Units(suffix) <= MAX_UTF16_UNITS
    ensures Units(TruncatedLines(text, suffix)) <= MAX_UTF16_UNITS
  {
    hide Units, CutAtNewline, LongestPrefix;
    if Units(text) > MAX_UTF16_UNITS {
      var prefix := text[..LongestPrefix(text, MAX_UTF16_UNITS - Units(suffix))];
      UnitsOfPrefix(CutAtNewline(prefix), prefix);
      UnitsConcat(CutAtNewline(prefix), suffix);
    }
  }

  lemma TruncatedFits(locale: Locale, text: string)
    ensures Units(Truncated(locale, text)) <= 4096
    ensures Truncated(locale, Truncated(locale, text)) == Truncated(locale, text)
  {
    SuffixesAreShort(locale);
    TruncatedLinesFits(text, TruncatedText(locale));
  }

  lemma TruncatedToFits(text: string, limit: nat, suffix: string)
    ensures Units(TruncatedTo(text, limit, suffix)) <= limit
  {
    if Units(text) > limit > Units(suffix) {
      UnitsConcat(text[..LongestPrefix(text, limit - Units(suffix))], suffix);
    }
  }

  method TruncateUtf16WithLocale(locale: Locale, text: string) returns (r: string)
    ensures r == Truncated(locale, text)
  {
    r := TruncateLines(text, TruncatedText(locale));
  }

  method TruncateLines(text: string, suffix: string) returns (r: string)
    ensures r == TruncatedLines(text, suffix)
  {
    if Units(text) <= MAX_UTF16_UNITS {
      return text;
    }
    var limit := SaturatingSub(MAX_UTF16_UNITS, Units(suffix));
    var end, units, lastNewline := 0, 0, None;
    var i := 0;
    while i < |text|
      invariant 0 <= i <= |text|
      invariant units == Units(text[..i]) <= limit
      invariant end == ByteLength(text[..i])
      invariant lastNewline == NewlineEnd(text[..i])
    {
      var character := text[i];
      assert text[..i + 1][..i] == text[..i];
      if units + Utf16Len(character) > limit {
        break;
      }
      units := units + Utf16Len(character);
      end := end + Utf8Len(character);
      if character == '\n' {
        lastNewline := Some(end);
      }
      i := i + 1;
    }
    assert i < |text| ==> text[..i + 1][..i] == text[..i];
    LongestPrefixIsUnique(text, limit, i);
    CutIsSlice(text, i);
    r := SliceTo(text, if lastNewline.Some? then lastNewline.value else end) + suffix;
  }

  lemma CutIsSlice(text: string, i: nat)
    requires i <= |text|
    ensures var newline := NewlineEnd(text[..i]);
      var cut := if newline.Some? then newline.value else ByteLength(text[..i]);
      IsBoundary(text, cut) && SliceTo(text, cut) == CutAtNewline(text[..i])
  {
    NewlineEndIsCut(text[..i]);
    var kept := CutAtNewline(text[..i]);
    assert kept == text[..|kept|];
    SliceToPrefix(text, |kept|);
  }

  /** The byte offset just after the last newline. */
  function NewlineEnd(s: string): Option<nat> {
    if s == "" then None
    else if s[|s| - 1] == '\n' then Some(ByteLength(s))
    else NewlineEnd(s[..|s| - 1])
  }

  lemma {:induction false} NewlineEndIsCut(s: string)
    ensures ByteLength(CutAtNewline(s)) == if NewlineEnd(s).Some? then NewlineEnd(s).value else ByteLength(s)
    ensures NewlineEnd(s).Some? <==> '\n' in s
    decreases |s|
  {
    if s != "" {
      assert s == s[..|s| - 1] + [s[|s| - 1]];
      NewlineEndIsCut(s[..|s| - 1]);
    }
  }

  method TruncateToUtf16(text: string, limit: nat, suffix: string) returns (r: string)
    ensures r == TruncatedTo(text, limit, suffix)
  {
    if Units(text) <= limit {
      return text;
    }
    if limit <= Units(suffix) {
      return "";
    }
    var end, units := 0, 0;
    var i := 0;
    while i < |text|
      invariant 0 <= i <= |text|
      invariant units == Units(text[..i]) <= limit - Units(suffix)
      invariant end == ByteLength(text[..i])
    {
      var character := text[i];
      assert text[..i + 1][..i] == text[..i];
      if units + Utf16Len(character) > limit - Units(suffix) {
        break;
      }
      units := units + Utf16Len(character);
      end := end + Utf8Len(character);
      i := i + 1;
    }
    assert i < |text| ==> text[..i + 1][..i] == text[..i];
    LongestPrefixIsUnique(text, limit - Units(suffix), i);
    SliceToPrefix(text, i);
    r := SliceTo(text, end) + suffix;
  }

  // --------------------------------------------------------------- replies

  /** A quotation, placed by UTF-16 offset and length. */
  datatype Quote = Quote(offset: nat, length: nat, collapsed: bool)

  datatype Response = Response(text: string, entities: seq<Quote>)

  datatype Rendered = Rendered(response: Response, fallback: bool)

  function PlainWithLocale(locale: Locale, text: string): Response {
    Response(Truncated(locale, text), [])
  }

  /** The quote marks exactly `section`, where it stands at character `at`. */
  ghost predicate CoversAt(text: string, q: Quote, section: string, at: nat) {
    && at + |section| <= |text| && text[at..at + |section|] == section
    && q.offset == Units(text[..at]) && q.length == Units(section)
  }

  ghost predicate Covers(text: string, q: Quote, section: string) {
    exists at :: CoversAt(text, q, section, at)
  }

  /** Within the limit, and every quote inside the text, not empty, and before
      the next one. */
  ghost predicate WellFormed(r: Response) {
    && Units(r.text) <= 4096
    && (forall q <- r.entities :: q.length > 0 && q.offset + q.length <= Units(r.text))
    && (forall i, j :: 0 <= i < j < |r.entities| ==>
          r.entities[i].offset + r.entities[i].length <= r.entities[j].offset)
  }

  lemma PlainIsWellFormed(locale: Locale, text: string)
    ensures WellFormed(PlainWithLocale(locale, text))
  {
    TruncatedFits(locale, text);
  }

  lemma CoveredIsInRange(before: string, section: string, after: string, q: Quote)
    requires q.offset == Units(before) && q.length == Units(section)
    ensures CoversAt(before + section + after, q, section, |before|)
    ensures Units(before + section + after) == q.offset + q.length + Units(after)
  {
    UnitsConcat(before, section);
    UnitsConcat(before + section, after);
    assert (before + section + after)[..|before|] == before;
  }

  // ---------------------------------------------------- documentation cards

  function DocumentationLabel(locale: Locale): string {
    match locale
    case English => "Documentation"
    case Russian => "Документация"
  }

  function PrimaryLabel(locale: Locale): string {
    match locale
    case English => "Primary"
    case Russian => "Основное"
  }

  function SourceLabel(locale: Locale): string {
    match locale
    case English => "Source"
    case Russian => "Источник"
  }

  function ProvenanceLine(locale: Locale, provenance: string): string {
    SourceLabel(locale) + ": " + provenance
  }

  function Utf16I32Len(s: string): Option<nat> {
    if Units(s) <= I32_MAX then Some(Units(s)) else None
  }

  /** Two labelled lines and the provenance line. */
  function LabelledText(first: string, heading: string, second: string, primary: string, line: string): string {
    first + ": " + heading + "\n" + second + ": " + primary + "\n" + line
  }

  /** Heading and primary text share what labels and provenance leave; when
      that is nothing only the provenance line is left. */
  function FallbackText(
      first: string, heading: string, second: string, primary: string, line: string, suffix: string): string
  {
    FallbackWith(Units(first + ": \n" + second + ": \n") + Units(line) + 1, first, heading, second, primary, line, suffix)
  }

  function FallbackWith(
      reserved: nat, first: string, heading: string, second: string, primary: string, line: string, suffix: string): string
  {
    if reserved > MAX_UTF16_UNITS then line
    else
      var contentBudget := MAX_UTF16_UNITS - reserved;
      var headingBudget := contentBudget / 2;
      var primaryBudget := contentBudget - headingBudget;
      LabelledText(
        first, TruncatedTo(heading, headingBudget, suffix), second, TruncatedTo(primary, primaryBudget, suffix), line)
  }

  function DocumentationFallback(locale: Locale, heading: string, primary: string, provenance: string): Rendered {
    var line := ProvenanceLine(locale, provenance);
    if Units(line) > MAX_UTF16_UNITS then Rendered(PlainWithLocale(locale, line), true)
    else
      var text := FallbackText(
        DocumentationLabel(locale), heading, PrimaryLabel(locale), primary, line, DocumentationTruncatedText(locale));
      Rendered(Response(text, []), true)
  }

  const SEPARATOR := "\n\n"

  function CardText(heading: string, primary: string, provenance: string): string {
    heading + SEPARATOR + primary + SEPARATOR + provenance
  }

  /** The primary text as a card has room for it. */
  function RenderedPrimary(locale: Locale, primary: string, available: nat): string {
    if Units(primary) <= available then primary
    else TruncatedTo(primary, available, DocumentationTruncatedText(locale))
  }

  /** Whether a card can be quoted, and with which primary text it goes on. */
  datatype CardPlan = Quoted(rendered: string) | Fallback(primary: string)

  function PlanCard(locale: Locale, heading: string, primary: string, provenance: string): CardPlan {
    if heading == "" || primary == "" || provenance == "" then Fallback(primary)
    else if Utf16I32Len(heading).None? || Utf16I32Len(provenance).None? then Fallback(primary)
    else
      var reserved := Units(heading) + Units(provenance) + Units(SEPARATOR) * 2;
      if reserved >= MAX_UTF16_UNITS then Fallback(primary)
      else
        var rendered := RenderedPrimary(locale, primary, MAX_UTF16_UNITS - reserved);
        if rendered == "" then Fallback(rendered) else CheckCard(heading, rendered, provenance)
  }

  /** The checks made on a card once its text is known. */
  function CheckCard(heading: string, rendered: string, provenance: string): CardPlan {
    if Utf16I32Len(heading + SEPARATOR).None? || Utf16I32Len(rendered).None?
       || Utf16I32Len(heading + SEPARATOR + rendered + SEPARATOR).None?
       || Units(CardText(heading, rendered, provenance)) > MAX_UTF16_UNITS
       || Units(rendered) == 0 || Units(provenance) == 0
    then Fallback(rendered)
    else Quoted(rendered)
  }

  lemma CheckCardPasses(heading: string, rendered: string, provenance: string)
    requires rendered != "" && provenance != ""
    requires Units(heading) + Units(rendered) + Units(provenance) + 4 <= MAX_UTF16_UNITS
    ensures CheckCard(heading, rendered, provenance) == Quoted(rendered)
  {
    CardMeasures(heading, rendered, provenance);
    UnitsBounds(rendered);
    UnitsBounds(provenance);
  }

  function QuotedCard(heading: string, rendered: string, provenance: string): Response {
    Response(CardText(heading, rendered, provenance), [
      Quote(Units(heading + SEPARATOR), Units(rendered), true),
      Quote(Units(heading + SEPARATOR + rendered + SEPARATOR), Units(provenance), false)])
  }

  function DocumentationCard(locale: Locale, heading: string, primary: string, provenance: string): Rendered {
    match PlanCard(locale, heading, primary, provenance)
    case Quoted(rendered) => Rendered(QuotedCard(heading, rendered, provenance), false)
    case Fallback(shown) => DocumentationFallback(locale, heading, shown, provenance)
  }

  lemma LabelledUnits(first: string, heading: string, second: string, primary: string, line: string)
    ensures Units(LabelledText(first, heading, second, primary, line))
         == Units(first + ": \n" + second + ": \n") + Units(heading) + Units(primary) + Units(line)
    ensures EndsWith(LabelledText(first, heading, second, primary, line), line)
  {
    assert first + ": \n" + second + ": \n" == first + ": " + "\n" + second + ": " + "\n";
    UnitsConcat(first + ": " + "\n" + second + ": ", "\n");
    UnitsConcat(first + ": " + "\n" + second, ": ");
    UnitsConcat(first + ": " + "\n", second);
    UnitsConcat(first + ": ", "\n");
    var before := first + ": " + heading + "\n" + second + ": " + primary + "\n";
    UnitsConcat(before, line);
    UnitsConcat(first + ": " + heading + "\n" + second + ": " + primary, "\n");
    UnitsConcat(first + ": " + heading + "\n" + second + ": ", primary);
    UnitsConcat(first + ": " + heading + "\n" + second, ": ");
    UnitsConcat(first + ": " + heading + "\n", second);
    UnitsConcat(first + ": " + heading, "\n");
    UnitsConcat(first + ": ", heading);
    assert LabelledText(first, heading, second, primary, line)[|before|..] == line;
  }

  lemma EndsWithTransitive(s: string, middle: string, end: string)
    requires EndsWith(s, middle) && EndsWith(middle, end)
    ensures EndsWith(s, end)
  {
    assert s[|s| - |end|..] == s[|s| - |middle|..][|middle| - |end|..];
  }

  lemma FallbackTextFits(first: string, heading: string, second: string, primary: string, line: string, suffix: string)
    requires Units(line) <= MAX_UTF16_UNITS
    ensures var text := FallbackText(first, heading, second, primary, line, suffix);
      Units(text) <= MAX_UTF16_UNITS && EndsWith(text, line)
  {
    hide Units, FallbackWith;
    forall h, p
      ensures Units(LabelledText(first, h, second, p, line))
           == Units(first + ": \n" + second + ": \n") + Units(line) + Units(h) + Units(p)
      ensures EndsWith(LabelledText(first, h, second, p, line), line)
    {
      LabelledUnits(first, h, second, p, line);
    }
    var reserved := Units(first + ": \n" + second + ": \n") + Units(line) + 1;
    FallbackWithFits(reserved, first, heading, second, primary, line, suffix);
    FallbackWithEnds(reserved, first, heading, second, primary, line, suffix);
  }

  lemma FallbackWithFits(
      reserved: nat, first: string, heading: string, second: string, primary: string, line: string, suffix: string)
    requires Units(line) <= MAX_UTF16_UNITS
    requires forall h, p :: Units(LabelledText(first, h, second, p, line)) + 1 == reserved + Units(h) + Units(p)
    ensures Units(FallbackWith(reserved, first, heading, second, primary, line, suffix)) <= MAX_UTF16_UNITS
  {
    hide Units, LabelledText, TruncatedTo;
    if reserved <= MAX_UTF16_UNITS {
      var budget := MAX_UTF16_UNITS - reserved;
      TruncatedToFits(heading, budget / 2, suffix);
      TruncatedToFits(primary, budget - budget / 2, suffix);
    }
  }

  lemma FallbackWithEnds(
      reserved: nat, first: string, heading: string, second: string, primary: string, line: string, suffix: string)
    requires forall h, p :: EndsWith(LabelledText(first, h, second, p, line), line)
    ensures EndsWith(FallbackWith(reserved, first, heading, second, primary, line, suffix), line)
  {
    EndsWithItself(line);
  }

  lemma EndsWithItself(s: string)
    ensures EndsWith(s, s)
  {
    assert s[0..] == s;
  }

  /** The fallback fits, and loses the provenance only when the labelled line
      alone is over the limit. */
  lemma FallbackLayout(locale: Locale, heading: string, primary: string, provenance: string)
    ensures var r := DocumentationFallback(locale, heading, primary, provenance);
      && WellFormed(r.response) && r.response.entities == [] && r.fallback
      && (Units(ProvenanceLine(locale, provenance)) <= MAX_UTF16_UNITS ==> EndsWith(r.response.text, provenance))
  {
    var line := ProvenanceLine(locale, provenance);
    if Units(line) > MAX_UTF16_UNITS {
      PlainIsWellFormed(locale, line);
    } else {
      var first, second := DocumentationLabel(locale), PrimaryLabel(locale);
      var suffix := DocumentationTruncatedText(locale);
      FallbackTextFits(first, heading, second, primary, line, suffix);
      assert EndsWith(line, provenance);
      EndsWithTransitive(FallbackText(first, heading, second, primary, line, suffix), line, provenance);
    }
  }

  /** The fallback word for word: the provenance line alone, cut when even that
      is too long; or heading, primary text and provenance line, each after its
      own label, the first two sharing the room that is left. */
  lemma FallbackSays(locale: Locale, heading: string, primary: string, provenance: string)
    ensures var english, notice := locale.English?, DocumentationTruncatedText(locale);
      var line := (if english then "Source: " else "Источник: ") + provenance;
      var labels := if english then "Documentation: \nPrimary: \n" else "Документация: \nОсновное: \n";
      var text := DocumentationFallback(locale, heading, primary, provenance).response.text;
      if Units(line) > 4096 then text == Truncated(locale, line)
      else if Units(labels) + Units(line) + 1 > 4096 then text == line
      else
        var room := 4096 - Units(labels) - Units(line) - 1;
        var shown, rest := TruncatedTo(heading, room / 2, notice), TruncatedTo(primary, room - room / 2, notice);
        text == if english then "Documentation: " + shown + "\nPrimary: " + rest + "\n" + line
                else "Документация: " + shown + "\nОсновное: " + rest + "\n" + line
  {
    hide Units, TruncatedTo, TruncatedLines, DocumentationTruncatedText;
    hide ProvenanceLine, LabelledText, DocumentationLabel, PrimaryLabel;
    LabelsAre(locale, provenance);
    var notice, line := DocumentationTruncatedText(locale), ProvenanceLine(locale, provenance);
    var labels := DocumentationLabel(locale) + ": \n" + PrimaryLabel(locale) + ": \n";
    if Units(labels) + Units(line) + 1 <= 4096 {
      var room := 4096 - Units(labels) - Units(line) - 1;
      LabelledIs(locale, TruncatedTo(heading, room / 2, notice), TruncatedTo(primary, room - room / 2, notice), line);
    }
  }

  lemma LabelsAre(locale: Locale, provenance: string)
    ensures ProvenanceLine(locale, provenance) == (if locale.English? then "Source: " else "Источник: ") + provenance
    ensures DocumentationLabel(locale) + ": \n" + PrimaryLabel(locale) + ": \n" ==
      if locale.English? then "Documentation: \nPrimary: \n" else "Документация: \nОсновное: \n"
  {
  }

  lemma LabelledIs(locale: Locale, shown: string, rest: string, line: string)
    ensures LabelledText(DocumentationLabel(locale), shown, PrimaryLabel(locale), rest, line) ==
      if locale.English? then "Documentation: " + shown + "\nPrimary: " + rest + "\n" + line
      else "Документация: " + shown + "\nОсновное: " + rest + "\n" + line
  {
    if locale.English? {
      assert "Documentation" + ": " == "Documentation: ";
      assert "\n" + "Primary" + ": " == "\nPrimary: ";
      Associate("Documentation: " + shown, "\n", "Primary", ": ");
    } else {
      assert "Документация" + ": " == "Документация: ";
      assert "\n" + "Основное" + ": " == "\nОсновное: ";
      Associate("Документация: " + shown, "\n", "Основное", ": ");
    }
  }

  lemma Associate(a: string, b: string, c: string, d: string)
    ensures a + b + c + d == a + (b + c + d)
  {
  }

  /** Texts that fit their half of the room are kept whole. */
  lemma FallbackKeepsShortTexts(locale: Locale, heading: string, primary: string, provenance: string)
    ensures var first, second, line := DocumentationLabel(locale), PrimaryLabel(locale), ProvenanceLine(locale, provenance);
      var bare := Units(LabelledText(first, "", second, "", line));
      bare + 1 + 2 * Units(heading) <= MAX_UTF16_UNITS && bare + 1 + 2 * Units(primary) <= MAX_UTF16_UNITS ==>
        DocumentationFallback(locale, heading, primary, provenance).response.text
        == LabelledText(first, heading, second, primary, line)
  {
    LabelledUnits(DocumentationLabel(locale), "", PrimaryLabel(locale), "", ProvenanceLine(locale, provenance));
    hide Units, LabelledText, DocumentationTruncatedText, ProvenanceLine, DocumentationLabel, PrimaryLabel;
    assert Units("") == 0 by {
      UnitsConcat("", "");
    }
  }

  lemma SeparatorUnits()
    ensures Units(SEPARATOR) == 2 && ByteLength(SEPARATOR) == 2
  {
    assert SEPARATOR[..1] == "\n";
  }

  lemma CardMeasures(heading: string, primary: string, provenance: string)
    ensures Units(heading + SEPARATOR) == Units(heading) + 2
    ensures Units(heading + SEPARATOR + primary + SEPARATOR) == Units(heading) + Units(primary) + 4
    ensures Units(CardText(heading, primary, provenance)) == Units(heading) + Units(primary) + Units(provenance) + 4
    ensures EndsWith(CardText(heading, primary, provenance), provenance)
  {
    SeparatorUnits();
    UnitsConcat(heading, SEPARATOR);
    UnitsConcat(heading + SEPARATOR, primary);
    UnitsConcat(heading + SEPARATOR + primary, SEPARATOR);
    UnitsConcat(heading + SEPARATOR + primary + SEPARATOR, provenance);
  }

  /** When a card can be quoted: exactly when nothing is empty, heading and
      provenance leave room, and the primary text fits that room or is longer
      than the notice that it was shortened. */
  lemma PlanCardIff(locale: Locale, heading: string, primary: string, provenance: string)
    ensures var plan := PlanCard(locale, heading, primary, provenance);
      var reserved := Units(heading) + Units(provenance) + 4;
      && (plan.Quoted? <==>
            && heading != "" && primary != "" && provenance != "" && reserved < 4096
            && (Units(primary) <= 4096 - reserved || 4096 - reserved > Units(DocumentationTruncatedText(locale))))
      && (plan.Quoted? ==>
            && plan.rendered == (if Units(primary) <= 4096 - reserved then primary
                                 else TruncatedTo(primary, 4096 - reserved, DocumentationTruncatedText(locale)))
            && plan.rendered != "" && reserved + Units(plan.rendered) <= 4096)
      // What the fallback goes on with: the primary text, unless it was cut away.
      && (plan.Fallback? ==>
            plan.primary == if heading != "" && provenance != "" && reserved < 4096 then "" else primary)
  {
    hide Units, DocumentationTruncatedText;
    SeparatorUnits();
    UnitsBounds(heading);
    UnitsBounds(provenance);
    var reserved := Units(heading) + Units(provenance) + 4;
    if reserved < MAX_UTF16_UNITS {
      var available := MAX_UTF16_UNITS - reserved;
      var rendered := RenderedPrimary(locale, primary, available);
      RenderedPrimaryFits(locale, primary, available);
      if heading != "" && provenance != "" && rendered != "" {
        CheckCardPasses(heading, rendered, provenance);
      }
    }
  }

  lemma RenderedPrimaryFits(locale: Locale, primary: string, available: nat)
    ensures var rendered := RenderedPrimary(locale, primary, available);
      && Units(rendered) <= available
      && (rendered == "" <==> Units(rendered) == 0)
      && (rendered == "" <==>
            primary == "" || (Units(primary) > available && available <= Units(DocumentationTruncatedText(locale))))
  {
    var suffix := DocumentationTruncatedText(locale);
    TruncatedToFits(primary, available, suffix);
    UnitsBounds(RenderedPrimary(locale, primary, available));
    assert suffix[0] == '…';
  }

  /** The two quotes of a card cover exactly the primary text and the
      provenance, which stands at the end. */
  lemma QuotedCardLayout(heading: string, rendered: string, provenance: string)
    requires rendered != "" && provenance != ""
    requires Units(heading) + Units(rendered) + Units(provenance) + 4 <= MAX_UTF16_UNITS
    ensures var r := QuotedCard(heading, rendered, provenance);
      WellFormed(r) && EndsWith(r.text, provenance) && ShowsCard(r, heading, rendered, provenance)
  {
    CardMeasures(heading, rendered, provenance);
    UnitsBounds(rendered);
    UnitsBounds(provenance);
    QuotedCardCovers(heading, rendered, provenance);
  }

  /** Heading, primary text and provenance, the last two marked. */
  ghost predicate ShowsCard(r: Response, heading: string, rendered: string, provenance: string) {
    && r.text == heading + "\n\n" + rendered + "\n\n" + provenance
    && |r.entities| == 2 && r.entities[0].collapsed && !r.entities[1].collapsed
    && CoversAt(r.text, r.entities[0], rendered, |heading| + 2)
    && CoversAt(r.text, r.entities[1], provenance, |heading| + |rendered| + 4)
  }

  lemma QuotedCardCovers(heading: string, rendered: string, provenance: string)
    ensures var r := QuotedCard(heading, rendered, provenance);
      && CoversAt(r.text, r.entities[0], rendered, |heading| + 2)
      && CoversAt(r.text, r.entities[1], provenance, |heading| + |rendered| + 4)
  {
    hide Units, CoversAt;
    var r := QuotedCard(heading, rendered, provenance);
    var before, all := heading + SEPARATOR, heading + SEPARATOR + rendered + SEPARATOR;
    CardSplits(heading, rendered, provenance);
    CoveredIsInRange(before, rendered, SEPARATOR + provenance, r.entities[0]);
    CoveredIsInRange(all, provenance, "", r.entities[1]);
  }

  lemma CardSplits(heading: string, rendered: string, provenance: string)
    ensures CardText(heading, rendered, provenance) == (heading + SEPARATOR) + rendered + (SEPARATOR + provenance)
    ensures CardText(heading, rendered, provenance) == (heading + SEPARATOR + rendered + SEPARATOR) + provenance + ""
    ensures |heading + SEPARATOR| == |heading| + 2
    ensures |heading + SEPARATOR + rendered + SEPARATOR| == |heading| + |rendered| + 4
  {
  }

  /** For all inputs the card fits and is well formed; it keeps the provenance
      whole at its end when it is quoted, and otherwise whenever the labelled
      provenance line fits on its own. */
  lemma DocumentationCardLayout(locale: Locale, heading: string, primary: string, provenance: string)
    ensures var r := DocumentationCard(locale, heading, primary, provenance);
      && WellFormed(r.response)
      && (r.fallback <==> PlanCard(locale, heading, primary, provenance).Fallback?)
      && (r.fallback ==> r.response.entities == [])
      && (!r.fallback ==> ShowsCard(r.response, heading, PlanCard(locale, heading, primary, provenance).rendered, provenance))
      && (!r.fallback || Units(ProvenanceLine(locale, provenance)) <= MAX_UTF16_UNITS ==>
            EndsWith(r.response.text, provenance))
  {
    hide Units, PlanCard, ShowsCard, QuotedCard, WellFormed, DocumentationFallback, RenderedPrimary, ProvenanceLine;
    PlanCardIff(locale, heading, primary, provenance);
    match PlanCard(locale, heading, primary, provenance)
    case Quoted(rendered) => QuotedCardLayout(heading, rendered, provenance);
    case Fallback(shown) => FallbackLayout(locale, heading, shown, provenance);
  }

  // -------------------------------------------------------- four quotations

  /** An empty line starts at j. */
  predicate BreakAt(s: string, j: nat) {
    j + 2 <= |s| && s[j] == '\n' && s[j + 1] == '\n'
  }

  /** Where the first empty line starts, or the length. */
  function FindBreak(s: string): (i: nat)
    ensures i <= |s|
    ensures i < |s| ==> BreakAt(s, i)
    ensures forall j: nat :: j < i ==> !BreakAt(s, j)
  {
    if |s| < 2 then |s|
    else if BreakAt(s, 0) then 0
    else
      assert forall j: nat :: j > 0 ==> (BreakAt(s, j) <==> BreakAt(s[1..], j - 1));
      FindBreak(s[1..]) + 1
  }

  /** The text split at its empty lines. */
  function Sections(s: string): (r: seq<string>)
    ensures r != []
    decreases |s|
  {
    var i := FindBreak(s);
    if i == |s| then [s] else [s[..i]] + Sections(s[i + 2..])
  }

  function Join(sections: seq<string>): string
    requires sections != []
  {
    if |sections| == 1 then sections[0] else sections[0] + SEPARATOR + Join(sections[1..])
  }

  lemma BreakInPrefix(s: string, i: nat)
    requires i <= FindBreak(s)
    ensures FindBreak(s[..i]) == i
  {
    assert forall j: nat :: BreakAt(s[..i], j) ==> BreakAt(s, j);
  }

  /** The first section ends where the first empty line starts; what follows that
      line is split in the same way. */
  lemma SectionsMean(s: string)
    ensures var first := Sections(s)[0];
      && (forall j :: 0 <= j < |first| && j + 1 < |s| ==> s[j] != '\n' || s[j + 1] != '\n')
      && (|Sections(s)| == 1 ==> first == s)
      && (|Sections(s)| > 1 ==>
            && |first| + 2 <= |s| && s == first + "\n\n" + s[|first| + 2..]
            && Sections(s)[1..] == Sections(s[|first| + 2..]))
  {
    var i := FindBreak(s);
    if i < |s| {
      SplitAtBreak(s, i);
    }
    forall j | 0 <= j < i && j + 1 < |s| ensures s[j] != '\n' || s[j + 1] != '\n' {
      assert !BreakAt(s, j);
    }
  }

  /** Splitting loses nothing. */
  lemma {:induction false} JoinSections(s: string)
    ensures Join(Sections(s)) == s
    decreases |s|
  {
    hide FindBreak, BreakAt;
    var i := FindBreak(s);
    if i < |s| {
      SplitAtBreak(s, i);
      JoinSections(s[i + 2..]);
      JoinCons(s[..i], Sections(s[i + 2..]));
    }
  }

  lemma SplitAtBreak(s: string, i: nat)
    requires BreakAt(s, i)
    ensures i + 2 <= |s| && s == s[..i] + SEPARATOR + s[i + 2..]
  {
    assert s[i..i + 2] == SEPARATOR;
  }

  lemma JoinCons(first: string, rest: seq<string>)
    requires rest != []
    ensures Join([first] + rest) == first + SEPARATOR + Join(rest)
  {
    assert ([first] + rest)[1..] == rest;
  }

  /** No section has an empty line inside. */
  lemma {:induction false} SectionsAreUnbroken(s: string, k: nat)
    requires k < |Sections(s)|
    ensures FindBreak(Sections(s)[k]) == |Sections(s)[k]|
    decreases |s|
  {
    var i := FindBreak(s);
    if i < |s| {
      if k == 0 {
        BreakInPrefix(s, i);
      } else {
        SectionsAreUnbroken(s[i + 2..], k - 1);
      }
    }
  }

  /** One quote for each section that is not empty, with what precedes it. */
  function Quotes(before: string, sections: seq<string>): seq<Quote>
    decreases |sections|
  {
    if sections == [] then []
    else
      (if Units(sections[0]) > 0 then [Quote(Units(before), Units(sections[0]), false)] else [])
      + Quotes(before + sections[0] + SEPARATOR, sections[1..])
  }

  function NonEmpty(sections: seq<string>): seq<string> {
    if sections == [] then []
    else (if sections[0] != "" then [sections[0]] else []) + NonEmpty(sections[1..])
  }

  ghost predicate EachCovers(quotes: seq<Quote>, sections: seq<string>, full: string) {
    && |quotes| == |sections|
    && (forall k :: 0 <= k < |quotes| ==> Covers(full, quotes[k], sections[k]))
    && forall k :: 0 <= k < |quotes| ==> !quotes[k].collapsed
  }

  /** No quote is empty, starts before unit `from` or overlaps another, and all
      end by unit `to`. */
  ghost predicate InOrder(quotes: seq<Quote>, from: nat, to: nat) {
    && (forall k :: 0 <= k < |quotes| ==>
          quotes[k].length > 0 && from <= quotes[k].offset && quotes[k].offset + quotes[k].length <= to)
    && (forall i, j :: 0 <= i < j < |quotes| ==> quotes[i].offset + quotes[i].length <= quotes[j].offset)
  }

  /** The quotes, from unit `from` of `full` on, cover the sections, one each
      and in order. */
  ghost predicate QuotesFit(quotes: seq<Quote>, sections: seq<string>, from: nat, full: string) {
    EachCovers(quotes, sections, full) && InOrder(quotes, from, Units(full))
  }

  lemma PrependCovers(q: Quote, section: string, quotes: seq<Quote>, sections: seq<string>, full: string)
    requires EachCovers(quotes, sections, full) && Covers(full, q, section) && !q.collapsed
    ensures EachCovers([q] + quotes, [section] + sections, full)
  {
    var all, texts := [q] + quotes, [section] + sections;
    forall k | 0 <= k < |all| ensures Covers(full, all[k], texts[k]) {
      if k > 0 {
        assert Covers(full, quotes[k - 1], sections[k - 1]);
      }
    }
  }

  lemma PrependInOrder(q: Quote, quotes: seq<Quote>, next: nat, to: nat)
    requires InOrder(quotes, next, to) && q.length > 0 && q.offset + q.length <= next && q.offset + q.length <= to
    ensures InOrder([q] + quotes, q.offset, to)
  {
  }

  /** The quotes cover the sections that are not empty. */
  lemma {:induction false} QuotesLayout(before: string, sections: seq<string>, full: string)
    requires sections != [] && full == before + Join(sections)
    ensures QuotesFit(Quotes(before, sections), NonEmpty(sections), Units(before), full)
    decreases |sections|
  {
    var next := before + sections[0] + SEPARATOR;
    var rest, texts := Quotes(next, sections[1..]), NonEmpty(sections[1..]);
    FirstQuote(before, sections, full);
    if |sections| > 1 {
      QuotesLayout(next, sections[1..], full);
    }
    assert QuotesFit(rest, texts, Units(next), full);
    QuotesStep(before, sections);
    if sections[0] != "" {
      var q := Quote(Units(before), Units(sections[0]), false);
      PrependCovers(q, sections[0], rest, texts, full);
      PrependInOrder(q, rest, Units(next), Units(full));
    }
  }

  lemma FirstQuote(before: string, sections: seq<string>, full: string)
    requires sections != [] && full == before + Join(sections)
    ensures var section, q := sections[0], Quote(Units(before), Units(sections[0]), false);
      var next := before + section + SEPARATOR;
      && Covers(full, q, section)
      && Units(next) == q.offset + q.length + 2
      && q.offset + q.length <= Units(full)
      && (section != "" ==> q.length > 0)
      && (|sections| > 1 ==> full == next + Join(sections[1..]))
  {
    var section := sections[0];
    UnitsBounds(section);
    UnitsConcat(before, section);
    UnitsConcat(before + section, SEPARATOR);
    SeparatorUnits();
    if |sections| == 1 {
      assert full == before + section + "";
      CoversMiddle(before, section, "");
    } else {
      var tail := Join(sections[1..]);
      assert full == before + (section + SEPARATOR + tail);
      assert full == before + section + (SEPARATOR + tail) == before + section + SEPARATOR + tail;
      CoversMiddle(before, section, SEPARATOR + tail);
    }
  }

  lemma CoversMiddle(before: string, section: string, after: string)
    ensures var q := Quote(Units(before), Units(section), false);
      && Covers(before + section + after, q, section)
      && q.offset + q.length <= Units(before + section + after)
  {
    CoveredIsInRange(before, section, after, Quote(Units(before), Units(section), false));
  }

  lemma QuotesStep(before: string, sections: seq<string>)
    requires sections != []
    ensures var rest := Quotes(before + sections[0] + SEPARATOR, sections[1..]);
      && (sections[0] == "" ==> Quotes(before, sections) == rest && NonEmpty(sections) == NonEmpty(sections[1..]))
      && (sections[0] != "" ==>
            && Quotes(before, sections) == [Quote(Units(before), Units(sections[0]), false)] + rest
            && NonEmpty(sections) == [sections[0]] + NonEmpty(sections[1..]))
  {
    UnitsBounds(sections[0]);
  }

  /** The quotes for a text that has a heading and exactly four sections with
      content; none for any other. */
  function SectionQuotes(shown: string): seq<Quote> {
    var i := FindBreak(shown);
    if i == |shown| || i == 0 then []
    else
      var quotes := Quotes(shown[..i + 2], Sections(shown[i + 2..]));
      if |quotes| == 4 then quotes else []
  }

  function FourBlockquotes(locale: Locale, text: string): Response {
    var shown := Truncated(locale, text);
    var quotes := SectionQuotes(shown);
    if quotes != [] then Response(shown, quotes) else PlainWithLocale(locale, shown)
  }

  /** The sections with content that follow the heading. */
  function QuotableSections(shown: string): seq<string> {
    var i := FindBreak(shown);
    if i == |shown| || i == 0 then [] else NonEmpty(Sections(shown[i + 2..]))
  }

  /** That is: all sections but the first, if there is a first that is not empty. */
  lemma QuotableMeans(shown: string)
    ensures QuotableSections(shown) ==
      if |Sections(shown)| == 1 || Sections(shown)[0] == "" then [] else NonEmpty(Sections(shown)[1..])
  {
    var i := FindBreak(shown);
    if i < |shown| {
      assert |Sections(shown)| > 1 && Sections(shown)[0] == shown[..i];
    }
  }

  lemma {:induction false} NonEmptyMeans(a: seq<string>, b: seq<string>, section: string)
    ensures NonEmpty(a + b) == NonEmpty(a) + NonEmpty(b)
    ensures NonEmpty([section]) == if section == "" then [] else [section]
    decreases |a|
  {
    if a == [] {
      assert a + b == b;
    } else {
      assert (a + b)[1..] == a[1..] + b;
      NonEmptyMeans(a[1..], b, section);
    }
  }

  lemma SectionQuotesLayout(shown: string)
    ensures SectionQuotes(shown) != [] <==> |QuotableSections(shown)| == 4
    ensures SectionQuotes(shown) != [] ==> QuotesFit(SectionQuotes(shown), QuotableSections(shown), 3, shown)
  {
    var i := FindBreak(shown);
    if 0 < i < |shown| {
      JoinSections(shown[i + 2..]);
      assert shown == shown[..i + 2] + shown[i + 2..];
      QuotesLayout(shown[..i + 2], Sections(shown[i + 2..]), shown);
      UnitsBounds(shown[..i + 2]);
    }
  }

  /** For all inputs the reply fits and is well formed. It is quoted exactly
      when what is shown has a heading and four sections with content, and its
      quotes then cover exactly these. */
  lemma FourBlockquotesLayout(locale: Locale, text: string)
    ensures var r, shown := FourBlockquotes(locale, text), Truncated(locale, text);
      && WellFormed(r) && r.text == shown
      && (r.entities != [] <==> |QuotableSections(shown)| == 4)
      && (r.entities != [] ==> QuotesFit(r.entities, QuotableSections(shown), 3, shown))
  {
    TruncatedFits(locale, text);
    SectionQuotesLayout(Truncated(locale, text));
  }

  /** The loop over the sections, by byte offsets. */
  method FourBlockquotesWithLocale(locale: Locale, text: string) returns (r: Response)
    ensures r == FourBlockquotes(locale, text)
  {
    var shown := TruncateUtf16WithLocale(locale, text);
    var quotes := FindQuotes(shown);
    r := if quotes != [] then Response(shown, quotes) else PlainWithLocale(locale, shown);
  }

  method FindQuotes(shown: string) returns (entities: seq<Quote>)
    ensures entities == SectionQuotes(shown)
  {
    var i := FindBreak(shown);
    if i == |shown| || i == 0 {
      return [];
    }
    JoinSections(shown[i + 2..]);
    assert shown == shown[..i + 2] + shown[i + 2..];
    UnitsConcat(shown[..i], SEPARATOR);
    SeparatorUnits();
    assert shown[..i + 2] == shown[..i] + SEPARATOR;
    entities := QuoteSections(shown, shown[..i], Sections(shown[i + 2..]));
    if |entities| != 4 {
      return [];
    }
  }

  method QuoteSections(shown: string, heading: string, sections: seq<string>) returns (entities: seq<Quote>)
    requires sections != [] && shown == heading + SEPARATOR + Join(sections)
    ensures entities == Quotes(heading + SEPARATOR, sections)
  {
    entities := [];
    UnitsConcat(heading, SEPARATOR);
    SeparatorUnits();
    var byteOffset := ByteLength(heading) + 2;
    ghost var before := heading + SEPARATOR;
    var k := 0;
    assert sections[0..] == sections;
    while k < |sections|
      invariant 0 <= k <= |sections|
      invariant byteOffset == ByteLength(before)
      invariant k < |sections| ==> shown == before + Join(sections[k..])
      invariant entities + Quotes(before, sections[k..]) == Quotes(heading + SEPARATOR, sections)
    {
      var section := sections[k];
      NextSection(shown, before, sections, k);
      var offset := Units(SliceTo(shown, byteOffset));
      var added := if Units(section) > 0 then [Quote(offset, Units(section), false)] else [];
      Regroup(entities, added, Quotes(before + section + SEPARATOR, sections[k + 1..]));
      entities := entities + added;
      before := before + section + SEPARATOR;
      byteOffset := byteOffset + ByteLength(section) + 2;
      k := k + 1;
    }
  }

  lemma Regroup(a: seq<Quote>, b: seq<Quote>, c: seq<Quote>)
    ensures a + (b + c) == (a + b) + c
  {
  }

  lemma NextSection(shown: string, before: string, sections: seq<string>, k: nat)
    requires k < |sections| && shown == before + Join(sections[k..])
    ensures IsBoundary(shown, ByteLength(before)) && SliceTo(shown, ByteLength(before)) == before
    ensures ByteLength(before + sections[k] + SEPARATOR) == ByteLength(before) + ByteLength(sections[k]) + 2
    ensures k + 1 < |sections| ==> shown == before + sections[k] + SEPARATOR + Join(sections[k + 1..])
    ensures Quotes(before, sections[k..]) ==
      (if Units(sections[k]) > 0 then [Quote(Units(before), Units(sections[k]), false)] else [])
      + Quotes(before + sections[k] + SEPARATOR, sections[k + 1..])
  {
    assert sections[k..][0] == sections[k] && sections[k..][1..] == sections[k + 1..];
    assert shown[..|before|] == before;
    SliceToPrefix(shown, |before|);
    UnitsConcat(before, sections[k]);
    UnitsConcat(before + sections[k], SEPARATOR);
    SeparatorUnits();
  }

  // -------------------------------------------------------- external output

  /** Module output with its attribution. `sanitized` is the output after
      control characters are removed; `provenance` starts with an empty line. */
  function ExternalResult(locale: Locale, sanitized: string, provenance: string): Response {
    if Units(sanitized) + Units(provenance) <= MAX_UTF16_UNITS then PlainWithLocale(locale, sanitized + provenance)
    else
      var available := if Units(provenance) > MAX_UTF16_UNITS then 0 else MAX_UTF16_UNITS - Units(provenance);
      PlainWithLocale(locale, TruncatedTo(sanitized, available, TruncatedText(locale)) + provenance)
  }

  /** The reply fits, and ends in the whole attribution whenever that fits on
      its own, after as much output as there is room for. */
  lemma ExternalResultLayout(locale: Locale, sanitized: string, provenance: string)
    ensures var r := ExternalResult(locale, sanitized, provenance);
      && WellFormed(r)
      && (Units(provenance) <= MAX_UTF16_UNITS ==>
            && EndsWith(r.text, provenance)
            && r.text[..|r.text| - |provenance|] ==
                 TruncatedTo(sanitized, MAX_UTF16_UNITS - Units(provenance), TruncatedText(locale)))
  {
    hide Units, TruncatedTo, TruncatedText, CutAtNewline, LongestPrefix;
    var r := ExternalResult(locale, sanitized, provenance);
    TruncatedFits(locale, sanitized + provenance);
    UnitsConcat(sanitized, provenance);
    if Units(provenance) <= MAX_UTF16_UNITS {
      var output := TruncatedTo(sanitized, MAX_UTF16_UNITS - Units(provenance), TruncatedText(locale));
      TruncatedToFits(sanitized, MAX_UTF16_UNITS - Units(provenance), TruncatedText(locale));
      UnitsConcat(output, provenance);
      FittingIsKept(sanitized, MAX_UTF16_UNITS - Units(provenance), TruncatedText(locale));
      assert r.text == output + provenance;
    } else {
      TruncatedFits(locale, TruncatedTo(sanitized, 0, TruncatedText(locale)) + provenance);
    }
  }

  lemma FittingIsKept(text: string, limit: nat, suffix: string)
    ensures Units(text) <= limit ==> TruncatedTo(text, limit, suffix) == text
  {
  }

  /** What a shortened text consists of: all of it when it fits, else the
      longest prefix that leaves room for the suffix, or nothing. */
  lemma TruncationMeans(text: string, limit: nat, suffix: string)
    ensures Units(text) <= limit ==> TruncatedTo(text, limit, suffix) == text
    ensures Units(text) > limit && limit <= Units(suffix) ==> TruncatedTo(text, limit, suffix) == ""
    ensures Units(text) > limit > Units(suffix) ==>
      exists k: nat :: k <= |text| && IsLongestPrefix(text, limit - Units(suffix), k) && TruncatedTo(text, limit, suffix) == text[..k] + suffix
  {
    if Units(text) > limit > Units(suffix) {
      assert IsLongestPrefix(text, limit - Units(suffix), LongestPrefix(text, limit - Units(suffix)));
    }
  }

  /** The longest prefix that fits has k characters, and m of them are shown. */
  ghost predicate ShownAre(text: string, suffix: string, k: nat, m: nat) {
    && m <= k <= |text|
    && IsLongestPrefix(text, SaturatingSub(MAX_UTF16_UNITS, Units(suffix)), k)
    && IsLineCut(text, m, k)
    && TruncatedLines(text, suffix) == text[..m] + suffix
  }

  /** In a text that had to be shortened everything before the notice is whole
      lines, if there is a line end at all, and no further line end would fit. */
  lemma LineTruncationMeans(text: string, suffix: string)
    requires Units(text) > MAX_UTF16_UNITS
    ensures exists k: nat, m: nat :: ShownAre(text, suffix, k, m)
  {
    var k := LongestPrefix(text, SaturatingSub(MAX_UTF16_UNITS, Units(suffix)));
    CutIsLineCut(text, k);
    assert ShownAre(text, suffix, k, |CutAtNewline(text[..k])|);
  }

  lemma CutIsLineCut(text: string, k: nat)
    requires k <= |text|
    ensures var m := |CutAtNewline(text[..k])|;
      m <= k && text[..m] == CutAtNewline(text[..k]) && IsLineCut(text, m, k)
  {
    var kept := CutAtNewline(text[..k]);
    assert kept == text[..|kept|];
    assert '\n' in text[..k] <==> exists i :: 0 <= i < k && text[i] == '\n';
  }

  /** Of the first k characters, m are those up to the last newline, or all. */
  ghost predicate IsLineCut(text: string, m: nat, k: nat)
    requires m <= k <= |text|
  {
    if exists i :: 0 <= i < k && text[i] == '\n' then
      m > 0 && text[m - 1] == '\n' && (forall i :: m <= i < k ==> text[i] != '\n')
    else m == k
  }
}
