/**
 * The PDF text service (react-dashboard/backend/services/pdf-extractor.js):
 * buffer validation, the whitespace cleaning of parsed text, the fallback
 * that scrapes parenthesised strings out of the raw file, and the split of
 * extracted text into sections. The PDF parser itself is a parameter: its
 * text, or `None` when the library is missing or throws.
 */
module PdfExtractor {
  import opened Wrappers
  import opened JsText
  import opened Collections

  /** A byte of a Node.js `Buffer`. */
  type Byte = b: int | 0 <= b < 256

  // ------------------------------------------------------------- validation

  /** The outcome of `validatePDF`; every value but `Valid` carries `valid: false` and an error text. */
  datatype Validation = Valid | EmptyBuffer | InvalidSignature | TooSmall

  function ValidationError(v: Validation): Option<string>
  {
    match v
    case Valid => None
    case EmptyBuffer => Some("Empty buffer")
    case InvalidSignature => Some("Invalid PDF signature")
    case TooSmall => Some("PDF file too small")
  }

  const MinPdfSize: nat := 1024

  /**
   * The first four bytes read `%PDF`. `buffer.slice(0, 4).toString()`
   * decodes UTF-8, and only these four bytes decode to that text; a buffer
   * shorter than four bytes decodes to something shorter.
   */
  predicate HasSignature(buffer: seq<Byte>)
  {
    |buffer| >= 4 && buffer[..4] == [0x25, 0x50, 0x44, 0x46]
  }

  /** `validatePDF`; `None` is a missing buffer. The checks run in the source's order. */
  function ValidatePdf(buffer: Option<seq<Byte>>): (r: Validation)
    ensures r == Valid <==> buffer.Some? && HasSignature(buffer.value) && |buffer.value| >= MinPdfSize
    ensures r == EmptyBuffer <==> buffer.None? || |buffer.value| == 0
    ensures r == TooSmall ==> HasSignature(buffer.value)
  {
    if buffer.None? || |buffer.value| == 0 then EmptyBuffer
    else if !HasSignature(buffer.value) then InvalidSignature
    else if |buffer.value| < MinPdfSize then TooSmall
    else Valid
  }

  /** The signature is checked before the size: a short buffer with a wrong header is reported as a bad signature. */
  lemma SignatureCheckedFirst(buffer: seq<Byte>)
    requires 0 < |buffer| < MinPdfSize && !HasSignature(buffer)
    ensures ValidatePdf(Some(buffer)) == InvalidSignature
    ensures ValidationError(ValidatePdf(Some(buffer))) == Some("Invalid PDF signature")
  {
  }

  // --------------------------------------------------------------- cleaning

  /**
   * `cleanExtractedText`. After the first step every run of white space is
   * one space, so the source's next four replacements (form feeds and
   * carriage returns, blank lines, single line breaks, runs of spaces)
   * find nothing to replace and are left out here; `CollapsedHasNoBreaks`
   * shows why. The split on line breaks then sees one line.
   */
  function CleanExtractedText(raw: Option<string>): (r: string)
  {
    if raw.None? || raw.value == "" then ""
    else
      PerLine(ReplaceRuns(raw.value, IsJsSpace, ' '))
  }

  /** The steps after the collapse: split into lines, trim each, drop empty ones, rejoin, trim. */
  function PerLine(collapsed: string): string
  {
    Trim(Join(Filter(TrimEach(SplitOn(collapsed, '\n')), NonEmptyLine), "\n"))
  }

  /** `.map(line => line.trim())`. */
  function TrimEach(lines: seq<string>): (r: seq<string>)
    ensures |r| == |lines| && forall i :: 0 <= i < |r| ==> r[i] == Trim(lines[i])
  {
    seq(|lines|, i requires 0 <= i < |lines| => Trim(lines[i]))
  }

  /** `.filter(line => line.length > 0)`. */
  predicate NonEmptyLine(line: string)
  {
    |line| > 0
  }

  /** White space that is collapsed to single spaces: the only white space left is ' ', never twice in a row. */
  predicate Collapsed(s: string)
  {
    OnlyAs(s, IsJsSpace, ' ') && NoAdjacent(s, IsJsSpace)
  }

  /** A collapsed string holds no form feed, carriage return or line break, and no two spaces in a row. */
  lemma CollapsedHasNoBreaks(s: string)
    requires Collapsed(s)
    ensures '\n' !in s && '\r' !in s && '\U{000C}' !in s
    ensures forall i :: 0 <= i < |s| - 1 ==> !(s[i] == ' ' && s[i + 1] == ' ')
  {
    assert IsJsSpace('\n') && IsJsSpace('\r') && IsJsSpace('\U{000C}') && IsJsSpace(' ');
    forall i | 0 <= i < |s| - 1
      ensures !(s[i] == ' ' && s[i + 1] == ' ')
    {
      assert !(IsJsSpace(s[i]) && IsJsSpace(s[i + 1]));
    }
  }

  /** A piece of a collapsed string is collapsed. */
  lemma CollapsedSlice(s: string, a: nat, b: nat)
    requires Collapsed(s) && a <= b <= |s|
    ensures Collapsed(s[a..b])
  {
    var t := s[a..b];
    forall i, j | 0 <= i < |t| && j == i + 1 && j < |t|
      ensures !(IsJsSpace(t[i]) && IsJsSpace(t[j]))
    {
      assert t[i] == s[a + i] && t[j] == s[a + j];
    }
  }

  /** The whole pipeline is: collapse white space runs to one space, then trim. */
  lemma CleanIsCollapseAndTrim(raw: string)
    ensures CleanExtractedText(Some(raw)) == Trim(ReplaceRuns(raw, IsJsSpace, ' '))
  {
    if raw == "" {
      assert ReplaceRuns(raw, IsJsSpace, ' ') == "";
      assert Trim("") == "";
    } else {
      var collapsed := ReplaceRuns(raw, IsJsSpace, ' ');
      CollapseRemovesBreaks(raw);
      OneLinePasses(collapsed);
      assert CleanExtractedText(Some(raw)) == PerLine(collapsed);
    }
  }

  lemma CollapseRemovesBreaks(raw: string)
    ensures '\n' !in ReplaceRuns(raw, IsJsSpace, ' ')
  {
    ReplaceRunsCollapses(raw, IsJsSpace, ' ');
    assert IsJsSpace('\n');
  }

  /** A string without line breaks survives the per-line steps as its trimmed self. */
  lemma OneLinePasses(line: string)
    requires '\n' !in line
    ensures PerLine(line) == Trim(line)
  {
    SplitOnAbsent(line, '\n');
    TrimEachOne(line);
    TrimIdempotent(line);
    assert [Trim(line)][1..] == [];
  }

  lemma TrimEachOne(line: string)
    ensures TrimEach([line]) == [Trim(line)]
  {
    var r := TrimEach([line]);
    assert r[0] == Trim([line][0]);
    assert [line][0] == line;
  }

  /** A trimmed string: empty, or neither starting nor ending with white space. */
  predicate Trimmed(s: string)
  {
    s == [] || (!IsJsSpace(s[0]) && !IsJsSpace(s[|s| - 1]))
  }

  lemma TrimmedFixed(s: string)
    requires Trimmed(s)
    ensures Trim(s) == s
  {
    assert TrimStart(s, IsJsSpace) == s;
    assert TrimEnd(s, IsJsSpace) == s;
  }

  /** Collapsing then trimming gives a collapsed, trimmed string with the same non-space characters. */
  lemma CollapseAndTrim(s: string)
    ensures var c := Trim(ReplaceRuns(s, IsJsSpace, ' '));
            && Collapsed(c) && Trimmed(c)
            && Without(c, IsJsSpace) == Without(s, IsJsSpace)
  {
    var collapsed := ReplaceRuns(s, IsJsSpace, ' ');
    ReplaceRunsCollapses(s, IsJsSpace, ' ');
    var a := TrimSlice(collapsed);
    CollapsedSlice(collapsed, a, a + |Trim(collapsed)|);
    TrimEnds(collapsed);
    ReplaceRunsKeepsOthers(s, IsJsSpace, ' ');
    TrimKeepsOthers(collapsed);
  }

  /**
   * The cleaned text has no line breaks, only single spaces as white space,
   * no white space at either end, and every other character of the input
   * in its order.
   */
  lemma CleanedTextShape(raw: Option<string>)
    ensures var r := CleanExtractedText(raw);
            && Collapsed(r) && '\n' !in r && Trimmed(r)
            && (raw.Some? ==> Without(r, IsJsSpace) == Without(raw.value, IsJsSpace))
  {
    if raw.Some? {
      CleanIsCollapseAndTrim(raw.value);
      CollapseAndTrim(raw.value);
      CollapsedHasNoBreaks(CleanExtractedText(raw));
    }
  }

  /** Cleaning cleaned text changes nothing. */
  lemma CleanIdempotent(raw: Option<string>)
    ensures CleanExtractedText(Some(CleanExtractedText(raw))) == CleanExtractedText(raw)
  {
    var r := CleanExtractedText(raw);
    CleanedTextShape(raw);
    CleanIsCollapseAndTrim(r);
    ReplaceRunsFixed(r, IsJsSpace, ' ');
    TrimmedFixed(r);
  }

  // --------------------------------------------------------------- fallback

  /** `buffer.toString('latin1')`: each byte is the character with that code. */
  function Latin1(buffer: seq<Byte>): (r: string)
    ensures |r| == |buffer|
  {
    seq(|buffer|, i requires 0 <= i < |buffer| => buffer[i] as char)
  }

  /** The first ')' at or after `from`. */
  function NextClose(s: string, from: nat): (r: Option<nat>)
    requires from <= |s|
    ensures r.Some? ==> from <= r.value < |s| && s[r.value] == ')'
                        && forall k :: from <= k < r.value ==> s[k] != ')'
    ensures r.None? ==> forall k :: from <= k < |s| ==> s[k] != ')'
    decreases |s| - from
  {
    if from == |s| then None else if s[from] == ')' then Some(from) else NextClose(s, from + 1)
  }

  /**
   * The matches of `/\(([^)]+)\)/g`, parentheses sliced off, left to
   * right: at each '(' the match runs to the next ')' when at least one
   * character lies between them; otherwise the search resumes one
   * character further on.
   */
  function ParenTexts(s: string): (r: seq<string>)
    decreases |s|
  {
    if |s| == 0 then []
    else if s[0] != '(' then ParenTexts(s[1..])
    else
      match NextClose(s, 1)
      case Some(j) => if j > 1 then [s[1..j]] + ParenTexts(s[j + 1..]) else ParenTexts(s[1..])
      case None => ParenTexts(s[1..])
  }

  lemma ContainsInSuffix(s: string, k: nat, sub: string)
    requires k <= |s| && Contains(s[k..], sub)
    ensures Contains(s, sub)
  {
    var i :| 0 <= i <= |s[k..]| && OccursAt(s[k..], sub, i);
    assert s[k + i..k + i + |sub|] == s[k..][i..i + |sub|];
    assert OccursAt(s, sub, k + i);
  }

  /** Every scraped text is non-empty, holds no ')', and stands between parentheses in the source string. */
  lemma {:induction false} ParenTextsAreEnclosed(s: string)
    ensures forall t :: t in ParenTexts(s) ==> |t| >= 1 && ')' !in t && Contains(s, "(" + t + ")")
    decreases |s|
  {
    if |s| > 0 {
      if s[0] != '(' || NextClose(s, 1).None? || NextClose(s, 1).value == 1 {
        assert ParenTexts(s) == ParenTexts(s[1..]);
        ParenTextsAreEnclosed(s[1..]);
        forall t | t in ParenTexts(s[1..]) ensures Contains(s, "(" + t + ")") {
          ContainsInSuffix(s, 1, "(" + t + ")");
        }
      } else {
        var j := NextClose(s, 1).value;
        assert ParenTexts(s) == [s[1..j]] + ParenTexts(s[j + 1..]);
        ParenTextsAreEnclosed(s[j + 1..]);
        forall t | t in ParenTexts(s[j + 1..]) ensures Contains(s, "(" + t + ")") {
          ContainsInSuffix(s, j + 1, "(" + t + ")");
        }
        GroupAtStart(s, j);
      }
    }
  }

  /** A group that opens the text is enclosed in it and holds no ')'. */
  lemma GroupAtStart(s: string, j: nat)
    requires 1 < j < |s| && s[0] == '(' && s[j] == ')'
    requires forall k :: 1 <= k < j ==> s[k] != ')'
    ensures ')' !in s[1..j] && Contains(s, "(" + s[1..j] + ")")
  {
    assert s[0..j + 1] == "(" + s[1..j] + ")";
    assert OccursAt(s, "(" + s[1..j] + ")", 0);
    assert forall k :: 0 <= k < |s[1..j]| ==> s[1..j][k] == s[k + 1];
  }

  /** A single parenthesised group is scraped whole. */
  lemma SingleGroup(t: string)
    requires |t| >= 1 && ')' !in t
    ensures ParenTexts("(" + t + ")") == [t]
  {
    var s := "(" + t + ")";
    var j := NextClose(s, 1);
    assert s[|t| + 1] == ')';
    assert j.Some?;
    assert s[1..|t| + 1] == t;
    assert s[|t| + 2..] == [];
  }

  /** The characters `.replace(/[^\w\s\.\,\!\?\-]/g, ' ')` keeps. */
  predicate KeptByFallback(c: char)
  {
    IsWordChar(c) || IsJsSpace(c) || c == '.' || c == ',' || c == '!' || c == '?' || c == '-'
  }

  function ScrubSpecials(s: string): (r: string)
    ensures |r| == |s|
    ensures forall i :: 0 <= i < |s| ==> r[i] == if KeptByFallback(s[i]) then s[i] else ' '
  {
    seq(|s|, i requires 0 <= i < |s| => if KeptByFallback(s[i]) then s[i] else ' ')
  }

  const MinFallbackLength: nat := 50
  const NotExtractedNotice: string :=
    "PDF content could not be extracted automatically. Please convert to text format or use OCR."
  const FallbackWarning: string := "PDF extraction used fallback method. Results may be incomplete."

  /** The text `extractTextFallback` produces from the raw file. */
  function FallbackText(buffer: seq<Byte>): (r: string)
    ensures |r| >= MinFallbackLength
  {
    var texts := ParenTexts(Latin1(buffer));
    var kept := Filter(texts, (t: string) => |t| > 2);
    var cleaned := Trim(ReplaceRuns(ScrubSpecials(Join(kept, " ")), IsJsSpace, ' '));
    if |cleaned| < MinFallbackLength then NotExtractedNotice else cleaned
  }

  /**
   * Unless it is the notice, the fallback text is collapsed and trimmed and
   * holds only word characters, spaces and `. , ! ? -`.
   */
  lemma FallbackTextShape(buffer: seq<Byte>)
    ensures var r := FallbackText(buffer);
            r == NotExtractedNotice
            || (&& Collapsed(r) && Trimmed(r)
                && forall i :: 0 <= i < |r| ==> KeptByFallback(r[i]))
  {
    var texts := ParenTexts(Latin1(buffer));
    var kept := Filter(texts, (t: string) => |t| > 2);
    var scrubbed := ScrubSpecials(Join(kept, " "));
    CollapseAndTrim(scrubbed);
    CollapseAndTrimKeepsClass(scrubbed, KeptByFallback);
  }

  /** Collapsing and trimming a string of a class that holds ' ' stays in that class. */
  lemma CollapseAndTrimKeepsClass(s: string, p: char -> bool)
    requires p(' ') && forall i :: 0 <= i < |s| ==> p(s[i])
    ensures var c := Trim(ReplaceRuns(s, IsJsSpace, ' '));
            forall i :: 0 <= i < |c| ==> p(c[i])
  {
    var collapsed := ReplaceRuns(s, IsJsSpace, ' ');
    ReplaceRunsKeepsClass(s, IsJsSpace, ' ', p);
    var a := TrimSlice(collapsed);
    var c := Trim(collapsed);
    forall i | 0 <= i < |c| ensures p(c[i]) {
      assert c[i] == collapsed[a + i];
    }
  }

  /** `ReplaceRuns` with a replacement inside a class `p` keeps every character in `p`. */
  lemma {:induction false} ReplaceRunsKeepsClass(s: string, isX: char -> bool, repl: char, p: char -> bool)
    requires p(repl) && forall i :: 0 <= i < |s| ==> p(s[i])
    ensures forall i :: 0 <= i < |ReplaceRuns(s, isX, repl)| ==> p(ReplaceRuns(s, isX, repl)[i])
  {
    if |s| > 0 {
      ReplaceRunsKeepsClass(s[1..], isX, repl, p);
    }
  }

  // ------------------------------------------------------------- extraction

  /** The fields of an extraction result the model keeps; `sections` is `Some` exactly when `structured` is set. */
  datatype Extraction = Extraction(
    success: bool,
    text: string,
    originalLength: nat,
    cleanedLength: nat,
    warning: Option<string>,
    sections: Option<seq<Section>>)

  /** `extractTextFallback`: never a success, and always with the fallback warning. */
  function ExtractTextFallback(buffer: seq<Byte>): (r: Extraction)
    ensures !r.success && r.warning == Some(FallbackWarning)
    ensures r.originalLength == |buffer| && r.cleanedLength == |r.text| >= MinFallbackLength
  {
    var text := FallbackText(buffer);
    Extraction(false, text, |buffer|, |text|, Some(FallbackWarning), None)
  }

  /** `extractText`, given the parser's text or `None` when the parser is missing or throws. */
  function ExtractText(buffer: seq<Byte>, parsed: Option<string>): (r: Extraction)
    ensures r.success <==> parsed.Some?
    ensures parsed.Some? ==> r.text == CleanExtractedText(parsed) && r.originalLength == |parsed.value|
    ensures parsed.None? ==> r == ExtractTextFallback(buffer)
  {
    match parsed
    case Some(raw) =>
      var clean := CleanExtractedText(parsed);
      Extraction(true, clean, |raw|, |clean|, None, None)
    case None => ExtractTextFallback(buffer)
  }

  // --------------------------------------------------------------- sections

  datatype Section = Section(title: string, content: string)

  /**
   * The loop state of `identifySections`. A `current` of "" stands for
   * both `null` and an empty title, which `if (currentSection)` treats alike.
   */
  datatype Scan = Scan(sections: seq<Section>, current: string, content: string)

  const Start: Scan := Scan([], "", "")

  /** The section list with the open section, if any, closed. */
  function Closed(st: Scan): seq<Section>
  {
    st.sections + (if st.current != "" then [Section(st.current, Trim(st.content))] else [])
  }

  /** One line of the loop: a header closes the open section and opens its own; any other line is content. */
  function ScanLine(st: Scan, line: string, isHeader: string -> bool): Scan
  {
    if isHeader(line) then Scan(Closed(st), Trim(line), "")
    else st.(content := st.content + line + "\n")
  }

  function ScanFrom(st: Scan, lines: seq<string>, isHeader: string -> bool): Scan
  {
    if |lines| == 0 then st
    else ScanLine(ScanFrom(st, lines[..|lines| - 1], isHeader), lines[|lines| - 1], isHeader)
  }

  /** The sections of a list of lines, before the fallback to one "Content" section. */
  function SectionsOf(lines: seq<string>, isHeader: string -> bool): seq<Section>
  {
    Closed(ScanFrom(Start, lines, isHeader))
  }

  const ContentTitle: string := "Content"

  /** What `identifySections` returns. */
  function IdentifiedSections(text: string, isHeader: string -> bool): seq<Section>
  {
    var sections := SectionsOf(SplitOn(text, '\n'), isHeader);
    if |sections| == 0 then [Section(ContentTitle, text)] else sections
  }

  /**
   * `identifySections`. The four header patterns are the parameter
   * `isHeader`: they carry the `g` flag, so `test` resumes from the end of
   * the previous match and its answer for a line depends on the lines
   * before it.
   */
  method IdentifySections(text: string, isHeader: string -> bool) returns (sections: seq<Section>)
    ensures sections == IdentifiedSections(text, isHeader)
    ensures |sections| >= 1
  {
    var lines := SplitOn(text, '\n');
    sections := [];
    var current := "";
    var content := "";
    for i := 0 to |lines|
      invariant Scan(sections, current, content) == ScanFrom(Start, lines[..i], isHeader)
    {
      var line := lines[i];
      if isHeader(line) {
        if current != "" {
          sections := sections + [Section(current, Trim(content))];
        }
        current := Trim(line);
        content := "";
      } else {
        content := content + line + "\n";
      }
      assert lines[..i + 1][..i] == lines[..i];
    }
    assert lines[..|lines|] == lines;
    if current != "" {
      sections := sections + [Section(current, Trim(content))];
    }
    if |sections| == 0 {
      sections := [Section(ContentTitle, text)];
    }
  }

  function Titles(sections: seq<Section>): (r: seq<string>)
    ensures |r| == |sections| && forall i :: 0 <= i < |r| ==> r[i] == sections[i].title
  {
    seq(|sections|, i requires 0 <= i < |sections| => sections[i].title)
  }

  /** The trimmed header lines, leaving out those that trim to nothing. */
  function HeaderTitles(lines: seq<string>, isHeader: string -> bool): seq<string>
  {
    if |lines| == 0 then []
    else
      var last := lines[|lines| - 1];
      HeaderTitles(lines[..|lines| - 1], isHeader) + (if isHeader(last) && Trim(last) != "" then [Trim(last)] else [])
  }

  /** The title of the open section, if there is one. */
  function OpenTitle(st: Scan): seq<string>
  {
    if st.current != "" then [st.current] else []
  }

  lemma TitlesClosed(st: Scan)
    ensures Titles(Closed(st)) == Titles(st.sections) + OpenTitle(st)
  {
  }

  lemma {:induction false} ScanTitles(lines: seq<string>, isHeader: string -> bool)
    ensures var st := ScanFrom(Start, lines, isHeader);
            Titles(st.sections) + OpenTitle(st) == HeaderTitles(lines, isHeader)
  {
    if |lines| > 0 {
      var st := ScanFrom(Start, lines[..|lines| - 1], isHeader);
      ScanTitles(lines[..|lines| - 1], isHeader);
      var last := lines[|lines| - 1];
      if isHeader(last) {
        TitlesClosed(st);
      }
    }
  }

  /**
   * The sections are titled by the trimmed header lines, in order, one per
   * header that does not trim to nothing; without such a header the whole
   * text is one section called "Content".
   */
  lemma SectionTitlesAreHeaders(text: string, isHeader: string -> bool)
    ensures var headers := HeaderTitles(SplitOn(text, '\n'), isHeader);
            && (headers != [] ==> Titles(IdentifiedSections(text, isHeader)) == headers)
            && (headers == [] ==> IdentifiedSections(text, isHeader) == [Section(ContentTitle, text)])
  {
    ScanTitles(SplitOn(text, '\n'), isHeader);
    TitlesClosed(ScanFrom(Start, SplitOn(text, '\n'), isHeader));
  }

  lemma {:induction false} ScanFromAppend(st: Scan, a: seq<string>, b: seq<string>, isHeader: string -> bool)
    ensures ScanFrom(st, a + b, isHeader) == ScanFrom(ScanFrom(st, a, isHeader), b, isHeader)
    decreases |b|
  {
    if |b| == 0 {
      assert a + b == a;
    } else {
      assert (a + b)[..|a + b| - 1] == a + b[..|b| - 1];
      ScanFromAppend(st, a, b[..|b| - 1], isHeader);
    }
  }

  /** Lines without a header only add to the open content. */
  lemma {:induction false} NoHeaderOnlyAddsContent(lines: seq<string>, isHeader: string -> bool)
    requires forall k :: 0 <= k < |lines| ==> !isHeader(lines[k])
    ensures ScanFrom(Start, lines, isHeader).sections == []
    ensures ScanFrom(Start, lines, isHeader).current == ""
  {
    if |lines| > 0 {
      NoHeaderOnlyAddsContent(lines[..|lines| - 1], isHeader);
    }
  }

  /** Lines before the first header belong to no section: they are dropped. */
  lemma PreambleDropped(preamble: seq<string>, rest: seq<string>, isHeader: string -> bool)
    requires forall k :: 0 <= k < |preamble| ==> !isHeader(preamble[k])
    requires |rest| > 0 && isHeader(rest[0])
    ensures SectionsOf(preamble + rest, isHeader) == SectionsOf(rest, isHeader)
  {
    NoHeaderOnlyAddsContent(preamble, isHeader);
    var st := ScanFrom(Start, preamble, isHeader);
    ScanFromAppend(Start, preamble, rest, isHeader);
    SplitFirst(rest);
    ScanFromAppend(st, [rest[0]], rest[1..], isHeader);
    ScanFromAppend(Start, [rest[0]], rest[1..], isHeader);
    ScanFromOne(st, rest[0], isHeader);
    ScanFromOne(Start, rest[0], isHeader);
  }

  lemma ScanFromOne(st: Scan, line: string, isHeader: string -> bool)
    ensures ScanFrom(st, [line], isHeader) == ScanLine(st, line, isHeader)
  {
    assert [line][..0] == [];
  }

  /** `extractStructuredText`: short or failed extractions come back unchanged. */
  method ExtractStructuredText(buffer: seq<Byte>, parsed: Option<string>, isHeader: string -> bool)
    returns (r: Extraction)
    ensures var e := ExtractText(buffer, parsed);
            if !e.success || |e.text| < 100 then r == e
            else r == e.(sections := Some(IdentifiedSections(e.text, isHeader)))
  {
    var extraction := ExtractText(buffer, parsed);
    if !extraction.success || |extraction.text| < 100 {
      return extraction;
    }
    var sections := IdentifySections(extraction.text, isHeader);
    r := extraction.(sections := Some(sections));
  }

  /** A one-line text is one section: titled by itself when it is a header, else "Content". */
  lemma OneLineIsOneSection(text: string, isHeader: string -> bool)
    requires '\n' !in text && Trim(text) == text && text != ""
    ensures IdentifiedSections(text, isHeader)
            == if isHeader(text) then [Section(text, "")] else [Section(ContentTitle, text)]
  {
    SplitOnAbsent(text, '\n');
    assert [text][..0] == [];
    assert ScanFrom(Start, [text], isHeader) == ScanLine(Start, text, isHeader);
    assert Trim("") == "";
  }

  /**
   * Cleaning removes every line break, so a structured extraction is one
   * line: one section titled by the whole text when it reads as a header,
   * else the single "Content" section.
   */
  lemma StructuredTextIsOneSection(raw: string, isHeader: string -> bool)
    requires |CleanExtractedText(Some(raw))| >= 100
    ensures var text := CleanExtractedText(Some(raw));
            IdentifiedSections(text, isHeader)
            == if isHeader(text) then [Section(text, "")] else [Section(ContentTitle, text)]
  {
    var text := CleanExtractedText(Some(raw));
    CleanedTextShape(Some(raw));
    TrimmedFixed(text);
    OneLineIsOneSection(text, isHeader);
  }
}
