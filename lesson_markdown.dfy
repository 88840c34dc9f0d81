/**
 * The two heading patterns of the lesson generator
 * (react-dashboard/backend/services/ai-lesson-generator.js):
 * `/^#\s+(.+)$/m` for the title and `/^##\s+(.+)$/gm` for the section
 * headings, matched over the whole generated text with JavaScript's
 * semantics. `^` and `$` hold at line terminators, `\s` takes line
 * terminators too, and `.` takes everything else.
 */
module LessonMarkdown {
  import opened Wrappers
  import opened JsText

  const TitleMarker: string := "#"
  const SectionMarker: string := "##"

  /** Where `^` holds in multi-line mode: the start of the text, or just after a line terminator. */
  predicate LineStart(text: string, p: nat)
  {
    p == 0 || (p <= |text| && IsLineTerminator(text[p - 1]))
  }

  /** Every character of `text[from..to]` is white space, so `\s` matches each. */
  predicate AllBlank(text: string, from: nat, to: nat)
    requires from <= to <= |text|
  {
    forall k :: from <= k < to ==> IsJsSpace(text[k])
  }

  /** No character of `text[from..to]` is a line terminator, so `.` matches each. */
  predicate OnOneLine(text: string, from: nat, to: nat)
    requires from <= to <= |text|
  {
    forall k :: from <= k < to ==> !IsLineTerminator(text[k])
  }

  /** Where a greedy `\s+` that starts at `i` stops: the end of the white-space run. */
  function BlankRunEnd(text: string, i: nat): (q: nat)
    requires i <= |text|
    ensures i <= q <= |text| && AllBlank(text, i, q)
    ensures q == |text| || !IsJsSpace(text[q])
    decreases |text| - i
  {
    if i == |text| || !IsJsSpace(text[i]) then i else BlankRunEnd(text, i + 1)
  }

  /** Where a greedy `.+` that starts at `i` stops: the next line terminator, or the end. */
  function LineEnd(text: string, i: nat): (e: nat)
    requires i <= |text|
    ensures i <= e <= |text| && OnOneLine(text, i, e)
    ensures e == |text| || IsLineTerminator(text[e])
    decreases |text| - i
  {
    if i == |text| || IsLineTerminator(text[i]) then i else LineEnd(text, i + 1)
  }

  /** The last position in `[lo, hi)` whose character is not a line terminator. */
  function LastOnLine(text: string, lo: nat, hi: nat): (r: Option<nat>)
    requires lo <= hi <= |text|
    ensures r.Some? ==> lo <= r.value < hi && !IsLineTerminator(text[r.value])
    ensures r.Some? ==> forall k :: r.value < k < hi ==> IsLineTerminator(text[k])
    ensures r.None? ==> forall k :: lo <= k < hi ==> IsLineTerminator(text[k])
    decreases hi - lo
  {
    if lo == hi then None
    else if !IsLineTerminator(text[hi - 1]) then Some(hi - 1)
    else LastOnLine(text, lo, hi - 1)
  }

  /**
   * A way `^<marker>\s+(.+)$` (multi-line mode) can match at `p`: the group
   * `(.+)` spans `text[c..e]`, white space alone lies between the marker and
   * `c`, and the match ends at a line terminator or at the end of the text.
   */
  predicate Split(text: string, p: nat, marker: string, c: nat, e: nat)
  {
    && p + |marker| < c < e <= |text|
    && LineStart(text, p) && text[p..p + |marker|] == marker
    && AllBlank(text, p + |marker|, c) && OnOneLine(text, c, e)
    && (e == |text| || IsLineTerminator(text[e]))
  }

  /**
   * The match of `^<marker>\s+(.+)$` at `p`, as the start of the group and
   * the end of the match. `\s` takes line terminators too, so the greedy
   * `\s+` runs on over line ends to the first other character, and `(.+)`
   * takes the rest of that line. When nothing but white space follows the
   * marker, `\s+` gives characters back until `(.+)` can take one that is
   * not a line terminator.
   */
  function MatchAt(text: string, p: nat, marker: string): (r: Option<(nat, nat)>)
    requires p <= |text|
    ensures r.Some? ==> p + |marker| < r.value.0 < r.value.1 <= |text|
  {
    var m := p + |marker|;
    if !(LineStart(text, p) && m < |text| && text[p..m] == marker && IsJsSpace(text[m])) then None
    else
      var q := BlankRunEnd(text, m);
      if q < |text| then Some((q, LineEnd(text, q)))
      else
        match LastOnLine(text, m + 1, q)
        case None => None
        case Some(j) => Some((j, j + 1))
  }

  /**
   * `MatchAt` is the regular expression's choice: whenever some split
   * exists it finds a match, and of all splits it takes the one whose `\s+`
   * is longest, which backtracking tries first.
   */
  lemma MatchAtIsGreedy(text: string, p: nat, marker: string, c: nat, e: nat)
    requires p <= |text| && Split(text, p, marker, c, e)
    ensures MatchAt(text, p, marker).Some?
    ensures c <= MatchAt(text, p, marker).value.0
  {
    var m := p + |marker|;
    assert IsJsSpace(text[m]);
    var q := BlankRunEnd(text, m);
    if q < |text| {
      assert c <= q;
    } else {
      assert !IsLineTerminator(text[c]);
      var j := LastOnLine(text, m + 1, q);
      assert j.Some? && c <= j.value;
    }
  }

  /** `MatchAt` finds a split when there is one, and nothing when there is none. */
  lemma MatchAtIsSplit(text: string, p: nat, marker: string)
    requires p <= |text|
    ensures MatchAt(text, p, marker).Some? ==>
              Split(text, p, marker, MatchAt(text, p, marker).value.0, MatchAt(text, p, marker).value.1)
    ensures MatchAt(text, p, marker).None? ==> forall c, e :: !Split(text, p, marker, c, e)
  {
    forall c, e | Split(text, p, marker, c, e)
      ensures MatchAt(text, p, marker).Some?
    {
      MatchAtIsGreedy(text, p, marker, c, e);
    }
  }

  /** The text the group `(.+)` captures in the match at `p`. */
  function Group(text: string, p: nat, marker: string): string
    requires p <= |text| && MatchAt(text, p, marker).Some?
  {
    var m := MatchAt(text, p, marker).value;
    text[m.0..m.1]
  }

  /** `exec` from `from` on: the first position at or after `from` where the pattern matches. */
  function Search(text: string, marker: string, from: nat): (r: Option<nat>)
    requires from <= |text|
    ensures r.Some? ==> from <= r.value <= |text| && MatchAt(text, r.value, marker).Some?
    ensures forall p :: from <= p < (if r.Some? then r.value else |text| + 1) ==> MatchAt(text, p, marker).None?
    decreases |text| - from
  {
    if MatchAt(text, from, marker).Some? then Some(from)
    else if from == |text| then None
    else Search(text, marker, from + 1)
  }

  /** The pattern matches at `p` and at no earlier position. */
  predicate FirstMatchAt(text: string, p: nat, marker: string)
  {
    && p <= |text| && MatchAt(text, p, marker).Some?
    && forall k :: 0 <= k < p ==> MatchAt(text, k, marker).None?
  }

  /** `generatedContent.match(/^#\s+(.+)$/m)`, then `titleMatch[1]`: the group of the first match. */
  function FirstTitle(text: string): (r: Option<string>)
    ensures r.None? <==> forall p :: 0 <= p <= |text| ==> MatchAt(text, p, TitleMarker).None?
    ensures r.Some? ==> exists p :: FirstMatchAt(text, p, TitleMarker) && r.value == Group(text, p, TitleMarker)
  {
    match Search(text, TitleMarker, 0)
    case None => None
    case Some(p) =>
      assert FirstMatchAt(text, p, TitleMarker);
      Some(Group(text, p, TitleMarker))
  }

  /** A match as the start of the match, the start of its group and its end. */
  type Found = (nat, nat, nat)

  predicate IsSectionMatch(text: string, f: Found)
  {
    f.0 <= |text| && MatchAt(text, f.0, SectionMarker) == Some((f.1, f.2))
  }

  /**
   * The matches `generatedContent.match(/^##\s+(.+)$/gm)` collects from
   * `from` on: each search starts where the previous match ended.
   */
  function SectionMatches(text: string, from: nat): (ms: seq<Found>)
    requires from <= |text|
    ensures forall i :: 0 <= i < |ms| ==> IsSectionMatch(text, ms[i])
    decreases |text| - from
  {
    match Search(text, SectionMarker, from)
    case None => []
    case Some(p) =>
      var m := MatchAt(text, p, SectionMarker).value;
      [(p, m.0, m.1)] + SectionMatches(text, m.1)
  }

  /** No match of the section pattern starts in `[from, to)`. */
  predicate NoSectionBetween(text: string, from: nat, to: nat)
  {
    forall p :: from <= p < to && p <= |text| ==> MatchAt(text, p, SectionMarker).None?
  }

  /**
   * `ms` is what a global scan from `from` finds: its first element is a
   * match with none before it, the scan resumes where that match ended,
   * and when nothing is left no match starts anywhere further on.
   */
  predicate IsScan(text: string, from: nat, ms: seq<Found>)
    decreases |ms|
  {
    if |ms| == 0 then NoSectionBetween(text, from, |text| + 1)
    else
      && from <= ms[0].0 && IsSectionMatch(text, ms[0]) && NoSectionBetween(text, from, ms[0].0)
      && ms[0].2 <= |text| && IsScan(text, ms[0].2, ms[1..])
  }

  /** `SectionMatches` is the global scan. */
  lemma {:induction false} SectionMatchesScan(text: string, from: nat)
    requires from <= |text|
    ensures IsScan(text, from, SectionMatches(text, from))
    decreases |text| - from
  {
    match Search(text, SectionMarker, from)
    case None =>
    case Some(p) =>
      var found := SectionMatches(text, from);
      var e := MatchAt(text, p, SectionMarker).value.1;
      SectionMatchesScan(text, e);
      assert found[1..] == SectionMatches(text, e);
  }

  /** No other list is the global scan. */
  lemma ScanIsUnique(text: string, from: nat, ms: seq<Found>)
    requires from <= |text| && IsScan(text, from, ms)
    ensures ms == SectionMatches(text, from)
  {
    SectionMatchesScan(text, from);
    ScansAgree(text, from, ms, SectionMatches(text, from));
  }

  /** Two scans from the same position are the same list. */
  lemma {:induction false} ScansAgree(text: string, from: nat, ms: seq<Found>, ns: seq<Found>)
    requires IsScan(text, from, ms) && IsScan(text, from, ns)
    ensures ms == ns
    decreases |ms|
  {
    if |ms| > 0 && |ns| > 0 {
      assert ms[0].0 == ns[0].0;
      ScansAgree(text, ms[0].2, ms[1..], ns[1..]);
      assert ms == [ms[0]] + ms[1..] && ns == [ns[0]] + ns[1..];
    }
  }

  /** The search from `from` finds the first match, at `to`, or nothing when `to` is past the end. */
  lemma SearchFindsFirst(text: string, from: nat, to: nat)
    requires from <= |text| && from <= to && NoSectionBetween(text, from, to)
    requires to <= |text| ==> MatchAt(text, to, SectionMarker).Some?
    ensures Search(text, SectionMarker, from) == if to <= |text| then Some(to) else None
  {
  }

  /**
   * `match.replace(/^##\s+/, '')` on the matched text `text[p..e]`: the
   * marker and the white space after it, as far as the match reaches, are
   * removed. That is the group when the group starts with a non-blank, and
   * "" for a marker followed by white space only.
   */
  function SectionText(text: string, f: Found): (r: string)
    requires IsSectionMatch(text, f)
    ensures !IsJsSpace(text[f.1]) ==> r == Group(text, f.0, SectionMarker)
    ensures IsJsSpace(text[f.1]) ==> r == ""
  {
    MatchAtIsSplit(text, f.0, SectionMarker);
    var q := BlankRunEnd(text, f.0 + |SectionMarker|);
    assert !IsJsSpace(text[f.1]) ==> q == f.1;
    text[if q < f.2 then q else f.2..f.2]
  }

  /** The texts pushed for the matches `ms`, in order. */
  function SectionTexts(text: string, ms: seq<Found>): (r: seq<string>)
    requires forall i :: 0 <= i < |ms| ==> IsSectionMatch(text, ms[i])
    ensures |r| == |ms|
  {
    seq(|ms|, i requires 0 <= i < |ms| => SectionText(text, ms[i]))
  }

  /** The sections of a generated lesson; none when `match` gives null. */
  function Sections(text: string): seq<string>
  {
    SectionTexts(text, SectionMatches(text, 0))
  }

  /** The title pattern never matches where the section marker starts, because `#` is not white space. */
  lemma SectionMarkerIsNoTitle(text: string, p: nat)
    requires p + 2 <= |text| && text[p..p + 2] == SectionMarker
    ensures MatchAt(text, p, TitleMarker).None?
  {
    assert text[p + 1] == SectionMarker[1];
  }

  /** A title marker whose line is blank reaches over the line end: "#\nIntro" has the title "Intro". */
  lemma TitleCrossesLineEnd()
    ensures FirstTitle(TitleMarker + "\n" + "Intro") == Some("Intro")
  {
    TitleAfterBlanks("\n", "Intro");
  }

  /** The line it reaches may be a section heading: "# \n## Intro" has the title "## Intro". */
  lemma TitleTakesNextHeading()
    ensures FirstTitle(TitleMarker + " \n" + "## Intro") == Some("## Intro")
  {
    TitleAfterBlanks(" \n", "## Intro");
  }

  /** So does a section marker: "##  \nText" has the one section "Text". */
  lemma SectionCrossesLineEnd()
    ensures Sections(SectionMarker + "  \n" + "Text") == ["Text"]
  {
    SectionAfterBlanks("  \n", "Text");
  }

  /**
   * When only white space follows the marker up to the end of the text,
   * `\s+` gives back its last character: "#  " has the title " " and
   * "##  " the section "", while "# " does not match at all.
   */
  lemma BlankHeadingsAtEnd()
    ensures FirstTitle(TitleMarker + "  ") == Some(" ")
    ensures Sections(SectionMarker + "  ") == [""]
    ensures FirstTitle(TitleMarker + " ") == None
  {
    BlankTitleAtEnd("  ");
    BlankSectionAtEnd("  ");
    LoneBlankNoTitle(' ');
  }

  /** A title marker followed by white space alone: the title is the last blank. */
  lemma BlankTitleAtEnd(blanks: string)
    requires |blanks| >= 2 && forall k :: 0 <= k < |blanks| ==> IsJsSpace(blanks[k])
    requires !IsLineTerminator(blanks[|blanks| - 1])
    ensures FirstTitle(TitleMarker + blanks) == Some(blanks[|blanks| - 1..])
  {
    var text: string := TitleMarker + blanks;
    var n := |text|;
    assert text[0..1] == TitleMarker && IsJsSpace(text[1]);
    assert BlankRunEnd(text, 1) == n;
    assert LastOnLine(text, 2, n) == Some(n - 1);
    assert MatchAt(text, 0, TitleMarker) == Some((n - 1, n));
    assert Search(text, TitleMarker, 0) == Some(0);
    assert FirstTitle(text) == Some(Group(text, 0, TitleMarker));
    assert text[n - 1..n] == blanks[|blanks| - 1..];
  }

  /** A section marker followed by white space alone: one section, and it is empty. */
  lemma BlankSectionAtEnd(blanks: string)
    requires |blanks| >= 2 && forall k :: 0 <= k < |blanks| ==> IsJsSpace(blanks[k])
    requires !IsLineTerminator(blanks[|blanks| - 1])
    ensures Sections(SectionMarker + blanks) == [""]
  {
    var text: string := SectionMarker + blanks;
    var n := |text|;
    assert text[0..2] == SectionMarker && IsJsSpace(text[2]);
    assert BlankRunEnd(text, 2) == n;
    assert LastOnLine(text, 3, n) == Some(n - 1);
    assert MatchAt(text, 0, SectionMarker) == Some((n - 1, n));
    assert MatchAt(text, n, SectionMarker).None?;
    assert SectionMatches(text, n) == [];
    assert Search(text, SectionMarker, 0) == Some(0);
    assert SectionMatches(text, 0) == [(0, n - 1, n)];
    assert IsJsSpace(text[n - 1]);
    assert Sections(text) == SectionTexts(text, [(0, n - 1, n)]);
  }

  /** A title marker and one blank do not match: `(.+)` has nothing left to take. */
  lemma LoneBlankNoTitle(b: char)
    requires IsJsSpace(b)
    ensures FirstTitle(TitleMarker + [b]) == None
  {
    var text: string := TitleMarker + [b];
    assert BlankRunEnd(text, 1) == 2;
    assert MatchAt(text, 0, TitleMarker).None?;
    assert MatchAt(text, 1, TitleMarker).None?;
    assert MatchAt(text, 2, TitleMarker).None?;
  }

  /** A marker, white space that may span line ends, then one line: the title is that line. */
  lemma TitleAfterBlanks(blanks: string, line: string)
    requires |blanks| > 0 && forall k :: 0 <= k < |blanks| ==> IsJsSpace(blanks[k])
    requires |line| > 0 && !IsJsSpace(line[0]) && forall k :: 0 <= k < |line| ==> !IsLineTerminator(line[k])
    ensures FirstTitle(TitleMarker + blanks + line) == Some(line)
  {
    var text: string, c: nat := TitleMarker + blanks + line, 1 + |blanks|;
    assert IsJsSpace(text[1]);
    assert text[0..1] == TitleMarker;
    RunEnds(text, 1, c);
    assert MatchAt(text, 0, TitleMarker) == Some((c, |text|));
    assert Search(text, TitleMarker, 0) == Some(0);
    assert FirstTitle(text) == Some(Group(text, 0, TitleMarker));
    assert Group(text, 0, TitleMarker) == text[c..|text|] == line;
  }

  /** The same for the section marker: the one section is that line. */
  lemma SectionAfterBlanks(blanks: string, line: string)
    requires |blanks| > 0 && forall k :: 0 <= k < |blanks| ==> IsJsSpace(blanks[k])
    requires |line| > 0 && !IsJsSpace(line[0]) && forall k :: 0 <= k < |line| ==> !IsLineTerminator(line[k])
    ensures Sections(SectionMarker + blanks + line) == [line]
  {
    var text: string, c: nat := SectionMarker + blanks + line, 2 + |blanks|;
    assert IsJsSpace(text[2]);
    assert text[0..2] == SectionMarker;
    RunEnds(text, 2, c);
    assert MatchAt(text, 0, SectionMarker) == Some((c, |text|));
    assert MatchAt(text, |text|, SectionMarker).None?;
    assert SectionMatches(text, |text|) == [];
    assert Search(text, SectionMarker, 0) == Some(0);
    assert SectionMatches(text, 0) == [(0, c, |text|)];
    assert SectionText(text, (0, c, |text|)) == text[c..|text|] == line;
    assert Sections(text) == SectionTexts(text, [(0, c, |text|)]);
  }

  /** The white-space run from `i` ends at `c`, and the line from `c` runs to the end. */
  lemma RunEnds(text: string, i: nat, c: nat)
    requires i <= c < |text| && AllBlank(text, i, c) && !IsJsSpace(text[c]) && OnOneLine(text, c, |text|)
    ensures BlankRunEnd(text, i) == c && LineEnd(text, c) == |text|
  {
    var q := BlankRunEnd(text, i);
    var e := LineEnd(text, c);
  }

  /** A reply with no `#` at the start of any line keeps the original title and has no sections. */
  lemma PlainReplyKeepsTitle(generated: string, originalTitle: string)
    requires forall p :: 0 <= p < |generated| && LineStart(generated, p) ==> generated[p] != '#'
    ensures FirstTitle(generated).GetOr(originalTitle) == originalTitle
    ensures Sections(generated) == []
  {
    forall p | 0 <= p <= |generated|
      ensures MatchAt(generated, p, TitleMarker).None? && MatchAt(generated, p, SectionMarker).None?
    {
      if p < |generated| && LineStart(generated, p) {
        assert generated[p] != TitleMarker[0] && generated[p] != SectionMarker[0];
      }
    }
  }
}
