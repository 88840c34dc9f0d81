/**
 * The deterministic parts of the lesson generator
 * (react-dashboard/backend/services/ai-lesson-generator.js): reading the
 * title and section headings out of a generated lesson, the fallback
 * lesson, the prompt's language choice and content excerpt, and the
 * frequency-based key-topic extraction used without a language model.
 * The model's reply and the clock are parameters.
 */
module AiLessonGenerator {
  import opened Wrappers
  import opened JsText
  import opened Collections
  import opened LessonMarkdown

  datatype LessonKind = AiGenerated | FallbackGenerated

  /** The lesson object; `sectionsCount` and `readingTime` are the `metadata` entries. */
  datatype GeneratedLesson = GeneratedLesson(
    title: string,
    content: string,
    sections: seq<string>,
    generatedAt: string,
    kind: LessonKind,
    sectionsCount: nat,
    readingTime: string)

  // --------------------------------------------------------- parsing a lesson

  /** `Math.ceil(length / 1000)` for a length. */
  function MinutesToRead(length: nat): (r: nat)
    ensures length == 0 ==> r == 0
    ensures length > 0 ==> (r - 1) * 1000 < length <= r * 1000
  {
    (length + 999) / 1000
  }

  function ReadingTime(length: nat): string
  {
    NatToString(MinutesToRead(length)) + " minut"
  }

  /**
   * `parseGeneratedLesson`: the group of the first title match or the
   * original title, the section texts pushed one by one in match order,
   * and the generated text itself as the content.
   */
  method ParseGeneratedLesson(generated: string, originalTitle: string, timestamp: string) returns (lesson: GeneratedLesson)
    ensures lesson.title == FirstTitle(generated).GetOr(originalTitle)
    ensures lesson.sections == Sections(generated)
    ensures lesson.sectionsCount == |lesson.sections|
    ensures lesson.content == generated && lesson.kind == AiGenerated
    ensures lesson.readingTime == ReadingTime(|generated|)
  {
    var title := FirstTitle(generated).GetOr(originalTitle);
    var matches := SectionMatches(generated, 0);
    ghost var expected := Sections(generated);
    var sections: seq<string> := [];
    for i := 0 to |matches|
      invariant sections == expected[..i]
    {
      PrefixSnoc(expected, i);
      sections := sections + [SectionText(generated, matches[i])];
    }
    PrefixWhole(expected);
    lesson := GeneratedLesson(title, generated, sections, timestamp, AiGenerated, |sections|, ReadingTime(|generated|));
  }

  // --------------------------------------------------------------- languages

  /** The four languages of the prompt tables; every other code uses the Czech entries. */
  datatype Language = Cs | En | De | Sk

  function LanguageOf(code: string): (r: Language)
    ensures r == Cs <==> code !in {"en", "de", "sk"}
  {
    if code == "en" then En else if code == "de" then De else if code == "sk" then Sk else Cs
  }

  /** The first line of `buildLessonPrompt`. */
  function Instruction(language: Language): string
  {
    match language
    case Cs => CsInstruction
    case En => EnInstruction
    case De => DeInstruction
    case Sk => SkInstruction
  }

  const CsInstruction: string := "Odpověz v češtině. Vytvoř strukturovanou lekci."
  const EnInstruction: string := "Respond in English. Create a structured lesson."
  const DeInstruction: string := "Antworte auf Deutsch. Erstelle eine strukturierte Lektion."
  const SkInstruction: string := "Odpovedaj v slovenčine. Vytvor štruktúrovanú lekciu."

  /** `getSystemPrompt`. */
  function SystemPrompt(language: Language): string
  {
    match language
    case Cs => CsSystemPrompt
    case En => EnSystemPrompt
    case De => DeSystemPrompt
    case Sk => SkSystemPrompt
  }

  const CsSystemPrompt: string :=
    "Jsi odborný vzdělávací konzultant. Vytváříš kvalitní, strukturované lekce z poskytnutého obsahu. Používáš jasný, srozumitelný jazyk a logickou strukturu."
  const EnSystemPrompt: string :=
    "You are an expert educational consultant. You create high-quality, structured lessons from provided content. You use clear, understandable language and logical structure."
  const DeSystemPrompt: string :=
    "Sie sind ein erfahrener Bildungsberater. Sie erstellen hochwertige, strukturierte Lektionen aus bereitgestellten Inhalten. Sie verwenden klare, verständliche Sprache und logische Struktur."
  const SkSystemPrompt: string :=
    "Ste odborný vzdelávací konzultant. Vytvárate kvalitné, štruktúrované lekcie z poskytnutého obsahu. Používate jasný, zrozumiteľný jazyk a logickú štruktúru."

  /** Any unsupported language code gets the Czech instruction and system prompt. */
  lemma UnknownLanguageIsCzech(code: string)
    requires code !in {"cs", "en", "de", "sk"}
    ensures Instruction(LanguageOf(code)) == Instruction(LanguageOf("cs"))
    ensures SystemPrompt(LanguageOf(code)) == SystemPrompt(LanguageOf("cs"))
  {
  }

  // ------------------------------------------------------------------ prompt

  const ExcerptLength: nat := 3000
  const TruncationMarker: string := "...[zkráceno]"

  /** `${content.substring(0, 3000)} ${content.length > 3000 ? '...[zkráceno]' : ''}`. */
  function Excerpt(content: string): string
  {
    Take(content, ExcerptLength) + " " + (if |content| > ExcerptLength then TruncationMarker else "")
  }

  /** A short content is embedded whole; a long one is cut to 3000 characters and marked. */
  lemma ExcerptRule(content: string)
    ensures |content| <= ExcerptLength ==> Excerpt(content) == content + " "
    ensures |content| > ExcerptLength ==> Excerpt(content) == content[..ExcerptLength] + " " + TruncationMarker
  {
  }

  /** Two contents that agree on their first 3000 characters and are both longer, or are equal, give the same excerpt. */
  lemma ExcerptIgnoresTail(a: string, b: string)
    requires |a| > ExcerptLength && |b| > ExcerptLength && a[..ExcerptLength] == b[..ExcerptLength]
    ensures Excerpt(a) == Excerpt(b)
  {
  }

  /**
   * `buildLessonPrompt`, as the three values it interpolates into its fixed
   * Czech template: the language instruction, the title and the excerpt.
   */
  datatype LessonPrompt = LessonPrompt(instruction: string, title: string, excerpt: string)

  function BuildLessonPrompt(content: string, title: string, code: string): (p: LessonPrompt)
    ensures p.instruction == Instruction(LanguageOf(code)) && p.title == title
    ensures |content| <= ExcerptLength ==> p.excerpt == content + " "
    ensures |content| > ExcerptLength ==> p.excerpt == content[..ExcerptLength] + " " + TruncationMarker
  {
    ExcerptRule(content);
    LessonPrompt(Instruction(LanguageOf(code)), title, Excerpt(content))
  }

  // ----------------------------------------------------------------- fallback

  /** The fallback templates exist for cs and en only; every other code, German and Slovak included, gets cs. */
  datatype Template = Template(intro: string, summary: string, keyPoints: string)

  const CsTemplate: Template :=
    Template("Tato lekce obsahuje důležité informace z nahraného obsahu.", "Shrnutí klíčových bodů z lekce.", "Klíčové body")
  const EnTemplate: Template :=
    Template("This lesson contains important information from the uploaded content.", "Summary of key points from the lesson.", "Key Points")

  function TemplateOf(code: string): (t: Template)
    ensures code != "en" ==> t == CsTemplate
  {
    if code == "en" then EnTemplate else CsTemplate
  }

  const IntroHeading: string := "Úvod"
  const ContentHeading: string := "Obsah"
  const SummaryHeading: string := "Shrnutí"
  const StudyTips: string := "\n- Prostudujte si poskytnutý obsah\n- Zaměřte se na klíčové informace\n- Aplikujte poznatky v praxi"

  /** The Markdown text of the fallback lesson. */
  function FallbackContent(content: string, title: string, t: Template): string
  {
    "# " + title + "\n\n## " + IntroHeading + "\n" + t.intro + "\n\n## " + ContentHeading + "\n" + content
    + "\n\n## " + t.keyPoints + StudyTips + "\n\n## " + SummaryHeading + "\n" + t.summary
  }

  /** `generateFallbackLesson`. */
  function FallbackLesson(content: string, title: string, code: string, timestamp: string): (r: GeneratedLesson)
    ensures r.sections == [IntroHeading, ContentHeading, TemplateOf(code).keyPoints, SummaryHeading]
    ensures r.sectionsCount == |r.sections| == 4
    ensures r.title == title && r.kind == FallbackGenerated
    ensures r.readingTime == ReadingTime(|content|)
  {
    var t := TemplateOf(code);
    GeneratedLesson(title, FallbackContent(content, title, t), [IntroHeading, ContentHeading, t.keyPoints, SummaryHeading],
                    timestamp, FallbackGenerated, 4, ReadingTime(|content|))
  }

  /** Every code but `en` gets the Czech fallback sections. */
  lemma FallbackLanguages(content: string, title: string, code: string, timestamp: string)
    ensures code != "en" ==> FallbackLesson(content, title, code, timestamp).sections[2] == "Klíčové body"
    ensures code == "en" ==> FallbackLesson(content, title, code, timestamp).sections[2] == "Key Points"
  {
  }

  /**
   * `generateLesson`: without a client, or when the request fails
   * (`reply` is `None`), the fallback lesson; otherwise the parsed reply.
   */
  method GenerateLesson(hasClient: bool, reply: Option<string>, rawContent: string, title: string, code: string,
                        timestamp: string) returns (lesson: GeneratedLesson)
    ensures !hasClient || reply.None? ==> lesson == FallbackLesson(rawContent, title, code, timestamp)
    ensures hasClient && reply.Some? ==>
              lesson.content == reply.value && lesson.kind == AiGenerated
              && lesson.sections == Sections(reply.value)
  {
    if !hasClient || reply.None? {
      return FallbackLesson(rawContent, title, code, timestamp);
    }
    lesson := ParseGeneratedLesson(reply.value, title, timestamp);
  }

  // -------------------------------------------------------------- key topics

  /** `.replace(/[^\w\s]/g, ' ')`. */
  function Scrub(s: string): (r: string)
    ensures |r| == |s|
  {
    seq(|s|, i requires 0 <= i < |s| => if IsWordChar(s[i]) || IsJsSpace(s[i]) then s[i] else ' ')
  }

  /** The candidate words: lower-cased, scrubbed, split at white space, longer than 4 characters. */
  function Words(content: string): (r: seq<string>)
    ensures forall w :: w in r ==> |w| > 4
  {
    Filter(SplitRuns(Scrub(Lower(content)), IsJsSpace), (w: string) => |w| > 4)
  }

  function Occurrences(ws: seq<string>, w: string): nat
  {
    if |ws| == 0 then 0 else Occurrences(ws[..|ws| - 1], w) + (if ws[|ws| - 1] == w then 1 else 0)
  }

  /** The frequency object as a map. */
  function FreqOf(ws: seq<string>): map<string, nat>
  {
    map w | w in ws :: Occurrences(ws, w)
  }

  function Freq(freq: map<string, nat>, w: string): nat
  {
    if w in freq then freq[w] else 0
  }

  lemma {:induction false} OccurrencesAbsent(ws: seq<string>, w: string)
    requires w !in ws
    ensures Occurrences(ws, w) == 0
  {
    if |ws| > 0 {
      OccurrencesAbsent(ws[..|ws| - 1], w);
    }
  }

  /** Counting one more word updates exactly that word's entry. */
  lemma FreqOfSnoc(ws: seq<string>, w: string)
    ensures FreqOf(ws + [w]) == FreqOf(ws)[w := Freq(FreqOf(ws), w) + 1]
  {
    var s := ws + [w];
    assert s[..|s| - 1] == ws;
    if w !in ws {
      OccurrencesAbsent(ws, w);
    }
    assert forall x :: x in s <==> x in ws || x == w;
  }

  /** The ranking the sort produces: frequencies never increase along the list. */
  predicate Ranked(s: seq<string>, freq: map<string, nat>)
  {
    forall i, j :: 0 <= i < j < |s| ==> Freq(freq, s[i]) >= Freq(freq, s[j])
  }

  /** Inserts `x` after every entry at least as frequent, which keeps the sort stable. */
  function Insert(x: string, s: seq<string>, freq: map<string, nat>): (r: seq<string>)
    ensures multiset(r) == multiset(s) + multiset{x}
  {
    if |s| == 0 then [x]
    else if Freq(freq, s[0]) >= Freq(freq, x) then
      assert s == [s[0]] + s[1..];
      [s[0]] + Insert(x, s[1..], freq)
    else
      assert s == [s[0]] + s[1..];
      [x] + s
  }

  lemma {:induction false} InsertKeepsRanked(x: string, s: seq<string>, freq: map<string, nat>)
    requires Ranked(s, freq)
    ensures Ranked(Insert(x, s, freq), freq)
  {
    if |s| > 0 {
      if Freq(freq, s[0]) >= Freq(freq, x) {
        RankedTail(s, freq);
        InsertKeepsRanked(x, s[1..], freq);
        InsertBounded(x, s[1..], freq, Freq(freq, s[0]));
        RankedCons(s[0], Insert(x, s[1..], freq), freq);
      } else {
        RankedCons(x, s, freq);
      }
    }
  }

  lemma RankedTail(s: seq<string>, freq: map<string, nat>)
    requires |s| > 0 && Ranked(s, freq)
    ensures Ranked(s[1..], freq)
    ensures forall k :: 0 <= k < |s| ==> Freq(freq, s[k]) <= Freq(freq, s[0])
  {
    forall i, j | 0 <= i < j < |s[1..]| ensures Freq(freq, s[1..][i]) >= Freq(freq, s[1..][j]) {
      assert s[1..][i] == s[i + 1] && s[1..][j] == s[j + 1];
    }
  }

  /** A list stays ranked when a head at least as frequent as all its elements is put in front. */
  lemma RankedCons(h: string, t: seq<string>, freq: map<string, nat>)
    requires Ranked(t, freq)
    requires forall k :: 0 <= k < |t| ==> Freq(freq, t[k]) <= Freq(freq, h)
    ensures Ranked([h] + t, freq)
  {
    var r := [h] + t;
    forall i, j | 0 <= i < j < |r| ensures Freq(freq, r[i]) >= Freq(freq, r[j]) {
      assert r[j] == t[j - 1];
      if i > 0 {
        assert r[i] == t[i - 1];
      }
    }
  }

  /** Inserting never brings in an element more frequent than a bound of all the others. */
  lemma InsertBounded(x: string, s: seq<string>, freq: map<string, nat>, b: nat)
    requires Freq(freq, x) <= b
    requires forall k :: 0 <= k < |s| ==> Freq(freq, s[k]) <= b
    ensures forall k :: 0 <= k < |Insert(x, s, freq)| ==> Freq(freq, Insert(x, s, freq)[k]) <= b
  {
    var r := Insert(x, s, freq);
    forall k | 0 <= k < |r| ensures Freq(freq, r[k]) <= b {
      assert r[k] in multiset(r);
      if r[k] != x {
        assert r[k] in multiset(s);
        var m :| 0 <= m < |s| && s[m] == r[k];
      }
    }
  }

  /** `Object.entries(frequency).sort(([,a], [,b]) => b - a).map(([word]) => word)`. */
  function SortByFrequency(keys: seq<string>, freq: map<string, nat>): (r: seq<string>)
    ensures multiset(r) == multiset(keys)
    ensures Ranked(r, freq)
  {
    if |keys| == 0 then []
    else
      assert keys == keys[..|keys| - 1] + [keys[|keys| - 1]];
      var sorted := SortByFrequency(keys[..|keys| - 1], freq);
      InsertKeepsRanked(keys[|keys| - 1], sorted, freq);
      Insert(keys[|keys| - 1], sorted, freq)
  }

  const TopicLimit: nat := 7

  /** The key topics of a content, as `extractKeyTopicsFallback` returns them. */
  function KeyTopics(content: string): seq<string>
  {
    var ws := Words(content);
    Take7(SortByFrequency(EntryOrder(Distinct(ws)), FreqOf(ws)))
  }

  /** A list whose elements are all equally frequent is already sorted: the stable sort leaves it as it is. */
  lemma {:induction false} EqualCountsKeepOrder(keys: seq<string>, freq: map<string, nat>, c: nat)
    requires forall i :: 0 <= i < |keys| ==> Freq(freq, keys[i]) == c
    ensures SortByFrequency(keys, freq) == keys
  {
    if |keys| > 0 {
      var prefix := keys[..|keys| - 1];
      var x := keys[|keys| - 1];
      assert forall k :: 0 <= k < |prefix| ==> Freq(freq, prefix[k]) == c;
      EqualCountsKeepOrder(prefix, freq, c);
      SortByFrequencySnoc(keys, freq);
      assert Freq(freq, x) == c;
      InsertAtEnd(x, prefix, freq);
      LastSplit(keys);
    }
  }

  lemma LastSplit(s: seq<string>)
    requires |s| > 0
    ensures s == s[..|s| - 1] + [s[|s| - 1]]
  {
  }

  lemma SortByFrequencySnoc(keys: seq<string>, freq: map<string, nat>)
    requires |keys| > 0
    ensures SortByFrequency(keys, freq) == Insert(keys[|keys| - 1], SortByFrequency(keys[..|keys| - 1], freq), freq)
  {
  }

  /** An element no more frequent than every entry goes to the end. */
  lemma {:induction false} InsertAtEnd(x: string, s: seq<string>, freq: map<string, nat>)
    requires forall k :: 0 <= k < |s| ==> Freq(freq, s[k]) >= Freq(freq, x)
    ensures Insert(x, s, freq) == s + [x]
  {
    if |s| > 0 {
      InsertAtEnd(x, s[1..], freq);
      SplitFirst(s);
    }
  }

  // ------------------------------------------------ the order of the entries

  /**
   * An array index: the canonical decimal form (no leading zero) of an
   * integer below 2^32 - 1. Object property keys of this form are listed
   * before all others.
   */
  predicate IsArrayIndex(w: string)
  {
    && |w| > 0
    && (forall i :: 0 <= i < |w| ==> '0' <= w[i] <= '9')
    && (w[0] != '0' || |w| == 1)
    && DecimalValue(w) < 0xFFFF_FFFF
  }

  /** The array-index keys, in insertion order. */
  function IndexKeys(keys: seq<string>): (r: seq<string>)
    ensures forall k :: 0 <= k < |r| ==> IsArrayIndex(r[k])
  {
    if |keys| == 0 then []
    else IndexKeys(keys[..|keys| - 1]) + (if IsArrayIndex(keys[|keys| - 1]) then [keys[|keys| - 1]] else [])
  }

  /** The other keys, in insertion order. */
  function OtherKeys(keys: seq<string>): (r: seq<string>)
    ensures forall k :: 0 <= k < |r| ==> !IsArrayIndex(r[k])
  {
    if |keys| == 0 then []
    else OtherKeys(keys[..|keys| - 1]) + (if IsArrayIndex(keys[|keys| - 1]) then [] else [keys[|keys| - 1]])
  }

  /** Every key is an array index or not. */
  lemma {:induction false} KeysPartitioned(keys: seq<string>)
    ensures multiset(IndexKeys(keys)) + multiset(OtherKeys(keys)) == multiset(keys)
  {
    if |keys| > 0 {
      var prefix := keys[..|keys| - 1];
      var x := keys[|keys| - 1];
      KeysPartitioned(prefix);
      assert keys == prefix + [x];
      PartitionStep(prefix, x);
      if IsArrayIndex(x) {
        assert multiset(IndexKeys(keys)) == multiset(IndexKeys(prefix)) + multiset{x};
        assert OtherKeys(keys) == OtherKeys(prefix);
      } else {
        assert multiset(OtherKeys(keys)) == multiset(OtherKeys(prefix)) + multiset{x};
        assert IndexKeys(keys) == IndexKeys(prefix);
      }
    }
  }

  /** Without array-index keys, every key keeps its place. */
  lemma {:induction false} NoIndexKeys(keys: seq<string>)
    requires forall k :: 0 <= k < |keys| ==> !IsArrayIndex(keys[k])
    ensures IndexKeys(keys) == [] && OtherKeys(keys) == keys
  {
    if |keys| > 0 {
      var prefix := keys[..|keys| - 1];
      NoIndexKeys(prefix);
      assert prefix + [keys[|keys| - 1]] == keys;
    }
  }

  lemma PartitionStep(prefix: seq<string>, x: string)
    ensures IndexKeys(prefix + [x]) == IndexKeys(prefix) + (if IsArrayIndex(x) then [x] else [])
    ensures OtherKeys(prefix + [x]) == OtherKeys(prefix) + (if IsArrayIndex(x) then [] else [x])
    ensures multiset(prefix + [x]) == multiset(prefix) + multiset{x}
  {
    assert (prefix + [x])[..|prefix|] == prefix;
  }

  predicate Ascending(s: seq<string>)
  {
    forall i, j :: 0 <= i < j < |s| ==> DecimalValue(s[i]) <= DecimalValue(s[j])
  }

  /** Inserts `x` before the first entry of greater value. */
  function InsertAscending(x: string, s: seq<string>): (r: seq<string>)
    ensures multiset(r) == multiset(s) + multiset{x}
  {
    if |s| == 0 then [x]
    else if DecimalValue(s[0]) <= DecimalValue(x) then
      assert s == [s[0]] + s[1..];
      [s[0]] + InsertAscending(x, s[1..])
    else
      assert s == [s[0]] + s[1..];
      [x] + s
  }

  lemma {:induction false} InsertKeepsAscending(x: string, s: seq<string>)
    requires Ascending(s)
    ensures Ascending(InsertAscending(x, s))
  {
    if |s| > 0 {
      if DecimalValue(s[0]) <= DecimalValue(x) {
        AscendingTail(s);
        InsertKeepsAscending(x, s[1..]);
        InsertAbove(x, s[1..], DecimalValue(s[0]));
        AscendingCons(s[0], InsertAscending(x, s[1..]));
      } else {
        AscendingTail(s);
        AscendingCons(x, s);
      }
    }
  }

  lemma AscendingTail(s: seq<string>)
    requires |s| > 0 && Ascending(s)
    ensures Ascending(s[1..])
    ensures forall k :: 0 <= k < |s| ==> DecimalValue(s[0]) <= DecimalValue(s[k])
  {
    forall i, j | 0 <= i < j < |s[1..]| ensures DecimalValue(s[1..][i]) <= DecimalValue(s[1..][j]) {
      assert s[1..][i] == s[i + 1] && s[1..][j] == s[j + 1];
    }
  }

  lemma AscendingCons(h: string, t: seq<string>)
    requires Ascending(t)
    requires forall k :: 0 <= k < |t| ==> DecimalValue(h) <= DecimalValue(t[k])
    ensures Ascending([h] + t)
  {
    var r := [h] + t;
    forall i, j | 0 <= i < j < |r| ensures DecimalValue(r[i]) <= DecimalValue(r[j]) {
      assert r[j] == t[j - 1];
      if i > 0 {
        assert r[i] == t[i - 1];
      }
    }
  }

  /** Inserting never brings in an element below a lower bound of all the others. */
  lemma InsertAbove(x: string, s: seq<string>, b: nat)
    requires b <= DecimalValue(x)
    requires forall k :: 0 <= k < |s| ==> b <= DecimalValue(s[k])
    ensures forall k :: 0 <= k < |InsertAscending(x, s)| ==> b <= DecimalValue(InsertAscending(x, s)[k])
  {
    var r := InsertAscending(x, s);
    forall k | 0 <= k < |r| ensures b <= DecimalValue(r[k]) {
      assert r[k] in multiset(r);
      if r[k] != x {
        assert r[k] in multiset(s);
        var m :| 0 <= m < |s| && s[m] == r[k];
      }
    }
  }

  /** The array-index keys in ascending numeric order. */
  function SortAscending(s: seq<string>): (r: seq<string>)
    ensures multiset(r) == multiset(s)
    ensures Ascending(r)
  {
    if |s| == 0 then []
    else
      assert s == s[..|s| - 1] + [s[|s| - 1]];
      var sorted := SortAscending(s[..|s| - 1]);
      InsertKeepsAscending(s[|s| - 1], sorted);
      InsertAscending(s[|s| - 1], sorted)
  }

  /**
   * The order in which `Object.entries` lists the keys of the frequency
   * object, given in insertion order: the array-index keys first, in
   * ascending numeric order, then every other key where it was inserted.
   */
  function EntryOrder(keys: seq<string>): (r: seq<string>)
    ensures multiset(r) == multiset(keys)
  {
    KeysPartitioned(keys);
    SortAscending(IndexKeys(keys)) + OtherKeys(keys)
  }

  /** In entry order every array index comes before every other key, and the array indices ascend. */
  lemma EntryOrderIndexFirst(keys: seq<string>)
    ensures var r := EntryOrder(keys);
            forall i, j :: 0 <= i < j < |r| && IsArrayIndex(r[j]) ==>
              IsArrayIndex(r[i]) && DecimalValue(r[i]) <= DecimalValue(r[j])
  {
    SortedIndexKeys(keys);
    IndexKeysFirst(SortAscending(IndexKeys(keys)), OtherKeys(keys));
  }

  /** Without array-index keys, entry order is insertion order. */
  lemma EntryOrderWithoutIndices(keys: seq<string>)
    requires forall k :: 0 <= k < |keys| ==> !IsArrayIndex(keys[k])
    ensures EntryOrder(keys) == keys
  {
    NoIndexKeys(keys);
    assert SortAscending([]) == [];
  }

  /** Array indices in ascending order followed by other keys list every array index first, in ascending order. */
  lemma IndexKeysFirst(front: seq<string>, back: seq<string>)
    requires Ascending(front) && forall k :: 0 <= k < |front| ==> IsArrayIndex(front[k])
    requires forall k :: 0 <= k < |back| ==> !IsArrayIndex(back[k])
    ensures var r := front + back;
            forall i, j :: 0 <= i < j < |r| && IsArrayIndex(r[j]) ==>
              IsArrayIndex(r[i]) && DecimalValue(r[i]) <= DecimalValue(r[j])
  {
    var r := front + back;
    forall i, j | 0 <= i < j < |r| && IsArrayIndex(r[j])
      ensures IsArrayIndex(r[i]) && DecimalValue(r[i]) <= DecimalValue(r[j])
    {
      assert r[i] == front[i] && r[j] == front[j];
    }
  }


  lemma SortedIndexKeys(keys: seq<string>)
    ensures forall k :: 0 <= k < |SortAscending(IndexKeys(keys))| ==> IsArrayIndex(SortAscending(IndexKeys(keys))[k])
  {
    var front := SortAscending(IndexKeys(keys));
    forall k | 0 <= k < |front| ensures IsArrayIndex(front[k]) {
      assert front[k] in multiset(IndexKeys(keys));
      var m :| 0 <= m < |IndexKeys(keys)| && IndexKeys(keys)[m] == front[k];
    }
  }

  /**
   * Words that occur equally often come out with the number first: the
   * words of "hello world 12345" give the topics 12345, hello, world.
   */
  lemma TiedNumberComesFirst()
    ensures var ws := ["hello", "world", "12345"];
            Take7(SortByFrequency(EntryOrder(Distinct(ws)), FreqOf(ws))) == ["12345", "hello", "world"]
  {
    ExampleKinds();
    TiedWordsOrder("hello", "world", "12345");
  }

  /** "12345" is an array index; words with a letter are not. */
  lemma ExampleKinds()
    ensures IsArrayIndex("12345") && !IsArrayIndex("hello") && !IsArrayIndex("world")
    ensures "hello" != "world" && "hello" != "12345" && "world" != "12345"
  {
    assert "hello"[0] == 'h' && "world"[0] == 'w' && "12345"[0] == '1';
    assert DecimalValue("12345") == 12345 by {
      assert "12345"[..4] == "1234" && "1234"[..3] == "123" && "123"[..2] == "12" && "12"[..1] == "1" && "1"[..0] == "";
    }
  }

  /** Three different words occurring once each: the array index first, then the others as they came. */
  lemma TiedWordsOrder(a: string, b: string, n: string)
    requires !IsArrayIndex(a) && !IsArrayIndex(b) && IsArrayIndex(n)
    requires a != b && a != n && b != n
    ensures Take7(SortByFrequency(EntryOrder(Distinct([a, b, n])), FreqOf([a, b, n]))) == [n, a, b]
  {
    var ws := [a, b, n];
    ThreeDistinct(a, b, n);
    ThreeEntries(a, b, n);
    ThreeCounts(a, b, n);
    EqualCountsKeepOrder([n, a, b], FreqOf(ws), 1);
  }

  lemma ThreeDistinct(a: string, b: string, n: string)
    requires a != b && a != n && b != n
    ensures Distinct([a, b, n]) == [a, b, n]
  {
    var ws := [a, b, n];
    assert ws[..2] == [a, b] && ws[..2][..1] == [a] && ws[..2][..1][..0] == [];
    assert Distinct(ws[..1]) == [a];
    assert Distinct(ws[..2]) == [a, b];
  }

  lemma ThreeEntries(a: string, b: string, n: string)
    requires !IsArrayIndex(a) && !IsArrayIndex(b) && IsArrayIndex(n)
    ensures EntryOrder([a, b, n]) == [n, a, b]
  {
    ThreePartition(a, b, n);
    EntryOrderUnfold([a, b, n]);
    SortAscendingOne(n);
    PrependOne(n, a, b);
  }

  lemma PrependOne(n: string, a: string, b: string)
    ensures [n] + [a, b] == [n, a, b]
  {
  }

  lemma SortAscendingOne(x: string)
    ensures SortAscending([x]) == [x]
  {
    assert [x][..0] == [];
  }

  lemma EntryOrderUnfold(keys: seq<string>)
    ensures EntryOrder(keys) == SortAscending(IndexKeys(keys)) + OtherKeys(keys)
  {
  }

  lemma ThreePartition(a: string, b: string, n: string)
    requires !IsArrayIndex(a) && !IsArrayIndex(b) && IsArrayIndex(n)
    ensures IndexKeys([a, b, n]) == [n] && OtherKeys([a, b, n]) == [a, b]
  {
    assert IndexKeys([]) == [] && OtherKeys([]) == [];
    PartitionStep([], a);
    assert [] + [a] == [a];
    PartitionStep([a], b);
    assert [a] + [b] == [a, b];
    PartitionStep([a, b], n);
    assert [a, b] + [n] == [a, b, n];
  }



  lemma ThreeCounts(a: string, b: string, n: string)
    requires a != b && a != n && b != n
    ensures forall i :: 0 <= i < 3 ==> Freq(FreqOf([a, b, n]), [n, a, b][i]) == 1
  {
    var ws := [a, b, n];
    assert Occurrences([], a) == 0 && Occurrences([], b) == 0 && Occurrences([], n) == 0;
    OccurrencesSnoc([], a);
    assert [] + [a] == [a];
    OccurrencesSnoc([a], b);
    assert [a] + [b] == [a, b];
    OccurrencesSnoc([a, b], n);
    assert [a, b] + [n] == ws;
    assert a in ws && b in ws && n in ws;
  }

  /** One more word adds one to its own count and nothing to the others. */
  lemma OccurrencesSnoc(ws: seq<string>, x: string)
    ensures forall w :: Occurrences(ws + [x], w) == Occurrences(ws, w) + (if x == w then 1 else 0)
  {
    assert (ws + [x])[..|ws|] == ws;
  }





  /** `.slice(0, 7)`. */
  function Take7(s: seq<string>): (r: seq<string>)
    ensures |r| == if |s| <= TopicLimit then |s| else TopicLimit
    ensures r == s[..|r|]
  {
    if |s| <= TopicLimit then s else s[..TopicLimit]
  }

  /**
   * `extractKeyTopicsFallback`: the loop counts each word in a frequency
   * object, `Object.entries` lists its keys in entry order, then the entries
   * are sorted by decreasing count and the first seven kept.
   */
  method ExtractKeyTopicsFallback(content: string) returns (topics: seq<string>)
    ensures topics == KeyTopics(content)
  {
    var words := Words(content);
    var keys, freq := CountWords(words);
    var sorted := SortByFrequency(EntryOrder(keys), freq);
    topics := if |sorted| <= TopicLimit then sorted else sorted[..TopicLimit];
  }

  /** The counting loop: the frequency object and its keys in insertion order. */
  method CountWords(words: seq<string>) returns (keys: seq<string>, freq: map<string, nat>)
    ensures keys == Distinct(words) && freq == FreqOf(words)
  {
    keys := [];
    freq := map[];
    for i := 0 to |words|
      invariant keys == Distinct(words[..i])
      invariant freq == FreqOf(words[..i])
    {
      var w := words[i];
      CountStep(words, i);
      if w in freq {
        freq := freq[w := freq[w] + 1];
      } else {
        keys := keys + [w];
        freq := freq[w := 1];
      }
    }
    assert words[..|words|] == words;
  }

  /** What counting the i-th word does to the distinct list and the frequency map. */
  lemma CountStep(words: seq<string>, i: nat)
    requires i < |words|
    ensures var ws := words[..i]; var w := words[i];
            && FreqOf(words[..i + 1]) == FreqOf(ws)[w := Freq(FreqOf(ws), w) + 1]
            && (w in FreqOf(ws) ==> Distinct(words[..i + 1]) == Distinct(ws) && Freq(FreqOf(ws), w) == FreqOf(ws)[w])
            && (w !in FreqOf(ws) ==> Distinct(words[..i + 1]) == Distinct(ws) + [w] && Freq(FreqOf(ws), w) == 0)
  {
    var ws := words[..i];
    var w := words[i];
    assert words[..i + 1] == ws + [w];
    FreqOfSnoc(ws, w);
    DistinctElements(ws);
    assert (ws + [w])[..|ws|] == ws;
  }

  lemma MultisetNoDuplicates(s: seq<string>, t: seq<string>)
    requires multiset(s) == multiset(t) && NoDuplicates(s)
    ensures NoDuplicates(t)
  {
    forall i, j | 0 <= i < j < |t| ensures t[i] != t[j] {
      if t[i] == t[j] {
        assert t == t[..j] + [t[j]] + t[j + 1..];
        assert t[i] in t[..j];
        assert multiset(t)[t[i]] >= 2 by {
          assert multiset(t) == multiset(t[..j]) + multiset{t[j]} + multiset(t[j + 1..]);
        }
        NoDuplicatesCountOne(s, t[i]);
        assert false;
      }
    }
  }

  lemma {:induction false} NoDuplicatesCountOne(s: seq<string>, x: string)
    requires NoDuplicates(s)
    ensures multiset(s)[x] <= 1
  {
    if |s| > 0 {
      assert s == [s[0]] + s[1..];
      assert NoDuplicates(s[1..]) by {
        forall i, j | 0 <= i < j < |s[1..]| ensures s[1..][i] != s[1..][j] {
          assert s[1..][i] == s[i + 1] && s[1..][j] == s[j + 1];
        }
      }
      NoDuplicatesCountOne(s[1..], x);
    }
  }

  /** At most seven topics, all different, each a word of the content longer than four characters. */
  lemma KeyTopicsShape(content: string)
    ensures |KeyTopics(content)| <= TopicLimit
    ensures NoDuplicates(KeyTopics(content))
    ensures forall t :: t in KeyTopics(content) ==> t in Words(content) && |t| > 4
  {
    RankedWordsShape(Words(content));
  }

  /** The first seven words by frequency are different words of the list. */
  lemma RankedWordsShape(ws: seq<string>)
    ensures var topics := Take7(SortByFrequency(EntryOrder(Distinct(ws)), FreqOf(ws)));
            NoDuplicates(topics) && forall t :: t in topics ==> t in ws
  {
    var sorted := SortByFrequency(EntryOrder(Distinct(ws)), FreqOf(ws));
    SortedShape(ws, sorted);
    PrefixShape(sorted, |Take7(sorted)|, ws);
  }

  /** A reordering of the distinct words has no duplicates and holds only words of the list. */
  lemma SortedShape(ws: seq<string>, sorted: seq<string>)
    requires multiset(sorted) == multiset(Distinct(ws))
    ensures NoDuplicates(sorted) && forall t :: t in sorted ==> t in ws
  {
    DistinctHasNoDuplicates(ws);
    MultisetNoDuplicates(Distinct(ws), sorted);
    DistinctElements(ws);
    forall t | t in sorted ensures t in ws {
      assert t in multiset(Distinct(ws));
    }
  }

  /** A prefix of a list without duplicates, all of whose elements are words, has the same two properties. */
  lemma PrefixShape(s: seq<string>, n: nat, ws: seq<string>)
    requires n <= |s| && NoDuplicates(s) && forall t :: t in s ==> t in ws
    ensures NoDuplicates(s[..n]) && forall t :: t in s[..n] ==> t in ws
  {
  }

  /** The topics come in order of non-increasing frequency in the content. */
  lemma KeyTopicsRanked(content: string, i: nat, j: nat)
    requires i < j < |KeyTopics(content)|
    ensures Occurrences(Words(content), KeyTopics(content)[i]) >= Occurrences(Words(content), KeyTopics(content)[j])
  {
    var ws := Words(content);
    var sorted := SortByFrequency(EntryOrder(Distinct(ws)), FreqOf(ws));
    var r := KeyTopics(content);
    assert r[i] == sorted[i] && r[j] == sorted[j];
    DistinctElements(ws);
    assert sorted[i] in multiset(Distinct(ws)) && sorted[j] in multiset(Distinct(ws));
    assert sorted[i] in ws && sorted[j] in ws;
  }

  /** Every word of the content is a topic, or seven topics exist and the last is at least as frequent. */
  lemma KeyTopicsComplete(content: string, w: string)
    requires w in Words(content)
    ensures w in KeyTopics(content)
            || (|KeyTopics(content)| == TopicLimit
                && Occurrences(Words(content), w) <= Occurrences(Words(content), KeyTopics(content)[TopicLimit - 1]))
  {
    RankedWordsComplete(Words(content), w);
  }

  /** A word of the list is among the first seven by frequency, or the seventh is at least as frequent. */
  lemma RankedWordsComplete(ws: seq<string>, w: string)
    requires w in ws
    ensures var topics := Take7(SortByFrequency(EntryOrder(Distinct(ws)), FreqOf(ws)));
            w in topics || (|topics| == TopicLimit && Occurrences(ws, w) <= Occurrences(ws, topics[TopicLimit - 1]))
  {
    var freq := FreqOf(ws);
    var sorted := SortByFrequency(EntryOrder(Distinct(ws)), freq);
    DistinctElements(ws);
    assert w in multiset(sorted);
    RankedTopSeven(sorted, freq, w);
    var topics := Take7(sorted);
    if w !in topics {
      var last := topics[TopicLimit - 1];
      assert last in multiset(Distinct(ws));
    }
  }

  /** In a ranked list, an element outside the first seven is at most as frequent as the seventh. */
  lemma RankedTopSeven(sorted: seq<string>, freq: map<string, nat>, w: string)
    requires Ranked(sorted, freq) && w in sorted
    ensures var topics := Take7(sorted);
            w in topics || (|topics| == TopicLimit && Freq(freq, w) <= Freq(freq, topics[TopicLimit - 1]))
  {
    var p :| 0 <= p < |sorted| && sorted[p] == w;
    if p < TopicLimit {
      assert Take7(sorted)[p] == w;
    }
  }
}
