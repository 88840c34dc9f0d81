/**
 * The question set of a phone training
 * (react-dashboard/backend/routes/content-loader.js): questions built
 * around the company's first ready content source, or a fixed set per
 * training type when there is none. The HTTP request for the sources is a
 * parameter: `Err` stands for the request throwing, `Ok(None)` for a reply
 * without a `content_sources` list.
 */
module ContentLoader {
  import opened Wrappers

  /** A content source as the proxy lists it; a missing or null word count is `None`. */
  datatype ContentSource = ContentSource(id: int, title: string, status: string, wordCount: Option<int>)

  /** The object `loadContentForTraining` returns; the content keys are absent without content. */
  datatype TrainingContent = TrainingContent(
    hasContent: bool,
    contentTitle: Option<string>,
    contentId: Option<int>,
    wordCount: Option<int>,
    questions: seq<string>)

  predicate IsReady(s: ContentSource)
  {
    s.status == "ready"
  }

  /** `contentSources.filter(source => source.status === 'ready')[0]`. */
  function FirstReady(sources: seq<ContentSource>): (r: Option<ContentSource>)
    ensures r.None? <==> forall k :: 0 <= k < |sources| ==> !IsReady(sources[k])
    ensures r.Some? ==> exists k :: 0 <= k < |sources| && sources[k] == r.value && IsReady(r.value)
                                    && forall j :: 0 <= j < k ==> !IsReady(sources[j])
  {
    if |sources| == 0 then None
    else if IsReady(sources[0]) then Some(sources[0])
    else
      var rest := FirstReady(sources[1..]);
      assert forall k :: 1 <= k < |sources| ==> sources[k] == sources[1..][k - 1];
      if rest.Some? then
        ghost var k :| 0 <= k < |sources[1..]| && sources[1..][k] == rest.value && IsReady(rest.value)
                       && forall j :: 0 <= j < k ==> !IsReady(sources[1..][j]);
        assert sources[k + 1] == rest.value;
        assert forall j :: 0 <= j < k + 1 ==> !IsReady(sources[j]) by {
          forall j | 0 <= j < k + 1 ensures !IsReady(sources[j]) {
            if j > 0 { assert sources[j] == sources[1..][j - 1]; }
          }
        }
        rest
      else
        rest
  }

  /** The question that opens every content-based training; it quotes the content title. */
  function TitleQuestion(title: string): string
  {
    "Na základě nahraného materiálu \"" + title + "\", vysvětlete mi hlavní téma."
  }

  /** The fourth, type-specific question; unknown types get the generic one. */
  function TypeQuestion(trainingType: string): string
  {
    if trainingType == "english_business" then "Jaké business principy jste si z lekce zapamatovali?"
    else if trainingType == "english_technical" then "Popište mi technický postup, který jste se naučili."
    else if trainingType == "safety_training" then "Jaká bezpečnostní opatření jsou klíčová podle této lekce?"
    else "Máte k probranému tématu nějaké dotazy?"
  }

  const ImportanceQuestion: string := "Co je podle vás nejdůležitější informace z tohoto školení?"
  const UsageQuestion: string := "Jak byste využili tyto znalosti ve své práci?"

  /** `generateQuestionsForContent`: three base questions, then the type question pushed onto them. */
  method GenerateQuestionsForContent(title: string, trainingType: string) returns (questions: seq<string>)
    ensures |questions| == 4
    ensures questions[0] == TitleQuestion(title)
    ensures questions[3] == TypeQuestion(trainingType)
  {
    questions := [TitleQuestion(title), ImportanceQuestion, UsageQuestion];
    questions := questions + [TypeQuestion(trainingType)];
  }

  predicate KnownDefaultType(trainingType: string)
  {
    trainingType in {"english_basic", "english_business", "english_technical", "safety_training", "german_basic"}
  }

  const BasicDefaults: seq<string> :=
    ["Řekněte mi něco o sobě a vaší práci.", "Jaké máte zkušenosti s tímto tématem?", "Co byste se chtěli naučit?"]
  const BusinessDefaults: seq<string> :=
    ["Popište mi vaši roli v business prostředí.", "Jaké business výzvy řešíte?",
     "Co očekáváte od tohoto business školení?"]
  const TechnicalDefaults: seq<string> :=
    ["Jaké technické procesy používáte v práci?", "S jakými technickými výzvami se setkáváte?",
     "Co byste chtěli zlepšit ve svých technických dovednostech?"]
  const SafetyDefaults: seq<string> :=
    ["Jaké bezpečnostní postupy dodržujete na pracovišti?", "Setkali jste se někdy s nebezpečnou situací?",
     "Co považujete za nejdůležitější v bezpečnosti práce?"]
  const GermanDefaults: seq<string> :=
    ["Jaké jsou vaše cíle pro toto školení?", "Máte s tímto tématem nějaké zkušenosti?",
     "Co byste si chtěli z lekce odnést?"]

  /** `getDefaultQuestionsForTraining`: the table entry, or english_basic's for any other type. */
  function DefaultQuestions(trainingType: string): (r: seq<string>)
    ensures |r| == 3
  {
    if trainingType == "english_business" then BusinessDefaults
    else if trainingType == "english_technical" then TechnicalDefaults
    else if trainingType == "safety_training" then SafetyDefaults
    else if trainingType == "german_basic" then GermanDefaults
    else BasicDefaults
  }

  /** Every type outside the table gets english_basic's questions. */
  lemma UnknownTypeGetsBasicDefaults(trainingType: string)
    requires !KnownDefaultType(trainingType)
    ensures DefaultQuestions(trainingType) == DefaultQuestions("english_basic")
  {
  }

  /** The training type's default question set without content. */
  function NoContent(trainingType: string): TrainingContent
  {
    TrainingContent(false, None, None, None, DefaultQuestions(trainingType))
  }

  /** `loadContentForTraining`, given the outcome of the request for the company's sources. */
  method LoadContentForTraining(trainingType: string, fetched: Result<Option<seq<ContentSource>>>) returns (r: TrainingContent)
    ensures r.hasContent <==> fetched.Ok? && fetched.value.Some? && FirstReady(fetched.value.value).Some?
    ensures !r.hasContent ==> r == NoContent(trainingType)
    ensures r.hasContent ==>
              var source := FirstReady(fetched.value.value).value;
              && r.contentTitle == Some(source.title) && r.contentId == Some(source.id)
              && r.wordCount == Some(source.wordCount.GetOr(0))
              && |r.questions| == 4 && r.questions[0] == TitleQuestion(source.title)
              && r.questions[3] == TypeQuestion(trainingType)
  {
    if fetched.Err? || fetched.value.None? {
      return NoContent(trainingType);
    }
    var ready := FirstReady(fetched.value.value);
    if ready.None? {
      return NoContent(trainingType);
    }
    var source := ready.value;
    var questions := GenerateQuestionsForContent(source.title, trainingType);
    var words := if source.wordCount.None? || source.wordCount.value == 0 then 0 else source.wordCount.value;
    r := TrainingContent(true, Some(source.title), Some(source.id), Some(words), questions);
  }

  /** The first ready source is chosen even when later ones are ready too, and sources before it are never ready. */
  lemma {:induction false} ReadySourceIsFirst(sources: seq<ContentSource>, k: nat)
    requires k < |sources| && IsReady(sources[k])
    requires forall j :: 0 <= j < k ==> !IsReady(sources[j])
    ensures FirstReady(sources) == Some(sources[k])
  {
    if k > 0 {
      assert !IsReady(sources[0]);
      ReadySourceIsFirst(sources[1..], k - 1);
    }
  }
}
