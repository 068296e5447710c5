/**
 * The completion-service adapter: the defensive JSON wrapper, the JSON feature
 * functions, and `answerQuestion` with its offline keyword fallback.
 *
 * The external completion API is an oracle: each call is given the `Completion`
 * the API produced. `JSON.parse` is the arrow `parse`, `None` standing for a throw.
 */
module OpenAiService {
  import opened Wrappers
  import opened JsText

  /** A parsed JSON value. */
  datatype Json =
    | JNull
    | JBool(b: bool)
    | JNumber(n: real)
    | JString(s: string)
    | JArray(items: seq<Json>)
    | JObject(members: seq<(string, Json)>)

  /** `{}` */
  const EmptyObject: Json := JObject([])

  /** What one request to the completion API produced: the first choice's content (possibly `null`), or a thrown error. */
  datatype Completion = Content(content: Option<string>) | RequestError(message: string)

  /**
   * `safeJsonParse(text)`: `{}` for missing or empty text and for text the parser
   * rejects; otherwise what the parser produced. It never throws.
   */
  function SafeJsonParse(text: Option<string>, parse: string -> Option<Json>): (r: Json)
    ensures r == EmptyObject || (text.Some? && parse(text.value) == Some(r))
    ensures text.None? || text == Some("") || parse(text.value).None? ==> r == EmptyObject
    ensures text.Some? && text.value != "" && parse(text.value).Some? ==> r == parse(text.value).value
  {
    if text.None? || text.value == "" then EmptyObject
    else match parse(text.value)
      case Some(v) => v
      case None => EmptyObject
  }

  /** `content || fallback`: JavaScript's `||` keeps a string unless it is `null` or empty. */
  function OrElse(content: Option<string>, fallback: string): (r: string)
    ensures content.Some? && content.value != "" ==> r == content.value
    ensures content.None? || content == Some("") ==> r == fallback
  {
    if content.Some? && content.value != "" then content.value else fallback
  }

  /**
   * The shared shape of `generateCalendar`, `generateMindMap`, `summarizeLecture`,
   * `generateHint`, `generateQuiz`, `checkPlagiarism` and `generateSuggestions`:
   * `"{}"` replaces missing content, the text goes through `safeJsonParse`, and a
   * request error is rethrown.
   */
  function JsonFeature(completion: Completion, parse: string -> Option<Json>): (r: Result<Json, string>)
    ensures completion.RequestError? <==> r.Failure?
    ensures completion.RequestError? ==> r.error == completion.message
    ensures r.Success? ==> r.value == EmptyObject || parse(OrElse(completion.content, "{}")) == Some(r.value)
    ensures completion.Content? && parse(OrElse(completion.content, "{}")).Some? ==>
      r == Success(parse(OrElse(completion.content, "{}")).value)
  {
    match completion
    case RequestError(e) => Failure(e)
    case Content(c) => Success(SafeJsonParse(Some(OrElse(c, "{}")), parse))
  }

  /** A JSON parser that reads `"{}"` as the empty object, as `JSON.parse` does. */
  ghost predicate ReadsEmptyObject(parse: string -> Option<Json>) {
    parse("{}") == Some(EmptyObject)
  }

  /** Missing content, and content the parser rejects, both reach the caller as `{}` rather than as an error. */
  lemma JsonFeatureEmptyObject(completion: Completion, parse: string -> Option<Json>)
    requires ReadsEmptyObject(parse)
    requires completion.Content?
    requires completion.content.None? || completion.content == Some("") || parse(completion.content.value).None?
    ensures JsonFeature(completion, parse) == Success(EmptyObject)
  {
  }

  /** The placeholder key that the service treats as no key at all. */
  const PlaceholderKey: string := "181005"

  /** `!apiKey || apiKey === "181005"`: no usable key is configured. */
  predicate UsesFallback(apiKey: Option<string>)
    ensures apiKey == Some(PlaceholderKey) ==> UsesFallback(apiKey)
    ensures apiKey.Some? && apiKey.value != "" && apiKey.value != PlaceholderKey ==> !UsesFallback(apiKey)
  {
    apiKey.None? || apiKey.value == "" || apiKey.value == PlaceholderKey
  }

  const ScienceTopics: seq<string> := ["physics", "chemistry", "biology", "science", "atom", "molecule", "cell"]
  const MathTopics: seq<string> := ["math", "algebra", "calculus", "equation", "formula", "geometry", "trigonometry"]
  const LiteratureTopics: seq<string> := ["literature", "book", "novel", "poem", "author", "writing", "story"]

  /** `topics.some(topic => text.includes(topic))` */
  predicate MentionsAny(text: string, topics: seq<string>)
    ensures topics == [] ==> !MentionsAny(text, topics)
    ensures "" in topics ==> MentionsAny(text, topics)
  {
    assert "" in topics ==> OccursAt(text, "", 0);
    exists t :: t in topics && Includes(text, t)
  }

  /** The four canned fallback paragraphs. */
  datatype Topic = Science | Math | Literature | General

  /** The fallback's topic detection: lower-case, then science, math and literature in that order. */
  function Classify(question: string): (t: Topic)
    ensures t == Science <==> MentionsAny(ToLower(question), ScienceTopics)
    ensures t == Math <==> !MentionsAny(ToLower(question), ScienceTopics) && MentionsAny(ToLower(question), MathTopics)
    ensures t == Literature <==>
      !MentionsAny(ToLower(question), ScienceTopics) && !MentionsAny(ToLower(question), MathTopics)
      && MentionsAny(ToLower(question), LiteratureTopics)
  {
    var lower := ToLower(question);
    if MentionsAny(lower, ScienceTopics) then Science
    else if MentionsAny(lower, MathTopics) then Math
    else if MentionsAny(lower, LiteratureTopics) then Literature
    else General
  }

  const ScienceAnswer: string := "Based on general scientific principles, I can tell you that science is a systematic approach to understanding the natural world through observation and experimentation. For detailed information on this specific scientific topic, I recommend checking your course textbook or visiting educational websites like Khan Academy."
  const MathAnswer: string := "Mathematics is all about patterns, relationships, and problem-solving. To fully address this specific math question, you'd benefit from reviewing your course materials or checking online resources like Khan Academy or Paul's Online Math Notes."
  const LiteratureAnswer: string := "Literature allows us to explore different perspectives and human experiences through written works. For more specific analysis on this literary topic, I recommend consulting your course materials or checking online resources like SparkNotes or LitCharts."
  const GeneralAnswer: string := "I understand your question, but I'm currently running in a demonstration mode with limited knowledge. For the most accurate information on this topic, I recommend consulting your course materials or relevant educational websites."

  /** The reply when the model returned no content. */
  const NoContentAnswer: string := "I'm sorry, I couldn't process that question. Please try again."

  /** The reply when the request to the model failed. */
  const ConnectionAnswer: string := "I apologize, but I'm having trouble connecting to my knowledge base right now. Please try again in a few moments, or check if the OpenAI API key is valid."

  /**
   * The fallback's canned paragraph. The four paragraphs differ, so the answer
   * tells which topic was detected.
   */
  function FallbackAnswer(question: string): (a: string)
    ensures a == ScienceAnswer <==> Classify(question) == Science
    ensures a == MathAnswer <==> Classify(question) == Math
    ensures a == LiteratureAnswer <==> Classify(question) == Literature
    ensures a == GeneralAnswer <==> Classify(question) == General
  {
    AnswersDistinct();
    match Classify(question)
    case Science => ScienceAnswer
    case Math => MathAnswer
    case Literature => LiteratureAnswer
    case General => GeneralAnswer
  }

  /** The four fallback paragraphs have different lengths, so they differ. */
  lemma AnswersDistinct()
    ensures ScienceAnswer != MathAnswer && ScienceAnswer != LiteratureAnswer && ScienceAnswer != GeneralAnswer
    ensures MathAnswer != LiteratureAnswer && MathAnswer != GeneralAnswer && LiteratureAnswer != GeneralAnswer
  {
    assert |ScienceAnswer| == 322 && |MathAnswer| == 243 && |LiteratureAnswer| == 254 && |GeneralAnswer| == 229;
  }

  /**
   * `answerQuestion(question)`: the `response` text. Without a usable key the
   * canned fallback is returned and the API is never consulted; otherwise the
   * model's content, or a fixed text for empty content or for a failed request.
   * It never throws.
   */
  function AnswerQuestion(apiKey: Option<string>, question: string, completion: Completion): (r: Result<string, string>)
    ensures r.Success?
    ensures UsesFallback(apiKey) ==> r.value == FallbackAnswer(question)
    ensures !UsesFallback(apiKey) && completion.RequestError? ==> r.value == ConnectionAnswer
    ensures !UsesFallback(apiKey) && completion.Content? ==> r.value == OrElse(completion.content, NoContentAnswer)
  {
    if UsesFallback(apiKey) then Success(FallbackAnswer(question))
    else match completion
      case Content(c) => Success(OrElse(c, NoContentAnswer))
      case RequestError(_) => Success(ConnectionAnswer)
  }

  /** Without a usable key the answer does not depend on what the API would have said. */
  lemma FallbackIgnoresCompletion(apiKey: Option<string>, question: string, c1: Completion, c2: Completion)
    requires UsesFallback(apiKey)
    ensures AnswerQuestion(apiKey, question, c1) == AnswerQuestion(apiKey, question, c2)
  {
  }

  /** With a usable key, the answer is the model's non-empty content, or one of the two fixed texts. */
  lemma ModelAnswerShape(apiKey: Option<string>, question: string, completion: Completion)
    requires !UsesFallback(apiKey)
    ensures var a := AnswerQuestion(apiKey, question, completion).value;
      a == NoContentAnswer || a == ConnectionAnswer
      || (completion.Content? && completion.content == Some(a) && a != "")
  {
  }

  /** Matching ignores letter case: upper-casing or lower-casing a question never changes its topic. */
  lemma ClassifyIgnoresCase(question: string)
    ensures Classify(ToUpper(question)) == Classify(question)
    ensures Classify(ToLower(question)) == Classify(question)
  {
    ToLowerForgetsCase(question);
  }

  /**
   * A science keyword written in any letter case, anywhere in the question, even
   * inside a longer word, makes it a science question, whatever else it mentions.
   */
  lemma ScienceKeywordAnywhere(pre: string, word: string, post: string)
    requires ToLower(word) in ScienceTopics
    ensures Classify(pre + word + post) == Science
  {
    ToLowerConcat(pre + word, post);
    ToLowerConcat(pre, word);
    IncludesMiddle(ToLower(pre), ToLower(word), ToLower(post));
  }

  /** A math keyword in any case, anywhere, makes a math question unless a science keyword is also there. */
  lemma MathKeywordAnywhere(pre: string, word: string, post: string)
    requires ToLower(word) in MathTopics
    requires !MentionsAny(ToLower(pre + word + post), ScienceTopics)
    ensures Classify(pre + word + post) == Math
  {
    ToLowerConcat(pre + word, post);
    ToLowerConcat(pre, word);
    IncludesMiddle(ToLower(pre), ToLower(word), ToLower(post));
  }

  /** A literature keyword in any case, anywhere, makes a literature question unless a science or math keyword is also there. */
  lemma LiteratureKeywordAnywhere(pre: string, word: string, post: string)
    requires ToLower(word) in LiteratureTopics
    requires !MentionsAny(ToLower(pre + word + post), ScienceTopics)
    requires !MentionsAny(ToLower(pre + word + post), MathTopics)
    ensures Classify(pre + word + post) == Literature
  {
    ToLowerConcat(pre + word, post);
    ToLowerConcat(pre, word);
    IncludesMiddle(ToLower(pre), ToLower(word), ToLower(post));
  }

  /** Science is checked first: a question about physics and calculus gets the science paragraph. */
  lemma ScienceBeforeMath()
    ensures Classify("How does Calculus help in Physics?") == Science
    ensures FallbackAnswer("How does Calculus help in Physics?") == ScienceAnswer
  {
    assert ToLower("Physics") == "physics" by {
      assert forall i :: 0 <= i < 7 ==> ToLower("Physics")[i] == "physics"[i];
    }
    ScienceKeywordAnywhere("How does Calculus help in ", "Physics", "?");
    assert "How does Calculus help in " + "Physics" + "?" == "How does Calculus help in Physics?";
  }

  /** Matching is by substring, not by whole word: "excellent" contains "cell". */
  lemma SubstringMatch()
    ensures Classify("What makes an essay excellent?") == Science
  {
    assert ToLower("cell") == "cell" by {
      assert forall i :: 0 <= i < 4 ==> ToLower("cell")[i] == "cell"[i];
    }
    ScienceKeywordAnywhere("What makes an essay ex", "cell", "ent?");
    assert "What makes an essay ex" + "cell" + "ent?" == "What makes an essay excellent?";
  }

  /** A question mentioning no keyword at all gets the demonstration-mode paragraph. */
  lemma NoKeywordIsGeneral(question: string)
    requires forall t :: t in ScienceTopics + MathTopics + LiteratureTopics ==> !Includes(ToLower(question), t)
    ensures FallbackAnswer(question) == GeneralAnswer
  {
  }
}
