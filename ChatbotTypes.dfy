/**
 * The data contracts of the chat tutor (src/ai/flows/chatbot.types.ts).
 *
 * The application declares them as zod schemas: a generated object is accepted
 * only if it has the right fields, of the right kinds, in the right numbers.
 * Here a raw JSON value is checked by validity predicates that say exactly
 * what each schema demands, a parser turns an accepted value into a typed
 * record (and accepts exactly the values the predicates accept), and an
 * encoder turns a typed record back into JSON; the round-trip lemma at the end
 * ties the three together.
 */
module ChatbotTypes {
  import opened Wrappers

  /** A JSON value, as a model response or a request body carries it. */
  datatype Json =
    | JNull
    | JBool(b: bool)
    | JNum(n: real)
    | JStr(s: string)
    | JArr(items: seq<Json>)
    | JObj(fields: map<string, Json>)

  // Size bounds of the schemas.
  const QuizOptionCount := 4
  const MinKeyPoints := 3
  const MaxKeyPoints := 5
  const MinSteps := 3
  const MaxSteps := 6
  const MinCauseEffects := 2
  const MaxCauseEffects := 4
  const MinQuizQuestions := 3
  const MaxQuizQuestions := 5

  /** One multiple-choice question of the mini quiz. */
  datatype QuizQuestion = QuizQuestion(question: string, options: seq<string>, correctAnswer: string)

  datatype KeyPoint = KeyPoint(title: string, description: string)

  datatype CauseEffect = CauseEffect(cause: string, effect: string)

  /** The tutoring content generated for one topic; also the chatbot's output. */
  datatype LearningPack = LearningPack(
    simpleSummary: string,
    keyLearningPoints: seq<KeyPoint>,
    stepByStepExplanation: seq<string>,
    causeAndEffect: seq<CauseEffect>,
    quizQuestions: seq<QuizQuestion>)

  /** The request the chat page sends; the data-URI format of the file is only described, never checked. */
  datatype ChatbotInput = ChatbotInput(message: string, fileDataUri: Option<string>)

  predicate InRange(n: int, lo: int, hi: int) {
    lo <= n <= hi
  }

  // ---------------------------------------------------------------------------
  // Validity of raw JSON: what each schema accepts.
  // An object may carry keys the schema does not mention; they are ignored.
  // ---------------------------------------------------------------------------

  predicate HasString(fields: map<string, Json>, key: string) {
    key in fields && fields[key].JStr?
  }

  predicate HasArray(fields: map<string, Json>, key: string) {
    key in fields && fields[key].JArr?
  }

  predicate IsQuizQuestionJson(j: Json) {
    j.JObj?
    && HasString(j.fields, "question")
    && HasArray(j.fields, "options")
    && |j.fields["options"].items| == QuizOptionCount
    && (forall k :: 0 <= k < |j.fields["options"].items| ==> j.fields["options"].items[k].JStr?)
    && HasString(j.fields, "correctAnswer")
  }

  predicate IsKeyPointJson(j: Json) {
    j.JObj? && HasString(j.fields, "title") && HasString(j.fields, "description")
  }

  predicate IsCauseEffectJson(j: Json) {
    j.JObj? && HasString(j.fields, "cause") && HasString(j.fields, "effect")
  }

  predicate IsLearningPackJson(j: Json) {
    j.JObj?
    && HasString(j.fields, "simpleSummary")
    && HasArray(j.fields, "keyLearningPoints")
    && InRange(|j.fields["keyLearningPoints"].items|, MinKeyPoints, MaxKeyPoints)
    && (forall k :: 0 <= k < |j.fields["keyLearningPoints"].items| ==>
          IsKeyPointJson(j.fields["keyLearningPoints"].items[k]))
    && HasArray(j.fields, "stepByStepExplanation")
    && InRange(|j.fields["stepByStepExplanation"].items|, MinSteps, MaxSteps)
    && (forall k :: 0 <= k < |j.fields["stepByStepExplanation"].items| ==>
          j.fields["stepByStepExplanation"].items[k].JStr?)
    && HasArray(j.fields, "causeAndEffect")
    && InRange(|j.fields["causeAndEffect"].items|, MinCauseEffects, MaxCauseEffects)
    && (forall k :: 0 <= k < |j.fields["causeAndEffect"].items| ==>
          IsCauseEffectJson(j.fields["causeAndEffect"].items[k]))
    && HasArray(j.fields, "quizQuestions")
    && InRange(|j.fields["quizQuestions"].items|, MinQuizQuestions, MaxQuizQuestions)
    && (forall k :: 0 <= k < |j.fields["quizQuestions"].items| ==>
          IsQuizQuestionJson(j.fields["quizQuestions"].items[k]))
  }

  /** `fileDataUri` is optional: absent, or a string of any shape. */
  predicate IsChatbotInputJson(j: Json) {
    j.JObj?
    && HasString(j.fields, "message")
    && ("fileDataUri" in j.fields ==> j.fields["fileDataUri"].JStr?)
  }

  /** The chatbot's output schema is the learning-pack schema itself. */
  predicate IsChatbotOutputJson(j: Json) {
    IsLearningPackJson(j)
  }

  // ---------------------------------------------------------------------------
  // Validity of typed values: the same constraints, on records.
  // ---------------------------------------------------------------------------

  predicate ValidQuizQuestion(q: QuizQuestion) {
    |q.options| == QuizOptionCount
  }

  predicate ValidLearningPack(p: LearningPack) {
    InRange(|p.keyLearningPoints|, MinKeyPoints, MaxKeyPoints)
    && InRange(|p.stepByStepExplanation|, MinSteps, MaxSteps)
    && InRange(|p.causeAndEffect|, MinCauseEffects, MaxCauseEffects)
    && InRange(|p.quizQuestions|, MinQuizQuestions, MaxQuizQuestions)
    && forall k :: 0 <= k < |p.quizQuestions| ==> ValidQuizQuestion(p.quizQuestions[k])
  }

  // ---------------------------------------------------------------------------
  // Parsing: JSON to records.
  // ---------------------------------------------------------------------------

  /** Parses every element with `parse`; fails as soon as one element fails. */
  function ParseEach<T>(items: seq<Json>, parse: Json -> Option<T>): (r: Option<seq<T>>)
    ensures r.Some? <==> forall k :: 0 <= k < |items| ==> parse(items[k]).Some?
    ensures r.Some? ==> |r.value| == |items|
    ensures r.Some? ==> forall k :: 0 <= k < |items| ==> parse(items[k]) == Some(r.value[k])
  {
    if items == [] then Some([])
    else
      match parse(items[0])
      case None => None
      case Some(x) =>
        match ParseEach(items[1..], parse)
        case None =>
          assert forall k :: 1 <= k < |items| ==> items[k] == items[1..][k - 1];
          None
        case Some(rest) =>
          assert forall k :: 1 <= k < |items| ==> items[k] == items[1..][k - 1];
          Some([x] + rest)
  }

  function ParseString(j: Json): (r: Option<string>)
    ensures r.Some? <==> j.JStr?
    ensures r.Some? ==> j == JStr(r.value)
  {
    if j.JStr? then Some(j.s) else None
  }

  function ParseQuizQuestion(j: Json): (r: Option<QuizQuestion>)
    ensures r.Some? <==> IsQuizQuestionJson(j)
    ensures r.Some? ==> ValidQuizQuestion(r.value)
  {
    if !(j.JObj? && HasString(j.fields, "question") && HasArray(j.fields, "options")
         && |j.fields["options"].items| == QuizOptionCount && HasString(j.fields, "correctAnswer"))
    then None
    else
      match ParseEach(j.fields["options"].items, ParseString)
      case None => None
      case Some(options) =>
        Some(QuizQuestion(j.fields["question"].s, options, j.fields["correctAnswer"].s))
  }

  function ParseKeyPoint(j: Json): (r: Option<KeyPoint>)
    ensures r.Some? <==> IsKeyPointJson(j)
  {
    if IsKeyPointJson(j) then Some(KeyPoint(j.fields["title"].s, j.fields["description"].s)) else None
  }

  function ParseCauseEffect(j: Json): (r: Option<CauseEffect>)
    ensures r.Some? <==> IsCauseEffectJson(j)
  {
    if IsCauseEffectJson(j) then Some(CauseEffect(j.fields["cause"].s, j.fields["effect"].s)) else None
  }

  /** Validation of a generated learning pack: accepts exactly what the schema accepts. */
  function ParseLearningPack(j: Json): (r: Option<LearningPack>)
    ensures r.Some? <==> IsLearningPackJson(j)
    ensures r.Some? ==> ValidLearningPack(r.value)
  {
    if !(j.JObj? && HasString(j.fields, "simpleSummary")
         && HasArray(j.fields, "keyLearningPoints")
         && InRange(|j.fields["keyLearningPoints"].items|, MinKeyPoints, MaxKeyPoints)
         && HasArray(j.fields, "stepByStepExplanation")
         && InRange(|j.fields["stepByStepExplanation"].items|, MinSteps, MaxSteps)
         && HasArray(j.fields, "causeAndEffect")
         && InRange(|j.fields["causeAndEffect"].items|, MinCauseEffects, MaxCauseEffects)
         && HasArray(j.fields, "quizQuestions")
         && InRange(|j.fields["quizQuestions"].items|, MinQuizQuestions, MaxQuizQuestions))
    then None
    else
      var points := ParseEach(j.fields["keyLearningPoints"].items, ParseKeyPoint);
      var steps := ParseEach(j.fields["stepByStepExplanation"].items, ParseString);
      var pairs := ParseEach(j.fields["causeAndEffect"].items, ParseCauseEffect);
      var quiz := ParseEach(j.fields["quizQuestions"].items, ParseQuizQuestion);
      if points.None? || steps.None? || pairs.None? || quiz.None? then None
      else Some(LearningPack(j.fields["simpleSummary"].s, points.value, steps.value, pairs.value, quiz.value))
  }

  function ParseChatbotInput(j: Json): (r: Option<ChatbotInput>)
    ensures r.Some? <==> IsChatbotInputJson(j)
    ensures r.Some? ==> j.fields["message"] == JStr(r.value.message)
    ensures r.Some? ==> (r.value.fileDataUri.Some? <==> "fileDataUri" in j.fields)
  {
    if !IsChatbotInputJson(j) then None
    else
      var file := if "fileDataUri" in j.fields then Some(j.fields["fileDataUri"].s) else None;
      Some(ChatbotInput(j.fields["message"].s, file))
  }

  // ---------------------------------------------------------------------------
  // Encoding: records to JSON.
  // ---------------------------------------------------------------------------

  function EncodeEach<T>(xs: seq<T>, encode: T -> Json): (r: seq<Json>)
    ensures |r| == |xs|
    ensures forall k :: 0 <= k < |xs| ==> r[k] == encode(xs[k])
  {
    seq(|xs|, k requires 0 <= k < |xs| => encode(xs[k]))
  }

  function EncodeString(s: string): Json {
    JStr(s)
  }

  function EncodeQuizQuestion(q: QuizQuestion): Json {
    JObj(map[
      "question" := JStr(q.question),
      "options" := JArr(EncodeEach(q.options, EncodeString)),
      "correctAnswer" := JStr(q.correctAnswer)])
  }

  function EncodeKeyPoint(p: KeyPoint): Json {
    JObj(map["title" := JStr(p.title), "description" := JStr(p.description)])
  }

  function EncodeCauseEffect(c: CauseEffect): Json {
    JObj(map["cause" := JStr(c.cause), "effect" := JStr(c.effect)])
  }

  function EncodeLearningPack(p: LearningPack): Json {
    JObj(map[
      "simpleSummary" := JStr(p.simpleSummary),
      "keyLearningPoints" := JArr(EncodeEach(p.keyLearningPoints, EncodeKeyPoint)),
      "stepByStepExplanation" := JArr(EncodeEach(p.stepByStepExplanation, EncodeString)),
      "causeAndEffect" := JArr(EncodeEach(p.causeAndEffect, EncodeCauseEffect)),
      "quizQuestions" := JArr(EncodeEach(p.quizQuestions, EncodeQuizQuestion))])
  }

  function EncodeChatbotInput(input: ChatbotInput): Json {
    match input.fileDataUri
    case None => JObj(map["message" := JStr(input.message)])
    case Some(uri) => JObj(map["message" := JStr(input.message), "fileDataUri" := JStr(uri)])
  }

  // ---------------------------------------------------------------------------
  // Properties.
  // ---------------------------------------------------------------------------

  /** Parsing what `encode` produced gives back every element, provided each element parses back. */
  lemma {:induction false} ParseEachEncodeEach<T>(xs: seq<T>, encode: T -> Json, parse: Json -> Option<T>)
    requires forall x :: x in xs ==> parse(encode(x)) == Some(x)
    ensures ParseEach(EncodeEach(xs, encode), parse) == Some(xs)
  {
    var js := EncodeEach(xs, encode);
    var r := ParseEach(js, parse);
    assert forall k :: 0 <= k < |js| ==> parse(js[k]) == Some(xs[k]);
    assert r.Some?;
    assert r.value == xs;
  }

  lemma QuizQuestionRoundTrip(q: QuizQuestion)
    ensures ParseQuizQuestion(EncodeQuizQuestion(q)).Some? <==> ValidQuizQuestion(q)
    ensures ValidQuizQuestion(q) ==> ParseQuizQuestion(EncodeQuizQuestion(q)) == Some(q)
  {
    ParseEachEncodeEach(q.options, EncodeString, ParseString);
  }

  lemma KeyPointRoundTrip(x: KeyPoint)
    ensures ParseKeyPoint(EncodeKeyPoint(x)) == Some(x)
  {
  }

  lemma CauseEffectRoundTrip(x: CauseEffect)
    ensures ParseCauseEffect(EncodeCauseEffect(x)) == Some(x)
  {
  }

  lemma KeyPointListRoundTrip(xs: seq<KeyPoint>)
    ensures ParseEach(EncodeEach(xs, EncodeKeyPoint), ParseKeyPoint) == Some(xs)
  {
    forall x | x in xs ensures ParseKeyPoint(EncodeKeyPoint(x)) == Some(x) {
      KeyPointRoundTrip(x);
    }
    ParseEachEncodeEach(xs, EncodeKeyPoint, ParseKeyPoint);
  }

  lemma StringListRoundTrip(xs: seq<string>)
    ensures ParseEach(EncodeEach(xs, EncodeString), ParseString) == Some(xs)
  {
    ParseEachEncodeEach(xs, EncodeString, ParseString);
  }

  lemma CauseEffectListRoundTrip(xs: seq<CauseEffect>)
    ensures ParseEach(EncodeEach(xs, EncodeCauseEffect), ParseCauseEffect) == Some(xs)
  {
    forall x | x in xs ensures ParseCauseEffect(EncodeCauseEffect(x)) == Some(x) {
      CauseEffectRoundTrip(x);
    }
    ParseEachEncodeEach(xs, EncodeCauseEffect, ParseCauseEffect);
  }

  /** A list of valid quiz questions parses back from its encoding. */
  lemma QuizListRoundTrip(qs: seq<QuizQuestion>)
    requires forall k :: 0 <= k < |qs| ==> ValidQuizQuestion(qs[k])
    ensures ParseEach(EncodeEach(qs, EncodeQuizQuestion), ParseQuizQuestion) == Some(qs)
  {
    forall q | q in qs
      ensures ParseQuizQuestion(EncodeQuizQuestion(q)) == Some(q)
    {
      QuizQuestionRoundTrip(q);
    }
    ParseEachEncodeEach(qs, EncodeQuizQuestion, ParseQuizQuestion);
  }

  /** The fields of an encoded learning pack, one by one. */
  lemma EncodedPackFields(p: LearningPack)
    ensures var f := EncodeLearningPack(p).fields;
      && "simpleSummary" in f && f["simpleSummary"] == JStr(p.simpleSummary)
      && "keyLearningPoints" in f && f["keyLearningPoints"] == JArr(EncodeEach(p.keyLearningPoints, EncodeKeyPoint))
      && "stepByStepExplanation" in f && f["stepByStepExplanation"] == JArr(EncodeEach(p.stepByStepExplanation, EncodeString))
      && "causeAndEffect" in f && f["causeAndEffect"] == JArr(EncodeEach(p.causeAndEffect, EncodeCauseEffect))
      && "quizQuestions" in f && f["quizQuestions"] == JArr(EncodeEach(p.quizQuestions, EncodeQuizQuestion))
  {
  }

  /** `j` is an object whose fields hold the parts of `p`, each parsing back to the part. */
  predicate HoldsPackParts(j: Json, p: LearningPack) {
    && j.JObj?
    && "simpleSummary" in j.fields && j.fields["simpleSummary"] == JStr(p.simpleSummary)
    && "keyLearningPoints" in j.fields && j.fields["keyLearningPoints"].JArr?
    && ParseEach(j.fields["keyLearningPoints"].items, ParseKeyPoint) == Some(p.keyLearningPoints)
    && "stepByStepExplanation" in j.fields && j.fields["stepByStepExplanation"].JArr?
    && ParseEach(j.fields["stepByStepExplanation"].items, ParseString) == Some(p.stepByStepExplanation)
    && "causeAndEffect" in j.fields && j.fields["causeAndEffect"].JArr?
    && ParseEach(j.fields["causeAndEffect"].items, ParseCauseEffect) == Some(p.causeAndEffect)
    && "quizQuestions" in j.fields && j.fields["quizQuestions"].JArr?
    && ParseEach(j.fields["quizQuestions"].items, ParseQuizQuestion) == Some(p.quizQuestions)
  }

  /** The encoding of a valid pack holds its parts. */
  lemma EncodingHoldsPackParts(p: LearningPack)
    requires ValidLearningPack(p)
    ensures HoldsPackParts(EncodeLearningPack(p), p)
  {
    EncodedPackFields(p);
    KeyPointListRoundTrip(p.keyLearningPoints);
    StringListRoundTrip(p.stepByStepExplanation);
    CauseEffectListRoundTrip(p.causeAndEffect);
    QuizListRoundTrip(p.quizQuestions);
  }

  /** An object holding a valid pack's parts parses to that pack. */
  lemma ParsePackFromParts(j: Json, p: LearningPack)
    requires ValidLearningPack(p)
    requires HoldsPackParts(j, p)
    ensures ParseLearningPack(j) == Some(p)
  {
  }

  lemma ValidPackRoundTrip(p: LearningPack)
    requires ValidLearningPack(p)
    ensures ParseLearningPack(EncodeLearningPack(p)) == Some(p)
  {
    EncodingHoldsPackParts(p);
    ParsePackFromParts(EncodeLearningPack(p), p);
  }

  lemma {:induction false} InvalidPackRejected(p: LearningPack)
    requires !ValidLearningPack(p)
    ensures ParseLearningPack(EncodeLearningPack(p)).None?
  {
    EncodedPackFields(p);
    var quiz := EncodeEach(p.quizQuestions, EncodeQuizQuestion);
    if !forall k :: 0 <= k < |p.quizQuestions| ==> ValidQuizQuestion(p.quizQuestions[k]) {
      var k :| 0 <= k < |p.quizQuestions| && !ValidQuizQuestion(p.quizQuestions[k]);
      QuizQuestionRoundTrip(p.quizQuestions[k]);
      assert ParseQuizQuestion(quiz[k]).None?;
    }
  }

  /** A learning pack survives encoding and validation exactly when it meets the size constraints. */
  lemma LearningPackRoundTrip(p: LearningPack)
    ensures ParseLearningPack(EncodeLearningPack(p)).Some? <==> ValidLearningPack(p)
    ensures ValidLearningPack(p) ==> ParseLearningPack(EncodeLearningPack(p)) == Some(p)
  {
    if ValidLearningPack(p) {
      ValidPackRoundTrip(p);
    } else {
      InvalidPackRejected(p);
    }
  }

  /** Every chatbot input is accepted back, whatever string the optional file field holds. */
  lemma ChatbotInputRoundTrip(input: ChatbotInput)
    ensures ParseChatbotInput(EncodeChatbotInput(input)) == Some(input)
  {
  }

  /** The schema never asks that the correct answer be one of the four options. */
  lemma CorrectAnswerNeedNotBeAnOption()
    ensures var q := QuizQuestion("?", ["a", "b", "c", "d"], "e");
            IsQuizQuestionJson(EncodeQuizQuestion(q)) && q.correctAnswer !in q.options
  {
    var q := QuizQuestion("?", ["a", "b", "c", "d"], "e");
    QuizQuestionRoundTrip(q);
  }

  // ---------------------------------------------------------------------------
  // The other direction: what a parser accepted encodes back to the input,
  // less the keys the schema does not mention (a schema object drops them).
  // ---------------------------------------------------------------------------

  /** The entries of `fields` whose key is one of `keys`. */
  function Restrict(fields: map<string, Json>, keys: set<string>): (r: map<string, Json>)
    ensures r.Keys == fields.Keys * keys
    ensures forall k :: k in r ==> r[k] == fields[k]
  {
    map k | k in fields && k in keys :: fields[k]
  }

  /** A parsed key point encodes back to its input with the unknown keys dropped. */
  lemma KeyPointEncodeParse(j: Json)
    requires ParseKeyPoint(j).Some?
    ensures EncodeKeyPoint(ParseKeyPoint(j).value) == JObj(Restrict(j.fields, {"title", "description"}))
  {
    var r := Restrict(j.fields, {"title", "description"});
    assert r.Keys == {"title", "description"};
    assert r == map["title" := j.fields["title"], "description" := j.fields["description"]];
  }

  /** A parsed cause-and-effect pair encodes back to its input with the unknown keys dropped. */
  lemma CauseEffectEncodeParse(j: Json)
    requires ParseCauseEffect(j).Some?
    ensures EncodeCauseEffect(ParseCauseEffect(j).value) == JObj(Restrict(j.fields, {"cause", "effect"}))
  {
    var r := Restrict(j.fields, {"cause", "effect"});
    assert r.Keys == {"cause", "effect"};
    assert r == map["cause" := j.fields["cause"], "effect" := j.fields["effect"]];
  }

  /** A parsed quiz question encodes back to its input with the unknown keys dropped. */
  lemma QuizQuestionEncodeParse(j: Json)
    requires ParseQuizQuestion(j).Some?
    ensures EncodeQuizQuestion(ParseQuizQuestion(j).value) == JObj(Restrict(j.fields, {"question", "options", "correctAnswer"}))
  {
    var q := ParseQuizQuestion(j).value;
    var items := j.fields["options"].items;
    var encoded := EncodeEach(q.options, EncodeString);
    assert encoded == items by {
      forall k | 0 <= k < |items| ensures encoded[k] == items[k] {
        assert ParseString(items[k]) == Some(q.options[k]);
      }
    }
    var r := Restrict(j.fields, {"question", "options", "correctAnswer"});
    assert r.Keys == {"question", "options", "correctAnswer"};
    assert r == map["question" := j.fields["question"], "options" := JArr(items), "correctAnswer" := j.fields["correctAnswer"]];
  }

  /** A parsed chatbot input encodes back to its input with the unknown keys dropped. */
  lemma ChatbotInputEncodeParse(j: Json)
    requires ParseChatbotInput(j).Some?
    ensures EncodeChatbotInput(ParseChatbotInput(j).value) == JObj(Restrict(j.fields, {"message", "fileDataUri"}))
  {
    var r := Restrict(j.fields, {"message", "fileDataUri"});
    if "fileDataUri" in j.fields {
      assert r.Keys == {"message", "fileDataUri"};
      assert r == map["message" := j.fields["message"], "fileDataUri" := j.fields["fileDataUri"]];
    } else {
      assert r.Keys == {"message"};
      assert r == map["message" := j.fields["message"]];
    }
  }
}
