/** The three analyzer operations: generate teaching material, give feedback on
    a document, grade a document against criteria. Each builds a fixed system
    prompt and a user prompt around its inputs, sends one chat-completion
    request, and returns the stripped reply or a stripped, operation-specific
    error message. The hosted model is the parameter `complete`, which maps the
    request to its `Outcome`. */
module Analyzer {
  import opened PyStr

  datatype Option<T> = None | Some(value: T)

  datatype Operation = Generate | Feedback | Grade

  /** A chat-completion request; the temperature is kept in tenths. */
  datatype Request = Request(
    model: string,
    systemPrompt: string,
    userPrompt: string,
    temperatureTenths: nat,
    maxTokens: nat)

  /** What the completion call yields: the first choice's message content,
      or the text of the exception it raised. */
  datatype Outcome = Success(content: string) | Failure(message: string)

  const ModelName := "gpt-3.5-turbo"

  // ---------------------------------------------------------------------
  // Length instruction

  const Brief := "Keep it concise and brief."
  const Medium := "Provide a medium amount of detail."
  const Detailed := "Provide comprehensive and detailed information."

  /** The instruction sentence for a requested length; anything other than
      "medium" or "detailed" falls back to the brief sentence. */
  function LengthInstruction(length: string): (r: string)
    ensures r == Medium <==> length == "medium"
    ensures r == Detailed <==> length == "detailed"
    ensures r == Brief <==> length != "medium" && length != "detailed"
  {
    if length == "medium" then Medium
    else if length == "detailed" then Detailed
    else Brief
  }

  // ---------------------------------------------------------------------
  // Fixed per-operation parameters

  function SystemPrompt(op: Operation): string {
    match op
    case Generate => "You are an AI assistant designed to help teachers create educational content."
    case Feedback => "You are an AI assistant providing constructive feedback on written work, like a helpful teacher."
    case Grade => "You are an AI assistant evaluating a document based on specific criteria, acting as a fair and objective grader."
  }

  function TemperatureTenths(op: Operation): nat {
    match op
    case Generate => 7
    case Feedback => 5
    case Grade => 3
  }

  function MaxTokens(op: Operation): nat {
    match op
    case Generate => 1000
    case Feedback => 500
    case Grade => 400
  }

  /** The text put in front of the exception's message. */
  function ErrorPrefix(op: Operation): string {
    match op
    case Generate => "Error generating material: "
    case Feedback => "Error generating feedback: "
    case Grade => "Error grading document: "
  }

  /** The error prefix without its trailing blank. */
  function ErrorLabel(op: Operation): (r: string)
    ensures ErrorPrefix(op) == r + " "
  {
    match op
    case Generate => "Error generating material:"
    case Feedback => "Error generating feedback:"
    case Grade => "Error grading document:"
  }

  /** The request an operation sends for a given user prompt. */
  function BuildRequest(op: Operation, userPrompt: string): Request {
    Request(ModelName, SystemPrompt(op), userPrompt, TemperatureTenths(op), MaxTokens(op))
  }

  // ---------------------------------------------------------------------
  // User prompts

  const GenerateIntro := "Generate teaching material about the topic: "
  const GenerateLead := GenerateIntro + "'"
  const GenerateTail := " Focus on clarity and accuracy suitable for a classroom setting."

  function GenerateUserPrompt(topic: string, length: string): string {
    GenerateLead + topic + "'. " + LengthInstruction(length) + GenerateTail
  }

  /** The delimiter line around the document. */
  const Rule := "\n---\n"
  const FeedbackIntro := "Please provide constructive feedback on the following document:\n"
  const FeedbackOutro := "\nFocus on clarity, organization, and potential areas for improvement."
  const FeedbackLead := FeedbackIntro + Rule
  const FeedbackTail := Rule + FeedbackOutro

  function FeedbackUserPrompt(documentText: string): string {
    FeedbackLead + documentText + FeedbackTail
  }

  const CriteriaHeader := "[Criteria]:\n"
  const DocumentHeader := "[Document]:\n"
  const GradeIntro := "Please grade the following document based *only* on these criteria:\n\n"
  const GradeLead := GradeIntro + CriteriaHeader
  const GradeMid := "\n\n" + DocumentHeader
  const GradeTail := "\n\nProvide a score (e.g., out of 10) and specific comments explaining the score based on the criteria."

  function GradeUserPrompt(documentText: string, criteria: string): string {
    GradeLead + criteria + GradeMid + documentText + GradeTail
  }

  function GenerateRequest(topic: string, length: string := "brief"): (r: Request)
    ensures r.model == "gpt-3.5-turbo" && r.temperatureTenths == 7 && r.maxTokens == 1000
    ensures r.systemPrompt == "You are an AI assistant designed to help teachers create educational content."
    ensures r.userPrompt == GenerateUserPrompt(topic, length)
  {
    BuildRequest(Generate, GenerateUserPrompt(topic, length))
  }

  function FeedbackRequest(documentText: string): (r: Request)
    ensures r.model == "gpt-3.5-turbo" && r.temperatureTenths == 5 && r.maxTokens == 500
    ensures r.systemPrompt == "You are an AI assistant providing constructive feedback on written work, like a helpful teacher."
    ensures r.userPrompt == FeedbackUserPrompt(documentText)
  {
    BuildRequest(Feedback, FeedbackUserPrompt(documentText))
  }

  function GradeRequest(documentText: string, criteria: string): (r: Request)
    ensures r.model == "gpt-3.5-turbo" && r.temperatureTenths == 3 && r.maxTokens == 400
    ensures r.systemPrompt == "You are an AI assistant evaluating a document based on specific criteria, acting as a fair and objective grader."
    ensures r.userPrompt == GradeUserPrompt(documentText, criteria)
  {
    BuildRequest(Grade, GradeUserPrompt(documentText, criteria))
  }

  // ---------------------------------------------------------------------
  // Result normalisation and the three operations

  /** `result.strip()`, where `result` is the reply content on success and
      the operation's error prefix followed by the error text on failure. */
  function Normalize(op: Operation, outcome: Outcome): (r: string)
    ensures IsStripped(r)
  {
    match outcome
    case Success(content) => Strip(content)
    case Failure(message) => Strip(ErrorPrefix(op) + message)
  }

  function GenerateMaterial(topic: string, complete: Request -> Outcome, length: string := "brief"): (r: string)
    ensures complete(GenerateRequest(topic, length)).Success? ==>
      r == Strip(complete(GenerateRequest(topic, length)).content)
    ensures complete(GenerateRequest(topic, length)).Failure? ==>
      r == Strip("Error generating material: " + complete(GenerateRequest(topic, length)).message)
  {
    Normalize(Generate, complete(GenerateRequest(topic, length)))
  }

  function ProvideFeedback(documentText: string, complete: Request -> Outcome): (r: string)
    ensures complete(FeedbackRequest(documentText)).Success? ==>
      r == Strip(complete(FeedbackRequest(documentText)).content)
    ensures complete(FeedbackRequest(documentText)).Failure? ==>
      r == Strip("Error generating feedback: " + complete(FeedbackRequest(documentText)).message)
  {
    Normalize(Feedback, complete(FeedbackRequest(documentText)))
  }

  function GradeDocument(documentText: string, criteria: string, complete: Request -> Outcome): (r: string)
    ensures complete(GradeRequest(documentText, criteria)).Success? ==>
      r == Strip(complete(GradeRequest(documentText, criteria)).content)
    ensures complete(GradeRequest(documentText, criteria)).Failure? ==>
      r == Strip("Error grading document: " + complete(GradeRequest(documentText, criteria)).message)
  {
    Normalize(Grade, complete(GradeRequest(documentText, criteria)))
  }

  // ---------------------------------------------------------------------
  // Properties of the requests

  /** Only the user prompt depends on the inputs: two requests of the same
      operation agree on model, system prompt, temperature and token limit. */
  lemma {:induction false} RequestFixedButUserPrompt(op: Operation, u1: string, u2: string)
    ensures BuildRequest(op, u1) == BuildRequest(op, u2).(userPrompt := u1)
  {
  }

  // ---------------------------------------------------------------------
  // Properties of the user prompts

  /** The middle of a prompt assembled from six pieces. */
  lemma {:induction false} Framed(lead: string, a: string, b: string, c: string, d: string, tail: string)
    ensures StartsWith(lead + a + b + c + d + tail, lead)
    ensures OccursAt(lead + a + b + c + d + tail, a + b + c + d, |lead|)
    ensures EndsWith(lead + a + b + c + d + tail, tail)
  {
    var m := a + b + c + d;
    assert lead + a + b + c + d + tail == lead + m + tail;
    OccursBetween(lead, m, tail);
    ConcatEnds(lead, m + tail);
    ConcatEnds(lead + m, tail);
  }

  /** Recovers the text between a known lead and a known tail. */
  function Unwrap(lead: string, tail: string, s: string): (r: Option<string>)
    ensures r.Some? ==> s == lead + r.value + tail
  {
    if |lead| + |tail| <= |s| && StartsWith(s, lead) && EndsWith(s, tail) then
      Some(s[|lead|..|s| - |tail|])
    else
      None
  }

  lemma {:induction false} UnwrapWrap(lead: string, tail: string, x: string)
    ensures Unwrap(lead, tail, lead + x + tail) == Some(x)
  {
    var s := lead + x + tail;
    assert s[..|lead|] == lead;
    assert s[|s| - |tail|..] == tail;
    assert s[|lead|..|s| - |tail|] == x;
  }

  /** The generate prompt starts with the fixed lead, then has the topic in
      single quotes, ". " and the length instruction, and ends with the
      classroom sentence. */
  lemma {:induction false} GeneratePromptLayout(topic: string, length: string)
    ensures StartsWith(GenerateUserPrompt(topic, length), GenerateIntro)
    ensures OccursAt(GenerateUserPrompt(topic, length), "'" + topic + "'. " + LengthInstruction(length), |GenerateIntro|)
    ensures EndsWith(GenerateUserPrompt(topic, length), GenerateTail)
  {
    Framed(GenerateIntro, "'", topic, "'. ", LengthInstruction(length), GenerateTail);
  }

  /** Splits the middle of a generate prompt into topic and instruction by
      the instruction it ends with. */
  function SplitInstruction(m: string): (r: Option<(string, string)>)
    ensures r.Some? ==> r.value.1 in {Brief, Medium, Detailed} && m == r.value.0 + "'. " + r.value.1
  {
    if EndsWith(m, "'. " + Brief) then Some((m[..|m| - |"'. " + Brief|], Brief))
    else if EndsWith(m, "'. " + Medium) then Some((m[..|m| - |"'. " + Medium|], Medium))
    else if EndsWith(m, "'. " + Detailed) then Some((m[..|m| - |"'. " + Detailed|], Detailed))
    else None
  }

  /** Reads topic and length instruction back from a generate prompt. */
  function ParseGeneratePrompt(p: string): (r: Option<(string, string)>)
    ensures r.Some? ==> r.value.1 in {Brief, Medium, Detailed}
    ensures r.Some? ==> p == GenerateLead + (r.value.0 + "'. " + r.value.1) + GenerateTail
  {
    match Unwrap(GenerateLead, GenerateTail, p)
    case None => None
    case Some(m) => SplitInstruction(m)
  }

  lemma {:induction false} SplitInstructionJoin(topic: string, instruction: string)
    requires instruction in {Brief, Medium, Detailed}
    ensures SplitInstruction(topic + "'. " + instruction) == Some((topic, instruction))
  {
    var m := topic + "'. " + instruction;
    var b, md, d := "'. " + Brief, "'. " + Medium, "'. " + Detailed;
    assert m == (topic + "'. ") + instruction;
    if instruction == Brief {
      assert m[|m| - |b|..] == b;
      assert m[..|m| - |b|] == topic;
    } else if instruction == Medium {
      assert m[|m| - 2] != b[|b| - 2];
      assert m[|m| - |md|..] == md;
      assert m[..|m| - |md|] == topic;
    } else {
      assert m[|m| - 2] != b[|b| - 2];
      assert m[|m| - 2] != md[|md| - 2];
      assert m[|m| - |d|..] == d;
      assert m[..|m| - |d|] == topic;
    }
  }

  /** Round trip: the generate prompt gives back its topic and instruction. */
  lemma {:induction false} GeneratePromptRoundTrip(topic: string, length: string)
    ensures ParseGeneratePrompt(GenerateUserPrompt(topic, length)) == Some((topic, LengthInstruction(length)))
  {
    var m := topic + "'. " + LengthInstruction(length);
    Regroup(GenerateLead, topic, "'. ", LengthInstruction(length), GenerateTail);
    UnwrapWrap(GenerateLead, GenerateTail, m);
    SplitInstructionJoin(topic, LengthInstruction(length));
  }

  /** The generate prompt determines the topic and the instruction, although
      the topic is not escaped. */
  lemma {:induction false} GeneratePromptInjective(t1: string, l1: string, t2: string, l2: string)
    requires GenerateUserPrompt(t1, l1) == GenerateUserPrompt(t2, l2)
    ensures t1 == t2 && LengthInstruction(l1) == LengthInstruction(l2)
  {
    GeneratePromptRoundTrip(t1, l1);
    GeneratePromptRoundTrip(t2, l2);
  }

  /** The feedback prompt has the document verbatim, immediately between two
      "\n---\n" delimiters. */
  lemma {:induction false} FeedbackPromptDelimits(documentText: string)
    ensures OccursAt(FeedbackUserPrompt(documentText), Rule + documentText + Rule, |FeedbackIntro|)
    ensures StartsWith(FeedbackUserPrompt(documentText), FeedbackLead)
    ensures EndsWith(FeedbackUserPrompt(documentText), FeedbackTail)
  {
    var p := FeedbackUserPrompt(documentText);
    var w := Rule + documentText + Rule;
    assert p == FeedbackIntro + w + FeedbackOutro;
    OccursBetween(FeedbackIntro, w, FeedbackOutro);
    ConcatEnds(FeedbackLead, documentText + FeedbackTail);
    ConcatEnds(FeedbackLead + documentText, FeedbackTail);
  }

  function ParseFeedbackPrompt(p: string): (r: Option<string>)
    ensures r.Some? ==> p == FeedbackUserPrompt(r.value)
  {
    Unwrap(FeedbackLead, FeedbackTail, p)
  }

  /** Round trip: the feedback prompt gives back its document. */
  lemma {:induction false} FeedbackPromptRoundTrip(documentText: string)
    ensures ParseFeedbackPrompt(FeedbackUserPrompt(documentText)) == Some(documentText)
  {
    UnwrapWrap(FeedbackLead, FeedbackTail, documentText);
  }

  /** The grade prompt holds "[Criteria]:\n" + criteria and, after it,
      "[Document]:\n" + document; the two sections, joined by a blank line,
      form one contiguous block right after the introduction. */
  lemma {:induction false} GradePromptSections(documentText: string, criteria: string)
    ensures OccursAt(GradeUserPrompt(documentText, criteria), CriteriaHeader + criteria, |GradeIntro|)
    ensures OccursAt(GradeUserPrompt(documentText, criteria), DocumentHeader + documentText, |GradeLead| + |criteria| + 2)
    ensures OccursAt(GradeUserPrompt(documentText, criteria), CriteriaHeader + criteria + GradeMid + documentText, |GradeIntro|)
  {
    var p := GradeUserPrompt(documentText, criteria);
    Framed(GradeIntro, CriteriaHeader, criteria, "\n\n" + DocumentHeader, documentText, GradeTail);
    var m := CriteriaHeader + criteria + ("\n\n" + DocumentHeader) + documentText;
    var c := CriteriaHeader + criteria;
    var d := DocumentHeader + documentText;
    assert m == c + "\n\n" + d;
    OccursBetween([], c, "\n\n" + d);
    OccursBetween(c + "\n\n", d, []);
    assert p[|GradeIntro|..|GradeIntro| + |m|] == m;
  }

  /** Reads back criteria, separator and document as one block. */
  function ParseGradePrompt(p: string): (r: Option<string>)
    ensures r.Some? ==> p == GradeLead + r.value + GradeTail
  {
    Unwrap(GradeLead, GradeTail, p)
  }

  lemma {:induction false} GradePromptRoundTrip(documentText: string, criteria: string)
    ensures ParseGradePrompt(GradeUserPrompt(documentText, criteria)) == Some(criteria + GradeMid + documentText)
  {
    assert GradeUserPrompt(documentText, criteria) == GradeLead + (criteria + GradeMid + documentText) + GradeTail;
    UnwrapWrap(GradeLead, GradeTail, criteria + GradeMid + documentText);
  }

  /** Without escaping, the split between criteria and document is not
      recoverable: criteria that contain the document header give the same
      prompt as a document that does. */
  lemma {:induction false} GradePromptAmbiguous(a: string, b: string, c: string)
    ensures GradeUserPrompt(c, a + GradeMid + b) == GradeUserPrompt(b + GradeMid + c, a)
  {
    ShiftMiddle(GradeLead, a, GradeMid, b, c, GradeTail);
  }

  /** Moving a separated piece across a separator keeps the concatenation. */
  lemma {:induction false} ShiftMiddle(x: string, a: string, m: string, b: string, c: string, t: string)
    ensures x + (a + m + b) + m + c + t == x + a + m + (b + m + c) + t
  {
  }

  /** A concrete pair of distinct inputs with the same grade prompt. */
  lemma {:induction false} GradePromptNotInjective()
    ensures exists d1, c1, d2, c2 :: (d1, c1) != (d2, c2) && GradeUserPrompt(d1, c1) == GradeUserPrompt(d2, c2)
  {
    var d1, c1 := "c", "a" + GradeMid + "b";
    var d2, c2 := "b" + GradeMid + "c", "a";
    GradePromptAmbiguous("a", "b", "c");
    assert |d1| != |d2|;
    assert GradeUserPrompt(d1, c1) == GradeUserPrompt(d2, c2);
  }

  // ---------------------------------------------------------------------
  // Properties of the normalised result

  /** On success the result is the reply with surrounding whitespace removed:
      a contiguous part of the reply, with only whitespace cut away. */
  lemma {:induction false} SuccessResult(op: Operation, content: string)
    ensures Normalize(op, Success(content)) == Strip(content)
    ensures IsStripped(Normalize(op, Success(content)))
    ensures Contains(content, Normalize(op, Success(content)))
    ensures exists i, j :: Trims(content, i, j) && Normalize(op, Success(content)) == content[i..j]
  {
    StripContained(content);
    StripSound(content);
  }

  /** The error label starts with "Error" and neither starts nor ends with
      whitespace. */
  lemma {:induction false} ErrorLabelShape(op: Operation)
    ensures |ErrorLabel(op)| > 5 && StartsWith(ErrorLabel(op), "Error")
    ensures ErrorLabel(op)[0] == 'E' && ErrorLabel(op)[|ErrorLabel(op)| - 1] == ':'
  {
    match op
    case Generate =>
    case Feedback =>
    case Grade =>
  }

  /** On failure the result begins with the operation's prefix (its trailing
      blank is lost when the error text is blank) and ends with the error
      text stripped on the right; leading blanks of the error text stay. */
  lemma {:induction false} FailureResult(op: Operation, message: string)
    ensures StartsWith(Normalize(op, Failure(message)), ErrorLabel(op))
    ensures StartsWith(Normalize(op, Failure(message)), "Error")
    ensures EndsWith(Normalize(op, Failure(message)), RStrip(message))
    ensures !AllSpace(message) ==> Normalize(op, Failure(message)) == ErrorPrefix(op) + RStrip(message)
    ensures AllSpace(message) ==> Normalize(op, Failure(message)) == ErrorLabel(op)
  {
    var q := ErrorLabel(op);
    ErrorLabelShape(op);
    StripLabelled(q, message);
    var r := Normalize(op, Failure(message));
    assert r[..5] == r[..|q|][..5];
  }

  /** Reads back which operation produced an error result. */
  function ErrorOperation(r: string): (op: Option<Operation>)
    ensures op.Some? ==> StartsWith(r, ErrorLabel(op.value))
  {
    if StartsWith(r, ErrorLabel(Generate)) then Some(Generate)
    else if StartsWith(r, ErrorLabel(Feedback)) then Some(Feedback)
    else if StartsWith(r, ErrorLabel(Grade)) then Some(Grade)
    else None
  }

  /** Any text that begins with an operation's error label is read back as
      that operation: no label is a prefix of another. */
  lemma {:induction false} LabelNamesOperation(op: Operation, r: string)
    requires StartsWith(r, ErrorLabel(op))
    ensures ErrorOperation(r) == Some(op)
  {
    match op
    case Generate =>
    case Feedback =>
      StartsWithDiffer(r, ErrorLabel(Generate), ErrorLabel(Feedback), 17);
    case Grade =>
      StartsWithDiffer(r, ErrorLabel(Generate), ErrorLabel(Grade), 7);
      StartsWithDiffer(r, ErrorLabel(Feedback), ErrorLabel(Grade), 7);
  }

  /** The error result names the operation that failed. */
  lemma {:induction false} FailureNamesOperation(op: Operation, message: string)
    ensures ErrorOperation(Normalize(op, Failure(message))) == Some(op)
  {
    FailureResult(op, message);
    LabelNamesOperation(op, Normalize(op, Failure(message)));
  }

  /** Hence error results of different operations never coincide. */
  lemma {:induction false} FailureIdentifiesOperation(op1: Operation, m1: string, op2: Operation, m2: string)
    requires Normalize(op1, Failure(m1)) == Normalize(op2, Failure(m2))
    ensures op1 == op2
  {
    FailureNamesOperation(op1, m1);
    FailureNamesOperation(op2, m2);
  }

  /** A reply that itself reads like an error result cannot be told apart
      from a failure. */
  lemma {:induction false} SuccessMimicsFailure(op: Operation, message: string)
    ensures Normalize(op, Success(ErrorPrefix(op) + message)) == Normalize(op, Failure(message))
  {
  }

  /** Normalising is idempotent: stripping a result again changes nothing. */
  lemma {:induction false} NormalizeIdempotent(op: Operation, outcome: Outcome)
    ensures Strip(Normalize(op, outcome)) == Normalize(op, outcome)
  {
    StripFixpoint(Normalize(op, outcome));
  }

  /** The result depends on the inputs only through the outcome of the one
      completion call. */
  lemma {:induction false} ResultDependsOnlyOnOutcome(
    topic1: string, length1: string, topic2: string, length2: string,
    doc1: string, doc2: string, criteria1: string, criteria2: string,
    complete1: Request -> Outcome, complete2: Request -> Outcome)
    ensures complete1(GenerateRequest(topic1, length1)) == complete2(GenerateRequest(topic2, length2))
      ==> GenerateMaterial(topic1, complete1, length1) == GenerateMaterial(topic2, complete2, length2)
    ensures complete1(FeedbackRequest(doc1)) == complete2(FeedbackRequest(doc2))
      ==> ProvideFeedback(doc1, complete1) == ProvideFeedback(doc2, complete2)
    ensures complete1(GradeRequest(doc1, criteria1)) == complete2(GradeRequest(doc2, criteria2))
      ==> GradeDocument(doc1, criteria1, complete1) == GradeDocument(doc2, criteria2, complete2)
  {
  }

  // ---------------------------------------------------------------------
  // The placeholder inputs of the web form

  lemma {:induction false} GenerateExample()
    ensures Contains(GenerateUserPrompt("Photosynthesis", "detailed"), "Photosynthesis")
    ensures Contains(GenerateUserPrompt("Photosynthesis", "detailed"), Detailed)
    ensures forall topic :: GenerateUserPrompt(topic, "unknown") == GenerateUserPrompt(topic, "brief")
  {
    var topic := "Photosynthesis";
    var p := GenerateUserPrompt(topic, "detailed");
    GeneratePromptLayout(topic, "detailed");
    OccursInside(p, "'", topic, "'. " + Detailed, |GenerateIntro|);
    OccursInside(p, "'" + topic + "'. ", Detailed, [], |GenerateIntro|);
  }

  /** Without a length argument the generate request asks for the brief
      instruction. */
  lemma {:induction false} GenerateDefaultLength(topic: string)
    ensures GenerateRequest(topic) == GenerateRequest(topic, "brief")
    ensures Contains(GenerateRequest(topic).userPrompt, Brief)
  {
    var p := GenerateUserPrompt(topic, "brief");
    GeneratePromptLayout(topic, "brief");
    OccursInside(p, "'" + topic + "'. ", Brief, [], |GenerateIntro|);
  }

  lemma {:induction false} GradeExample(documentText: string)
    ensures Contains(GradeUserPrompt(documentText, "Clarity (5pts)"), "[Criteria]:\nClarity (5pts)")
    ensures Contains(GradeUserPrompt(documentText, "Clarity (5pts)"), "[Document]:\n" + documentText)
  {
    var p := GradeUserPrompt(documentText, "Clarity (5pts)");
    GradePromptSections(documentText, "Clarity (5pts)");
    assert CriteriaHeader + "Clarity (5pts)" == "[Criteria]:\nClarity (5pts)";
    assert OccursAt(p, "[Criteria]:\nClarity (5pts)", |GradeIntro|);
    assert OccursAt(p, "[Document]:\n" + documentText, |GradeLead| + 16);
  }
}
