# doc_analyzer core in Dafny

This project models `src/doc_analyzer/analyzer.py` of the educator-assistance
tool. The file has three operations: `generate_material`, `provide_feedback`
and `grade_document`. Each one:

1. builds a fixed system prompt and a user prompt that embeds its inputs
   verbatim between literal delimiters;
2. sends one chat-completion request with a fixed model, temperature and
   token limit;
3. returns the first choice's content after Python's `str.strip()`. If the
   call raised, it returns an operation-specific error prefix plus the error
   text, also stripped.

The model has two modules.

- `PyStr` (`py_str.dfy`) holds the part of Python's `str` that the analyzer
  uses. `IsSpace` is CPython's whitespace table (the characters
  `str.isspace()` accepts and `strip()` removes). `LStrip`, `RStrip` and
  `Strip` are the stripping functions. `OccursAt`, `Contains`, `StartsWith`
  and `EndsWith` are the substring tests. `Strip` is checked against an
  independent definition, `Trims`: the remaining part neither starts nor
  ends with whitespace, and only whitespace was cut off around it.
- `Analyzer` (`analyzer.dfy`) holds the operations. The network client is
  a parameter `complete: Request -> Outcome`, where
  `Outcome = Success(content) | Failure(message)`. Each operation is a
  pure function of its inputs and that parameter. Each request is a
  `Request` value. The temperature is stored in integer tenths (7, 5, 3).
  The prompt builders have decoders (`ParseGeneratePrompt`,
  `ParseFeedbackPrompt`, `ParseGradePrompt`), and round-trip lemmas connect
  each builder to its decoder. Error results have a decoder too,
  `ErrorOperation`.

Two details of the code are worth stating outright:

- The error branch at `analyzer.py:52-54` strips the whole string prefix +
  error text, not just the reply. So when the error text is empty or all
  whitespace, the result is the prefix without its trailing blank, e.g.
  `"Error generating material:"` (`FailureResult`).
- The docstring at `analyzer.py:13` names `'brief'`, `'medium'` and
  `'detailed'` as the length options, but the mapping at `analyzer.py:21-27`
  accepts any string and gives the brief sentence to everything except
  `"medium"` and `"detailed"` (`LengthInstruction`). Without a length
  argument the default `"brief"` of `analyzer.py:7` applies
  (`GenerateDefaultLength`).

Two consequences of embedding inputs without escaping are proved. The
generate prompt still determines the topic and the length instruction (not
the length string: every unknown length gives the brief sentence), and the
feedback prompt determines the document
(`GeneratePromptInjective`, `FeedbackPromptRoundTrip`). The grade prompt
does not: criteria that contain `"\n\n[Document]:\n"` produce the same
prompt as a shorter criteria text with a longer document
(`GradePromptAmbiguous`, `GradePromptNotInjective`). Also, a model reply that
looks like an error message cannot be told apart from a real failure
(`SuccessMimicsFailure`).

## Model

| member | source | states |
|---|---|---|
| `PyStr.Strip` | src/doc_analyzer/analyzer.py:54 | `strip()` returns a string with no leading or trailing whitespace, no longer than its input |
| `PyStr.LStrip` | src/doc_analyzer/analyzer.py:54 | the left half of `strip()`: the result is a suffix of the input, everything cut off is whitespace, and the result does not start with whitespace |
| `PyStr.RStrip` | src/doc_analyzer/analyzer.py:54 | the right half of `strip()`: the result is a prefix of the input, everything cut off is whitespace, and the result does not end with whitespace |
| `PyStr.StripCharacterization` | src/doc_analyzer/analyzer.py:54 | `r == s.strip()` holds exactly when `r = s[i..j]`, with only whitespace outside `[i, j)` and no whitespace at either end of `r` (both directions) |
| `PyStr.StripSound` | src/doc_analyzer/analyzer.py:54 | the result of `strip()` is a trimming of its input |
| `PyStr.StripUnique` | src/doc_analyzer/analyzer.py:54 | every trimming of a string is the one `strip()` returns |
| `PyStr.StripIdempotent` | src/doc_analyzer/analyzer.py:54 | stripping twice gives the same as stripping once |
| `PyStr.StripContained` | src/doc_analyzer/analyzer.py:54 | the result of `strip()` is a contiguous substring of its input |
| `PyStr.StripLabelled` | src/doc_analyzer/analyzer.py:52-54 | stripping `label + " " + message` keeps the label whole and strips only the message's right end; the blank survives only if the message has a non-whitespace character |
| `Analyzer.LengthInstruction` | src/doc_analyzer/analyzer.py:21-27 | the medium sentence exactly when length is "medium", the detailed sentence exactly when it is "detailed", and the brief sentence for every other string |
| `Analyzer.GenerateRequest` | src/doc_analyzer/analyzer.py:7-44 | the length defaults to "brief"; the generate request uses "gpt-3.5-turbo", temperature 0.7, at most 1000 tokens and the fixed teaching-content system prompt |
| `Analyzer.FeedbackRequest` | src/doc_analyzer/analyzer.py:71-86 | the feedback request uses "gpt-3.5-turbo", temperature 0.5, at most 500 tokens and the fixed reviewer system prompt |
| `Analyzer.GradeRequest` | src/doc_analyzer/analyzer.py:114-129 | the grade request uses "gpt-3.5-turbo", temperature 0.3, at most 400 tokens and the fixed grader system prompt |
| `Analyzer.RequestFixedButUserPrompt` | src/doc_analyzer/analyzer.py:36-44 | two requests of the same operation differ at most in the user prompt; the system prompt and parameters do not depend on the inputs |
| `Analyzer.GeneratePromptLayout` | src/doc_analyzer/analyzer.py:31 | the generate prompt starts with "Generate teaching material about the topic: ", continues with the topic in single quotes, ". " and the length instruction, and ends with the classroom sentence |
| `Analyzer.GeneratePromptRoundTrip` | src/doc_analyzer/analyzer.py:31 | the topic and the length instruction can be read back from the generate prompt |
| `Analyzer.GeneratePromptInjective` | src/doc_analyzer/analyzer.py:31 | equal generate prompts have equal topics and equal length instructions |
| `Analyzer.FeedbackPromptDelimits` | src/doc_analyzer/analyzer.py:73 | the feedback prompt contains the document verbatim, immediately preceded and followed by "\n---\n" |
| `Analyzer.FeedbackPromptRoundTrip` | src/doc_analyzer/analyzer.py:73 | the document can be read back from the feedback prompt |
| `Analyzer.GradePromptSections` | src/doc_analyzer/analyzer.py:116 | the grade prompt contains "[Criteria]:\n" + criteria, followed immediately by "\n\n[Document]:\n" + document, as one block right after the introduction |
| `Analyzer.GradePromptRoundTrip` | src/doc_analyzer/analyzer.py:116 | the block criteria + "\n\n[Document]:\n" + document can be read back from the grade prompt |
| `Analyzer.GradePromptAmbiguous` | src/doc_analyzer/analyzer.py:116 | moving text that contains the document header from the criteria into the document leaves the grade prompt unchanged |
| `Analyzer.GradePromptNotInjective` | src/doc_analyzer/analyzer.py:116 | two different (document, criteria) pairs give the same grade prompt |
| `Analyzer.Normalize` | src/doc_analyzer/analyzer.py:47-54 | the returned string never starts or ends with whitespace |
| `Analyzer.GenerateMaterial` | src/doc_analyzer/analyzer.py:7-54 | on success, the stripped reply to the generate request; on failure, "Error generating material: " + error text, stripped |
| `Analyzer.ProvideFeedback` | src/doc_analyzer/analyzer.py:58-96 | on success, the stripped reply to the feedback request; on failure, "Error generating feedback: " + error text, stripped |
| `Analyzer.GradeDocument` | src/doc_analyzer/analyzer.py:100-139 | on success, the stripped reply to the grade request; on failure, "Error grading document: " + error text, stripped |
| `Analyzer.SuccessResult` | src/doc_analyzer/analyzer.py:47-54 | on success, the result is strip(content): a contiguous substring of the content with no leading or trailing whitespace, and only whitespace cut away |
| `Analyzer.FailureResult` | src/doc_analyzer/analyzer.py:50-54 | on failure, the result starts with "Error" and the operation's label and ends with the error text stripped on the right. It equals prefix + rstrip(message) when the message has a non-whitespace character, and the bare label otherwise |
| `Analyzer.FailureNamesOperation` | src/doc_analyzer/analyzer.py:50-139 | the operation that failed can be read back from its error result |
| `Analyzer.FailureIdentifiesOperation` | src/doc_analyzer/analyzer.py:50-139 | error results of different operations are never equal |
| `Analyzer.SuccessMimicsFailure` | src/doc_analyzer/analyzer.py:47-54 | a reply equal to the error prefix plus a message gives the same result as a failure with that message |
| `Analyzer.NormalizeIdempotent` | src/doc_analyzer/analyzer.py:54 | stripping a returned result again leaves it unchanged |
| `Analyzer.ResultDependsOnlyOnOutcome` | src/doc_analyzer/analyzer.py:33-54 | two calls of an operation whose completion outcomes are equal return equal strings, whatever their other inputs |
| `Analyzer.GenerateDefaultLength` | src/doc_analyzer/analyzer.py:7 | a generate request built without a length equals the one for "brief" and its prompt contains the brief instruction |
| `Analyzer.GenerateExample` | app.py:45 | the prompt for the web form's placeholder topic "Photosynthesis" with "detailed" contains "Photosynthesis" and the detailed instruction; an unknown length gives the brief prompt |
| `Analyzer.GradeExample` | app.py:163 | the prompt for the web form's placeholder criterion "Clarity (5pts)" contains "[Criteria]:\nClarity (5pts)" and "[Document]:\n" + document |

## Left out

- The `print` logging lines are not modelled. Those at `analyzer.py:18` and `:111` run before the `try`, and those at `:51`, `:93` and `:136` run inside the `except`; an exception they raise would escape the function instead of becoming an error string, which the model does not capture.
- The client construction (`get_llm_client`) and the credential it reads are not modelled. `llm_core.py` is not part of this model. The parameter `complete`, which receives the built request, stands for the whole `try` block: the call `client.chat.completions.create`, the extraction of `choices[0].message.content` (an empty choice list raises `IndexError`, which the `except` turns into a `Failure`), and the `print` lines at `:34` and `:48`.
- The model does not check how the request is serialised into the `messages` list. It records the system prompt and user prompt as two fields.
- Reply content of `None` is not modelled. In the source, `.strip()` runs outside the `try` and would raise. The model always takes the content as a string.
- Python's formatting of an exception as `{e}` is not modelled. The error text is an opaque string.
- The temperature is an integer number of tenths, not a float.
- `app.py` and `cli.py` are not modelled. They are user interface and argument parsing around these three functions.
