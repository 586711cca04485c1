# MultiStepTranslate in Dafny

This project models the three-step translation script `MultiStepTranslate.py`
and proves properties of the model. It has three layers.

- **`make_api_call`**, the completion client (`completion.dfy`). It builds
  the JSON payload with the prompt stripped of surrounding whitespace and
  sends it. It takes `choices[0].text` from the decoded reply, strips it and
  rejects an empty result with a RuntimeError. A `requests` failure is
  wrapped in a RuntimeError. Every other failure of a malformed body passes
  through unwrapped:
  - an IndexError for an empty `choices` array;
  - a TypeError for a `null` array;
  - an AttributeError for a `null` text.
- **`translate_text`**, the orchestrator (`orchestrator.dfy`). It builds three
  prompts from the original f-strings: translate, refine, and compare
  "Version 1" with "Version 2". It makes the three dependent calls, stopping
  at the first exception. It then picks a candidate by substring test on the
  verdict. "Version 1" is looked for first, and a verdict naming neither version
  is a ValueError that carries the verdict.
- **`main`**, the driver (`driver.dfy`). It reads the input file, translates
  it and writes the output file. The first exception becomes a
  diagnostic from the first matching `except` clause (FileNotFoundError,
  RuntimeError, ValueError, Exception), and the exit status is 1. The
  diagnostic is the clause's prefix followed by `str(e)`, so it spans several
  lines whenever `str(e)` does, e.g. a verdict or a transport error text
  with a newline in it.

Supporting modules:

- `text.dfy`: Python's `str.strip()` with its exact whitespace set, and the
  substring test `t in s`.
- `errors.dfy`: the exceptions that reach `main`, their place in the class
  hierarchy, and their `str()` text.
- `wrappers.dfy`: `Option` and `Result`.

The completion service is an oracle, `Service = (nat, Payload) -> Reply`. It
maps the index of a call and its payload to a transport failure or to a
decoded body. So every service that answers each call with a transport failure or
a modelled body is covered, scripted or not. Files are not I/O here. Each
is the outcome its `open`/`read` would have:
missing, undecodable, unreadable or readable for the input, and writable, in
a missing directory or unwritable for the output. `main` is modelled as
`Driver.Program`, a function of `translate_text` (already applied to the two
languages), of the input and of the output. `Driver.RunProgram` plugs in the
real `translate_text`.

The generic `Orchestrator.Pipeline` is `translate_text` over any prompt
templates and any way of making a call. Its lemmas are about sequencing and
selection only. Lemmas over `SourceTemplates` then pin down the exact
requests sent.

## Model

| member | source | states |
|---|---|---|
| Text.IsSpace | MultiStepTranslate.py:35 | the characters `str.strip()` removes: exactly those for which `str.isspace()` holds |
| Text.TrimStart | MultiStepTranslate.py:35 | the result is a suffix of the input, everything dropped is whitespace, and the result does not start with whitespace |
| Text.TrimEnd | MultiStepTranslate.py:35 | the result is a prefix of the input, everything dropped is whitespace, and the result does not end with whitespace |
| Text.Strip | MultiStepTranslate.py:35 | `strip()` leaves no whitespace at either end |
| Text.StripPads | MultiStepTranslate.py:35 | the input is the stripped result with only whitespace on either side |
| Text.StripOfPadded | MultiStepTranslate.py:44 | stripping whitespace + core + whitespace gives exactly the core when the core has no whitespace at its ends |
| Text.StripCharacterization | MultiStepTranslate.py:35 | `Strip(s) == core` if and only if `core` has no whitespace at its ends and `s` is `core` padded with whitespace (independent characterization, both directions) |
| Text.StripIdempotent | MultiStepTranslate.py:35 | stripping an already stripped prompt changes nothing |
| Text.ContainsIff | MultiStepTranslate.py:88-90 | the recursive substring search holds exactly when the text occurs at some index (both directions) |
| Text.Contains | MultiStepTranslate.py:88-90 | `t in s` for strings: `t` is a prefix of `s` or of one of its suffixes |
| Completion.BuildPayload | MultiStepTranslate.py:33-38 | the payload carries the prompt minus its surrounding whitespace, with model, max_tokens and temperature passed through unchanged |
| Completion.FirstChoice | MultiStepTranslate.py:44 | `json_response.get("choices", [{}])[0]`: a missing array reads as one empty choice, a `null` array is a TypeError, an empty array an IndexError |
| Completion.ChoiceText | MultiStepTranslate.py:44 | `choice.get("text", "")`: a missing text reads as "", a `null` text as `None` |
| Completion.StripText | MultiStepTranslate.py:44 | `.strip()` of the extracted text; on `None` it is an AttributeError |
| Completion.ExtractText | MultiStepTranslate.py:44-47 | a returned text is non-empty and has no whitespace at either end |
| Completion.ExtractTextOutcomes | MultiStepTranslate.py:44-46 | text is returned exactly when the first choice has a string text that is not all whitespace, and it is that text stripped. A missing `choices` or `text` gives the empty-response RuntimeError; `[]` gives IndexError; a null `choices` gives TypeError; a null text gives AttributeError. Among these failures only the empty response is a RuntimeError |
| Completion.HandleReply | MultiStepTranslate.py:40-49 | a transport failure becomes the RuntimeError "API call failed" carrying its cause; a decoded body is judged by the text-extraction rules; success is non-empty and stripped |
| Completion.MakeApiCall | MultiStepTranslate.py:17-49 | the call sends the built payload, and its outcome is the handling of the service's reply to that payload |
| Completion.MakeApiCallRaises | MultiStepTranslate.py:40-49 | a failed call raises one of the two RuntimeErrors or an unwrapped IndexError, TypeError or AttributeError |
| Orchestrator.Framed | MultiStepTranslate.py:62-67 | each triple-quoted prompt opens and closes with a newline around its request (also lines 71/75 and 79/84) |
| Orchestrator.InitialLead | MultiStepTranslate.py:63 | the line "Translate the following text from {source_language} to {target_language}:" and its newline |
| Orchestrator.InitialClose | MultiStepTranslate.py:65-66 | the newline after the source text, the "Ensure ..." line with its trailing space, and "Provide only the translation in {target_language}." |
| Orchestrator.InitialBody | MultiStepTranslate.py:63-66 | the request of the initial prompt: lead, source text, instructions |
| Orchestrator.InitialPrompt | MultiStepTranslate.py:62-67 | the newline-framed f-string `initial_prompt` |
| Orchestrator.RefineLead | MultiStepTranslate.py:72-73 | the two lines "Improve ... fluency. " and "Make sure ... in {target_language}:", each with its newline |
| Orchestrator.RefineBody | MultiStepTranslate.py:72-74 | the request of the refinement prompt, ending with the initial translation |
| Orchestrator.RefinePrompt | MultiStepTranslate.py:71-75 | the newline-framed f-string `refine_prompt` |
| Orchestrator.CompareLead | MultiStepTranslate.py:80-81 | the two instruction lines of the comparison, ending with "Respond with 'Version 1' or 'Version 2':" |
| Orchestrator.Labelled | MultiStepTranslate.py:82-83 | a candidate on a new line after its label and ": " |
| Orchestrator.CompareBody | MultiStepTranslate.py:80-83 | the request of the comparison prompt: instructions, then "Version 1: " + initial and "Version 2: " + refined on lines of their own |
| Orchestrator.ComparePrompt | MultiStepTranslate.py:79-84 | the newline-framed f-string `compare_prompt` |
| Orchestrator.SelectTranslation | MultiStepTranslate.py:88-93 | the result is one of the two candidates, or a ValueError carrying the verdict |
| Orchestrator.SelectionRule | MultiStepTranslate.py:88-93 | a verdict that mentions "Version 1" picks the initial translation even if it also mentions "Version 2"; otherwise a verdict mentioning "Version 2" picks the refinement; otherwise it is a ValueError quoting the verdict |
| Orchestrator.FirstLabelWins | MultiStepTranslate.py:88-89 | the verdict "Version 2 beats Version 1" picks the initial translation |
| Orchestrator.SecondLabelPicksRefinement | MultiStepTranslate.py:90-91 | the verdict "Version 2 is better" picks the refinement |
| Orchestrator.UnlabelledVerdictFails | MultiStepTranslate.py:92-93 | the verdict "Both read well" is a ValueError carrying that verdict |
| Orchestrator.Pipeline | MultiStepTranslate.py:61-93 | a run makes one to three calls |
| Orchestrator.Translate | MultiStepTranslate.py:51-93 | `translate_text` over the completion service and any prompt templates, each call made by `make_api_call` with its defaults |
| Orchestrator.Ask | MultiStepTranslate.py:17-22 | `make_api_call(prompt)` with `max_tokens`, `temperature` and `model` left at their defaults, as the k-th request to the service |
| Orchestrator.TranslateText | MultiStepTranslate.py:51-93 | `translate_text`: one to three calls; a returned translation comes after three successful calls, is the first or second answer, and is non-empty and stripped; a failure is one of the five exceptions of `make_api_call` or the verdict ValueError |
| Orchestrator.PipelineRequests | MultiStepTranslate.py:62-85 | call 0 translates the source; call 1 exists only after call 0 succeeded and refines its answer; call 2 exists only after both succeeded and compares both answers |
| Orchestrator.PipelineProceedsOnSuccess | MultiStepTranslate.py:68-85 | every call before the last succeeded |
| Orchestrator.PipelineStopsAtFirstFailure | MultiStepTranslate.py:68-85 | a run with fewer than three calls ends at a failed call, and a failed last call is the outcome of the run, unchanged |
| Orchestrator.PipelineReturnsCandidate | MultiStepTranslate.py:87-91 | a translation is returned only after three successful calls, and it is the first or the second answer |
| Orchestrator.PipelineDecidesByVerdict | MultiStepTranslate.py:85-93 | after three successful calls, the outcome is the selection rule applied to the third answer over the first two |
| Orchestrator.PipelineFailures | MultiStepTranslate.py:68-93 | a failed run fails with the last call's exception, or with the ValueError of a third answer that names neither version |
| Orchestrator.TranslateConsultsService | MultiStepTranslate.py:68-85 | call k is the service's k-th request; its outcome is the handled reply to exactly that payload, sent with model "text-davinci-003", 1000 tokens and temperature 0.7 |
| Orchestrator.TranslateAnswerShape | MultiStepTranslate.py:87-91 | a returned translation is non-empty and has no whitespace at either end |
| Orchestrator.TranslateRaises | MultiStepTranslate.py:51-93 | `translate_text` raises only what `make_api_call` raises, or the verdict ValueError; never a file error |
| Orchestrator.StripFramed | MultiStepTranslate.py:62-67 | stripping a request that sits between two newlines gives back exactly the request |
| Orchestrator.InitialPromptStripped | MultiStepTranslate.py:62-67 | the stripped initial prompt is exactly its request: the text from "Translate ..." to the final "." |
| Orchestrator.RefinePromptStripped | MultiStepTranslate.py:71-75 | the stripped refinement prompt is exactly its request ending with the initial translation, when that translation is non-empty and stripped |
| Orchestrator.ComparePromptStripped | MultiStepTranslate.py:79-84 | the stripped comparison prompt is exactly its request ending with the labelled refinement, when that refinement is non-empty and stripped |
| Orchestrator.AskBehavesLikeApiCall | MultiStepTranslate.py:17-47 | `make_api_call` with its defaults sends the stripped prompt with model "text-davinci-003", 1000 tokens and temperature 0.7, and returns only non-empty stripped answers |
| Orchestrator.SendsInitialBody | MultiStepTranslate.py:62-68 | the first payload's prompt is the initial request for the source text and the two languages |
| Orchestrator.SendsRefineBody | MultiStepTranslate.py:71-76 | the second payload's prompt is the refinement request around the first answer |
| Orchestrator.SendsCompareBody | MultiStepTranslate.py:79-85 | the third payload's prompt is the comparison request around both answers |
| Orchestrator.InitialBodyEmbeds | MultiStepTranslate.py:63-66 | the initial request contains the source text |
| Orchestrator.RefineBodyEmbeds | MultiStepTranslate.py:72-74 | the refinement request contains the initial translation |
| Orchestrator.CompareBodyEmbeds | MultiStepTranslate.py:80-83 | the comparison request contains "\nVersion 1: " + initial and "\nVersion 2: " + refined |
| Orchestrator.TranslateTextSendsSource | MultiStepTranslate.py:62-68 | the first request of `translate_text` carries the source text |
| Orchestrator.TranslateTextSendsInitial | MultiStepTranslate.py:71-76 | the second request carries the first answer |
| Orchestrator.TranslateTextSendsCandidates | MultiStepTranslate.py:79-85 | the third request carries both answers, each on its own line after its label |
| Errors.IsInstance | MultiStepTranslate.py:116-125 | `isinstance` against the four caught classes: the two RuntimeErrors, the verdict ValueError and UnicodeDecodeError (a ValueError subclass), FileNotFoundError, and every exception for `Exception` |
| Errors.Str | MultiStepTranslate.py:46-93 | `str(e)`: "API returned an empty response." (46), "API call failed: " + cause (49), "Unexpected output from API during comparison: " + verdict (93), and CPython's messages for the IndexError, TypeError and AttributeError of line 44 |
| Driver.ReadInput | MultiStepTranslate.py:106-107 | the text is read exactly when the input is readable, and FileNotFoundError is raised exactly when it is missing |
| Driver.OpenOutput | MultiStepTranslate.py:113-114 | opening succeeds exactly when the output is writable, and FileNotFoundError is raised exactly when its directory is missing |
| Driver.FirstMatch | MultiStepTranslate.py:116-127 | the chosen clause catches the exception and no earlier clause does; no clause is chosen only when none catches it |
| Driver.HandlerFor | MultiStepTranslate.py:116-127 | the handling clause is one of `main`'s clauses and catches the exception |
| Driver.HandlerClassification | MultiStepTranslate.py:116-127 | the first-match walk sends FileNotFoundError to the first clause, both RuntimeErrors to the second, the verdict and decode errors to the third, and all else to the last (four if-and-only-ifs) |
| Driver.PrintedBy | MultiStepTranslate.py:116-127 | a recognised line starts with the prefix of the clause it names |
| Driver.Lead | MultiStepTranslate.py:116-127 | the prefix each clause prints before `str(e)` (lines 117, 120, 123, 126) |
| Driver.Diagnostic | MultiStepTranslate.py:116-127 | the line printed for `e`: the prefix of the first clause that catches it, then `str(e)` |
| Driver.Failed | MultiStepTranslate.py:116-127 | a run that ends in a handler: nothing written, the diagnostic printed, exit status 1 |
| Driver.LeadRecognised | MultiStepTranslate.py:117-126 | whatever follows it, each clause's prefix identifies that clause |
| Driver.DiagnosticNamesHandler | MultiStepTranslate.py:116-127 | the printed line identifies the clause that handled the exception |
| Driver.Program | MultiStepTranslate.py:105-127 | a run that finishes exits with status 0 or 1; output is written exactly on exit 0, and a diagnostic is printed exactly on exit 1 |
| Driver.RunProgram | MultiStepTranslate.py:105-127 | `main` with the real `translate_text`: no request unless the input was read; anything written follows three successful calls, is the first or second answer, and is non-empty and stripped |
| Driver.ProgramWritesOnlyTranslation | MultiStepTranslate.py:105-114 | output is written if and only if the input was read, the translation succeeded and the output opened; what is written is the translation |
| Driver.ProgramCallsOnlyAfterReading | MultiStepTranslate.py:105-111 | no completion call is made unless the input was read; otherwise the calls are exactly the translation's |
| Driver.ProgramReportsInput | MultiStepTranslate.py:105-127 | a missing input prints "Error: File not found - …", an undecodable one prints "Translation error: …", any other read failure prints "Unexpected error: …" |
| Driver.ProgramReportsTranslation | MultiStepTranslate.py:109-127 | a failed translation prints "Error during translation: …" for a RuntimeError, "Translation error: …" for the verdict ValueError, and "Unexpected error: …" for a malformed reply |
| Driver.ProgramReportsOutput | MultiStepTranslate.py:113-127 | after a successful translation, a missing output directory prints "Error: File not found - …" and any other open failure prints "Unexpected error: …" |
| Driver.ProgramFileNotFound | MultiStepTranslate.py:105-118 | a "File not found" line comes from a missing input, a missing output directory, or a FileNotFoundError raised by the translation |
| Driver.FileNotFoundMeansFile | MultiStepTranslate.py:105-118 | in the program as written, a "File not found" line always means a missing input or a missing output directory |

## Left out

- A completion call that never returns is not modelled. `requests.post` at MultiStepTranslate.py:41 passes no timeout, so such a call is possible, but `Service` is a total function. Every property is about runs that finish; a run blocked on a call writes nothing, prints nothing and never exits.
- The HTTP transport is not modelled (MultiStepTranslate.py:7-8, 13-15, 41-43): endpoint, headers, API key, `raise_for_status` and `response.json()`. A `RequestException` of any kind is the `TransportFailure` reply of the service oracle.
- A body that is not valid JSON is treated as a transport failure. With current `requests`, `response.json()` raises a `RequestException` subclass; older versions raised a plain `ValueError`, which would surface as "Translation error".
- JSON values of unexpected types are not modelled. This covers:
  - a decoded body that is not an object (`null` or a list; `.get` raises AttributeError at line 44);
  - a first choice that is `null` or not an object (`[null]` raises "'NoneType' object has no attribute 'get'");
  - a `choices` that is not a list;
  - a `text` that is a number.

  All of these would reach the "Unexpected error" clause. Only a body that is an object whose `choices` is missing, `null` or a list of objects, with a `text` member that is missing, `null` or a string, is modelled.
- The temperature is a real that is only passed through; floating-point behaviour is not modelled.
- Command-line parsing (MultiStepTranslate.py:96-103) is not modelled: the four arguments are parameters of `Driver.RunProgram`.
- File I/O is abstracted to the outcome of each `open`/`read`: the text of `FileNotFoundError`, `UnicodeDecodeError` and `OSError` is an opaque detail, and universal-newline translation on read is not modelled.
- Driver.Program: does not model a UnicodeEncodeError on write (a lone surrogate in the translation) or a failure of `write` after a successful `open`; the output is either opened and written in full or not written at all.
- The trailing newline `print` adds to each diagnostic, and the process-level `exit` call, are reduced to the `diagnostic` and `exitCode` fields.
- The behaviour of the real completion model (what it answers) is the oracle; nothing about the quality of translations is stated.

## Notes

- For a malformed completion body, the code is stricter than "an empty or missing text is a failure of the call". A present but empty `choices` array, a `null` array and a `null` text raise IndexError, TypeError and AttributeError. These are not RuntimeErrors, so `main` reports them as "Unexpected error". The model follows the code (`Completion.ExtractTextOutcomes`, `Driver.ProgramReportsTranslation`).
- Python's `str.strip()` removes every character for which `str.isspace()` holds. The model lists these code points in `Text.IsSpace`. They include the file, group, record and unit separators U+001C–U+001F, which are not in `string.whitespace`.
