/**
 * `translate_text`: three dependent completion calls (translate, refine,
 * compare) followed by a first-match choice between the two candidates.
 */
module Orchestrator {
  import opened Wrappers
  import opened Text
  import opened Errors
  import opened Completion

  /**
   * Each prompt is a triple-quoted literal: a newline, the request, and a
   * final newline.
   */
  function Framed(body: string): string {
    "\n" + body + "\n"
  }

  /**
   * The lines of the initial-translation request that precede the source text.
   * Here and in the other requests the first word is a literal of its own, so
   * that the verifier sees the request's first character (which the
   * `...PromptStripped` lemmas use) without unfolding a long literal.
   */
  function InitialLead(sourceLanguage: string, targetLanguage: string): string {
    "Translate" + " the following text from " + sourceLanguage + " to " + targetLanguage + ":\n"
  }

  /** The instructions that follow the source text. */
  function InitialClose(targetLanguage: string): string {
    "\nEnsure the translation is accurate, fluent, and captures all nuances of the original text. "
    + "\nProvide only the translation in " + targetLanguage + "."
  }

  /** The request of the initial-translation prompt. */
  function InitialBody(sourceText: string, sourceLanguage: string, targetLanguage: string): string {
    InitialLead(sourceLanguage, targetLanguage) + sourceText + InitialClose(targetLanguage)
  }

  /** The lines of the refinement request that precede the initial translation (first word split off as above). */
  function RefineLead(targetLanguage: string): string {
    "Improve" + " the following translation for accuracy and fluency. "
    + "\nMake sure it captures the original meaning and reads naturally in " + targetLanguage + ":\n"
  }

  /** The request of the refinement prompt, ending with the initial translation. */
  function RefineBody(targetLanguage: string, initial: string): string {
    RefineLead(targetLanguage) + initial
  }

  /** The labels the comparison asks for and the verdict is searched for. */
  const Label1: string := "Version 1"
  const Label2: string := "Version 2"

  /** The instructions of the comparison request (first word split off as above). */
  function CompareLead(targetLanguage: string): string {
    "Between" + " the two translations below, indicate which is better based on accuracy, fluency, "
    + "\nand naturalness in " + targetLanguage + ". Respond with 'Version 1' or 'Version 2':"
  }

  /** A candidate on a line of its own, after its label. */
  function Labelled(name: string, candidate: string): string {
    "\n" + name + ": " + candidate
  }

  /** The request of the comparison prompt: the instructions, then both labelled candidates. */
  function CompareBody(targetLanguage: string, initial: string, refined: string): string {
    CompareLead(targetLanguage) + Labelled(Label1, initial) + Labelled(Label2, refined)
  }

  function InitialPrompt(sourceText: string, sourceLanguage: string, targetLanguage: string): string {
    Framed(InitialBody(sourceText, sourceLanguage, targetLanguage))
  }

  function RefinePrompt(targetLanguage: string, initial: string): string {
    Framed(RefineBody(targetLanguage, initial))
  }

  function ComparePrompt(targetLanguage: string, initial: string, refined: string): string {
    Framed(CompareBody(targetLanguage, initial, refined))
  }

  /**
   * The fixed parts of the pipeline: the three prompt builders and the two
   * labels looked for in the verdict. `Translate` is stated over any such
   * record, which keeps its proofs independent of the prompts' wording;
   * `SourceTemplates` is the record of the program.
   */
  datatype Templates = Templates(
    initial: (string, string, string) -> string,
    refine: (string, string) -> string,
    compare: (string, string, string) -> string,
    label1: string,
    label2: string)

  const SourceTemplates: Templates := Templates(InitialPrompt, RefinePrompt, ComparePrompt, Label1, Label2)

  /**
   * The choice made from the verdict: one of the two candidates, or a
   * ValueError that carries the verdict itself.
   */
  function SelectTranslation(t: Templates, verdict: string, initial: string, refined: string): (r: Result<string, Exception>)
    ensures r.Success? ==> r.value == initial || r.value == refined
    ensures r.Failure? ==> r.error == UnexpectedVerdict(verdict)
  {
    if Contains(verdict, t.label1) then Success(initial)
    else if Contains(verdict, t.label2) then Success(refined)
    else Failure(UnexpectedVerdict(verdict))
  }

  /** What a call to `translate_text` did: each call it made, in order, and its outcome. */
  datatype Run = Run(calls: seq<Call>, result: Result<string, Exception>)

  /**
   * `translate_text` with the fixed parts `t`, for any way `ask` of making
   * the `k`-th completion call with a prompt: each call is made only when
   * the one before it succeeded, and the answer to the third chooses between
   * the first two.
   */
  function Pipeline(t: Templates, ask: (nat, string) -> Call, sourceText: string, sourceLanguage: string, targetLanguage: string): (run: Run)
    ensures 1 <= |run.calls| <= 3
  {
    var first := ask(0, t.initial(sourceText, sourceLanguage, targetLanguage));
    if first.result.Failure? then Run([first], first.result) else
    var second := ask(1, t.refine(targetLanguage, first.result.value));
    if second.result.Failure? then Run([first, second], second.result) else
    var third := ask(2, t.compare(targetLanguage, first.result.value, second.result.value));
    if third.result.Failure? then Run([first, second, third], third.result) else
    Run([first, second, third], SelectTranslation(t, third.result.value, first.result.value, second.result.value))
  }

  /** `make_api_call(prompt)` with its default parameters, made as the `k`-th request to `service`. */
  function Ask(service: Service): (nat, string) -> Call {
    (k: nat, prompt: string) => MakeApiCall(service, k, prompt, DefaultParams)
  }

  /** `translate_text` over `service`, with the fixed parts `t`. */
  function Translate(t: Templates, service: Service, sourceText: string, sourceLanguage: string, targetLanguage: string): Run {
    Pipeline(t, Ask(service), sourceText, sourceLanguage, targetLanguage)
  }

  /**
   * `translate_text` as the program defines it: a translation it returns is
   * the first or the second answer, after three successful calls, and has
   * the shape of an answer; what it raises comes from `make_api_call` or is
   * the ValueError of the verdict.
   */
  function TranslateText(service: Service, sourceText: string, sourceLanguage: string, targetLanguage: string): (run: Run)
    ensures 1 <= |run.calls| <= 3
    ensures run.result.Success? ==>
      && |run.calls| == 3
      && run.calls[0].result.Success? && run.calls[1].result.Success? && run.calls[2].result.Success?
      && (run.result.value == run.calls[0].result.value || run.result.value == run.calls[1].result.value)
      && run.result.value != [] && IsStripped(run.result.value)
    ensures run.result.Failure? ==>
      || run.result.error.EmptyResponse?
      || run.result.error.CallFailed?
      || run.result.error.IndexOutOfRange?
      || run.result.error.NoneNotSubscriptable?
      || run.result.error.NoneHasNoStrip?
      || run.result.error.UnexpectedVerdict?
  {
    PipelineReturnsCandidate(SourceTemplates, Ask(service), sourceText, sourceLanguage, targetLanguage);
    TranslateAnswerShape(SourceTemplates, service, sourceText, sourceLanguage, targetLanguage);
    TranslateRaises(SourceTemplates, service, sourceText, sourceLanguage, targetLanguage);
    Translate(SourceTemplates, service, sourceText, sourceLanguage, targetLanguage)
  }

  /**
   * The calls, in order: the initial translation of the source text, then
   * the refinement of the first answer, then the comparison of both answers.
   */
  lemma PipelineRequests(t: Templates, ask: (nat, string) -> Call, sourceText: string, sourceLanguage: string, targetLanguage: string)
    ensures var run := Pipeline(t, ask, sourceText, sourceLanguage, targetLanguage);
      && run.calls[0] == ask(0, t.initial(sourceText, sourceLanguage, targetLanguage))
      && (|run.calls| > 1 ==>
            && run.calls[0].result.Success?
            && run.calls[1] == ask(1, t.refine(targetLanguage, run.calls[0].result.value)))
      && (|run.calls| > 2 ==>
            && run.calls[0].result.Success? && run.calls[1].result.Success?
            && run.calls[2] == ask(2, t.compare(targetLanguage, run.calls[0].result.value, run.calls[1].result.value)))
  {
  }

  /** A call is made only after every earlier call succeeded. */
  lemma PipelineProceedsOnSuccess(t: Templates, ask: (nat, string) -> Call, sourceText: string, sourceLanguage: string, targetLanguage: string, k: nat)
    ensures var run := Pipeline(t, ask, sourceText, sourceLanguage, targetLanguage);
      k + 1 < |run.calls| ==> run.calls[k].result.Success?
  {
  }

  /**
   * A run that stops before the third call stops at a failure, and the
   * first failure is the outcome of the run, unchanged.
   */
  lemma PipelineStopsAtFirstFailure(t: Templates, ask: (nat, string) -> Call, sourceText: string, sourceLanguage: string, targetLanguage: string)
    ensures var run := Pipeline(t, ask, sourceText, sourceLanguage, targetLanguage);
      && (|run.calls| < 3 ==> run.calls[|run.calls| - 1].result.Failure?)
      && (run.calls[|run.calls| - 1].result.Failure? ==> run.result == run.calls[|run.calls| - 1].result)
  {
  }

  /**
   * A translation is returned only when all three calls succeeded, and it is
   * the answer of the first or of the second call.
   */
  lemma PipelineReturnsCandidate(t: Templates, ask: (nat, string) -> Call, sourceText: string, sourceLanguage: string, targetLanguage: string)
    ensures var run := Pipeline(t, ask, sourceText, sourceLanguage, targetLanguage);
      run.result.Success? ==>
        && |run.calls| == 3
        && run.calls[0].result.Success? && run.calls[1].result.Success? && run.calls[2].result.Success?
        && (run.result.value == run.calls[0].result.value || run.result.value == run.calls[1].result.value)
  {
  }

  /**
   * Once all three calls succeed, the outcome depends on nothing but the
   * third answer, read as a verdict over the first two.
   */
  lemma PipelineDecidesByVerdict(t: Templates, ask: (nat, string) -> Call, sourceText: string, sourceLanguage: string, targetLanguage: string)
    ensures var run := Pipeline(t, ask, sourceText, sourceLanguage, targetLanguage);
      (&& |run.calls| == 3
       && run.calls[0].result.Success? && run.calls[1].result.Success? && run.calls[2].result.Success?) ==>
        run.result == SelectTranslation(t, run.calls[2].result.value, run.calls[0].result.value, run.calls[1].result.value)
  {
  }

  /**
   * A failed run fails with the failure of its last call, or with the
   * ValueError of a verdict after three successful calls.
   */
  lemma PipelineFailures(t: Templates, ask: (nat, string) -> Call, sourceText: string, sourceLanguage: string, targetLanguage: string)
    ensures var run := Pipeline(t, ask, sourceText, sourceLanguage, targetLanguage);
      run.result.Failure? ==>
        || run.result == run.calls[|run.calls| - 1].result
        || (&& |run.calls| == 3 && run.calls[2].result.Success?
            && run.result == Failure(UnexpectedVerdict(run.calls[2].result.value)))
  {
  }

  /**
   * Call `k` of `translate_text` is the `k`-th request to the service with
   * the default model, token limit and temperature, and records the
   * service's answer to exactly the payload sent.
   */
  lemma TranslateConsultsService(t: Templates, service: Service, sourceText: string, sourceLanguage: string, targetLanguage: string, k: nat)
    ensures var run := Translate(t, service, sourceText, sourceLanguage, targetLanguage);
      k < |run.calls| ==>
        && run.calls[k].result == HandleReply(service(k, run.calls[k].payload))
        && run.calls[k].payload.model == DefaultModel
        && run.calls[k].payload.maxTokens == DefaultMaxTokens
        && run.calls[k].payload.temperature == DefaultTemperature
  {
    var run := Translate(t, service, sourceText, sourceLanguage, targetLanguage);
    PipelineRequests(t, Ask(service), sourceText, sourceLanguage, targetLanguage);
    if k < |run.calls| {
      var prompt :=
        if k == 0 then t.initial(sourceText, sourceLanguage, targetLanguage)
        else if k == 1 then t.refine(targetLanguage, run.calls[0].result.value)
        else t.compare(targetLanguage, run.calls[0].result.value, run.calls[1].result.value);
      assert run.calls[k] == MakeApiCall(service, k, prompt, DefaultParams);
    }
  }

  /**
   * A translation returned by `translate_text` has the shape of a completion
   * answer: non-empty, with no whitespace at either end.
   */
  lemma TranslateAnswerShape(t: Templates, service: Service, sourceText: string, sourceLanguage: string, targetLanguage: string)
    ensures var run := Translate(t, service, sourceText, sourceLanguage, targetLanguage);
      run.result.Success? ==> run.result.value != [] && IsStripped(run.result.value)
  {
    // Not needed on every solver seed, but without it some seeds run out of resource.
    PipelineReturnsCandidate(t, Ask(service), sourceText, sourceLanguage, targetLanguage);
    TranslateConsultsService(t, service, sourceText, sourceLanguage, targetLanguage, 0);
    TranslateConsultsService(t, service, sourceText, sourceLanguage, targetLanguage, 1);
  }

  /**
   * `translate_text` raises only what `make_api_call` raises or the
   * ValueError of an unexpected verdict; in particular never a file error.
   */
  lemma TranslateRaises(t: Templates, service: Service, sourceText: string, sourceLanguage: string, targetLanguage: string)
    ensures var run := Translate(t, service, sourceText, sourceLanguage, targetLanguage);
      run.result.Failure? ==>
        || run.result.error.EmptyResponse?
        || run.result.error.CallFailed?
        || run.result.error.IndexOutOfRange?
        || run.result.error.NoneNotSubscriptable?
        || run.result.error.NoneHasNoStrip?
        || run.result.error.UnexpectedVerdict?
  {
    var run := Translate(t, service, sourceText, sourceLanguage, targetLanguage);
    PipelineFailures(t, Ask(service), sourceText, sourceLanguage, targetLanguage);
    PipelineRequests(t, Ask(service), sourceText, sourceLanguage, targetLanguage);
    var last := |run.calls| - 1;
    if last == 0 {
      MakeApiCallRaises(service, 0, t.initial(sourceText, sourceLanguage, targetLanguage), DefaultParams);
    } else if last == 1 {
      MakeApiCallRaises(service, 1, t.refine(targetLanguage, run.calls[0].result.value), DefaultParams);
    } else {
      MakeApiCallRaises(service, 2, t.compare(targetLanguage, run.calls[0].result.value, run.calls[1].result.value), DefaultParams);
    }
  }

  /** Stripping a framed request removes exactly the two framing newlines. */
  lemma StripFramed(body: string)
    requires IsStripped(body)
    ensures Strip(Framed(body)) == body
  {
    assert AllSpace("\n");
    StripOfPadded("\n", body, "\n");
  }

  /** The initial-translation prompt reaches the service as its request alone. */
  lemma InitialPromptStripped(sourceText: string, sourceLanguage: string, targetLanguage: string)
    ensures Strip(InitialPrompt(sourceText, sourceLanguage, targetLanguage)) == InitialBody(sourceText, sourceLanguage, targetLanguage)
  {
    var lead := InitialLead(sourceLanguage, targetLanguage) + sourceText;
    var close := InitialClose(targetLanguage);
    assert lead[0] == 'T';
    assert close[|close| - 1] == '.';
    StrippedByEnds(lead, close);
    StripFramed(InitialBody(sourceText, sourceLanguage, targetLanguage));
  }

  /** So does the refinement prompt, around an answer of the service. */
  lemma RefinePromptStripped(targetLanguage: string, initial: string)
    requires initial != [] && IsStripped(initial)
    ensures Strip(RefinePrompt(targetLanguage, initial)) == RefineBody(targetLanguage, initial)
  {
    assert RefineLead(targetLanguage)[0] == 'I';
    StrippedByEnds(RefineLead(targetLanguage), initial);
    StripFramed(RefineBody(targetLanguage, initial));
  }

  /** And the comparison prompt, around two answers of the service. */
  lemma ComparePromptStripped(targetLanguage: string, initial: string, refined: string)
    requires refined != [] && IsStripped(refined)
    ensures Strip(ComparePrompt(targetLanguage, initial, refined)) == CompareBody(targetLanguage, initial, refined)
  {
    var lead := CompareLead(targetLanguage) + Labelled(Label1, initial);
    assert lead[0] == 'B';
    assert Labelled(Label2, refined)[|Labelled(Label2, refined)| - 1] == refined[|refined| - 1];
    StrippedByEnds(lead, Labelled(Label2, refined));
    StripFramed(CompareBody(targetLanguage, initial, refined));
  }

  /**
   * What `translate_text` relies on from `make_api_call`: a call sends the
   * stripped prompt, and an answer is non-empty with no whitespace at
   * either end.
   */
  ghost predicate BehavesLikeApiCall(ask: (nat, string) -> Call) {
    forall k: nat, prompt: string ::
      && ask(k, prompt).payload.prompt == Strip(prompt)
      && (ask(k, prompt).result.Success? ==>
            ask(k, prompt).result.value != [] && IsStripped(ask(k, prompt).result.value))
  }

  /**
   * `make_api_call` with its default parameters behaves so, and sends the
   * default model, token limit and temperature.
   */
  lemma AskBehavesLikeApiCall(service: Service)
    ensures BehavesLikeApiCall(Ask(service))
    ensures forall k: nat, prompt: string ::
      && Ask(service)(k, prompt).payload.model == DefaultModel
      && Ask(service)(k, prompt).payload.maxTokens == DefaultMaxTokens
      && Ask(service)(k, prompt).payload.temperature == DefaultTemperature
  {
  }

  /** `translate_text` first sends the initial-translation request. */
  lemma SendsInitialBody(ask: (nat, string) -> Call, sourceText: string, sourceLanguage: string, targetLanguage: string)
    requires BehavesLikeApiCall(ask)
    ensures Pipeline(SourceTemplates, ask, sourceText, sourceLanguage, targetLanguage).calls[0].payload.prompt
            == InitialBody(sourceText, sourceLanguage, targetLanguage)
  {
    PipelineRequests(SourceTemplates, ask, sourceText, sourceLanguage, targetLanguage);
    InitialPromptStripped(sourceText, sourceLanguage, targetLanguage);
  }

  /** Its second request asks to refine the first answer. */
  lemma SendsRefineBody(ask: (nat, string) -> Call, sourceText: string, sourceLanguage: string, targetLanguage: string)
    requires BehavesLikeApiCall(ask)
    ensures var run := Pipeline(SourceTemplates, ask, sourceText, sourceLanguage, targetLanguage);
      |run.calls| > 1 ==>
        && run.calls[0].result.Success?
        && run.calls[1].payload.prompt == RefineBody(targetLanguage, run.calls[0].result.value)
  {
    var run := Pipeline(SourceTemplates, ask, sourceText, sourceLanguage, targetLanguage);
    PipelineRequests(SourceTemplates, ask, sourceText, sourceLanguage, targetLanguage);
    if |run.calls| > 1 {
      RefinePromptStripped(targetLanguage, run.calls[0].result.value);
    }
  }

  /** Its third request asks to compare the two answers. */
  lemma SendsCompareBody(ask: (nat, string) -> Call, sourceText: string, sourceLanguage: string, targetLanguage: string)
    requires BehavesLikeApiCall(ask)
    ensures var run := Pipeline(SourceTemplates, ask, sourceText, sourceLanguage, targetLanguage);
      |run.calls| > 2 ==>
        && run.calls[0].result.Success? && run.calls[1].result.Success?
        && run.calls[2].payload.prompt == CompareBody(targetLanguage, run.calls[0].result.value, run.calls[1].result.value)
  {
    var run := Pipeline(SourceTemplates, ask, sourceText, sourceLanguage, targetLanguage);
    PipelineRequests(SourceTemplates, ask, sourceText, sourceLanguage, targetLanguage);
    if |run.calls| > 2 {
      ComparePromptStripped(targetLanguage, run.calls[0].result.value, run.calls[1].result.value);
    }
  }

  /** The initial request embeds the source text. */
  lemma InitialBodyEmbeds(sourceText: string, sourceLanguage: string, targetLanguage: string)
    ensures Contains(InitialBody(sourceText, sourceLanguage, targetLanguage), sourceText)
  {
    ContainsInfix(InitialLead(sourceLanguage, targetLanguage), sourceText, InitialClose(targetLanguage));
  }

  /** The refinement request embeds the initial translation. */
  lemma RefineBodyEmbeds(targetLanguage: string, initial: string)
    ensures Contains(RefineBody(targetLanguage, initial), initial)
  {
    ContainsTail(RefineLead(targetLanguage), initial);
  }

  /** The comparison request holds each candidate on a line of its own, after its label. */
  lemma CompareBodyEmbeds(targetLanguage: string, initial: string, refined: string)
    ensures Contains(CompareBody(targetLanguage, initial, refined), Labelled(Label1, initial))
    ensures Contains(CompareBody(targetLanguage, initial, refined), Labelled(Label2, refined))
  {
    ContainsInfix(CompareLead(targetLanguage), Labelled(Label1, initial), Labelled(Label2, refined));
    ContainsTail(CompareLead(targetLanguage) + Labelled(Label1, initial), Labelled(Label2, refined));
  }

  /** The first request of `translate_text` carries the source text. */
  lemma TranslateTextSendsSource(service: Service, sourceText: string, sourceLanguage: string, targetLanguage: string)
    ensures Contains(TranslateText(service, sourceText, sourceLanguage, targetLanguage).calls[0].payload.prompt, sourceText)
  {
    AskBehavesLikeApiCall(service);
    SendsInitialBody(Ask(service), sourceText, sourceLanguage, targetLanguage);
    InitialBodyEmbeds(sourceText, sourceLanguage, targetLanguage);
  }

  /** Its second request carries the first answer. */
  lemma TranslateTextSendsInitial(service: Service, sourceText: string, sourceLanguage: string, targetLanguage: string)
    ensures var run := TranslateText(service, sourceText, sourceLanguage, targetLanguage);
      |run.calls| > 1 ==>
        && run.calls[0].result.Success?
        && Contains(run.calls[1].payload.prompt, run.calls[0].result.value)
  {
    var run := TranslateText(service, sourceText, sourceLanguage, targetLanguage);
    AskBehavesLikeApiCall(service);
    SendsRefineBody(Ask(service), sourceText, sourceLanguage, targetLanguage);
    if |run.calls| > 1 {
      RefineBodyEmbeds(targetLanguage, run.calls[0].result.value);
    }
  }

  /** Its third request carries both answers, each on its own line after its label. */
  lemma TranslateTextSendsCandidates(service: Service, sourceText: string, sourceLanguage: string, targetLanguage: string)
    ensures var run := TranslateText(service, sourceText, sourceLanguage, targetLanguage);
      |run.calls| > 2 ==>
        && run.calls[0].result.Success? && run.calls[1].result.Success?
        && Contains(run.calls[2].payload.prompt, Labelled("Version 1", run.calls[0].result.value))
        && Contains(run.calls[2].payload.prompt, Labelled("Version 2", run.calls[1].result.value))
  {
    var run := TranslateText(service, sourceText, sourceLanguage, targetLanguage);
    AskBehavesLikeApiCall(service);
    SendsCompareBody(Ask(service), sourceText, sourceLanguage, targetLanguage);
    if |run.calls| > 2 {
      CompareBodyEmbeds(targetLanguage, run.calls[0].result.value, run.calls[1].result.value);
    }
  }

  /**
   * The verdict rule of `translate_text`: a verdict mentioning "Version 1"
   * picks the initial translation, even when it also mentions "Version 2";
   * otherwise one mentioning "Version 2" picks the refinement; any other
   * verdict is a ValueError that quotes it.
   */
  lemma SelectionRule(verdict: string, initial: string, refined: string)
    ensures var r := SelectTranslation(SourceTemplates, verdict, initial, refined);
      && (Mentions(verdict, "Version 1") ==> r == Success(initial))
      && (!Mentions(verdict, "Version 1") && Mentions(verdict, "Version 2") ==> r == Success(refined))
      && (!Mentions(verdict, "Version 1") && !Mentions(verdict, "Version 2") ==> r == Failure(UnexpectedVerdict(verdict)))
  {
    ContainsIff(verdict, Label1);
    ContainsIff(verdict, Label2);
  }

  /**
   * The first-match rule in action: a verdict that prefers the refinement
   * but names "Version 1" anywhere still picks the initial translation.
   */
  lemma FirstLabelWins(initial: string, refined: string)
    ensures SelectTranslation(SourceTemplates, "Version 2 beats Version 1", initial, refined) == Success(initial)
  {
    var verdict := "Version 2 beats Version 1";
    assert verdict[16..] == Label1;
    assert OccursAt(verdict, Label1, 16);
    SelectionRule(verdict, initial, refined);
  }

  /** A verdict naming only "Version 2" picks the refinement. */
  lemma SecondLabelPicksRefinement(initial: string, refined: string)
    ensures SelectTranslation(SourceTemplates, "Version 2 is better", initial, refined) == Success(refined)
  {
    var verdict := "Version 2 is better";
    assert StartsWith(verdict, Label2);
    assert !Mentions(verdict, Label1) by {
      forall i | 0 <= i && i + |Label1| <= |verdict|
        ensures !OccursAt(verdict, Label1, i)
      {
        if i == 0 {
          assert verdict[8] != Label1[8];
        } else {
          assert verdict[i..i + |Label1|][0] == verdict[i] != 'V';
        }
      }
    }
    ContainsIff(verdict, Label1);
  }

  /** A verdict naming neither version is a ValueError that carries it. */
  lemma UnlabelledVerdictFails(initial: string, refined: string)
    ensures SelectTranslation(SourceTemplates, "Both read well", initial, refined)
            == Failure(UnexpectedVerdict("Both read well"))
  {
    var verdict := "Both read well";
    assert forall i :: 0 <= i < |verdict| ==> verdict[i] != 'V';
    assert !Mentions(verdict, Label1) by {
      forall i | 0 <= i && i + |Label1| <= |verdict|
        ensures !OccursAt(verdict, Label1, i)
      {
        assert verdict[i..i + |Label1|][0] == verdict[i];
      }
    }
    assert !Mentions(verdict, Label2) by {
      forall i | 0 <= i && i + |Label2| <= |verdict|
        ensures !OccursAt(verdict, Label2, i)
      {
        assert verdict[i..i + |Label2|][0] == verdict[i];
      }
    }
    ContainsIff(verdict, Label1);
    ContainsIff(verdict, Label2);
  }
}
