/**
 * `main`: read the input file, translate, write the output file, and turn
 * the first exception into a printed diagnostic and exit status 1. The
 * files are not modelled as I/O but as the outcome each open would have.
 */
module Driver {
  import opened Wrappers
  import opened Text
  import opened Errors
  import opened Completion
  import opened Orchestrator

  /** What opening and reading the input file as UTF-8 yields. */
  datatype InputFile =
    | Missing(detail: string)
    | Undecodable(detail: string)
    | Unreadable(detail: string)
    | Readable(text: string)

  /** What opening the output file for writing yields. */
  datatype OutputTarget =
    | Writable
    | MissingDirectory(detail: string)
    | Unwritable(detail: string)

  /** Reading the input: its text, or the exception `open`/`read` raises. */
  function ReadInput(input: InputFile): (r: Result<string, Exception>)
    ensures r.Success? <==> input.Readable?
    ensures r.Failure? ==> (r.error.FileNotFoundError? <==> input.Missing?)
  {
    match input
    case Missing(detail) => Failure(FileNotFoundError(detail))
    case Undecodable(detail) => Failure(UnicodeDecodeError(detail))
    case Unreadable(detail) => Failure(OSError(detail))
    case Readable(text) => Success(text)
  }

  /** Opening the output: nothing, or the exception `open` raises. */
  function OpenOutput(output: OutputTarget): (r: Option<Exception>)
    ensures r.None? <==> output.Writable?
    ensures r.Some? ==> (r.value.FileNotFoundError? <==> output.MissingDirectory?)
  {
    match output
    case Writable => None
    case MissingDirectory(detail) => Some(FileNotFoundError(detail))
    case Unwritable(detail) => Some(OSError(detail))
  }

  /** The `except` clauses of `main`, in the order Python tries them. */
  const Clauses: seq<Class> := [FileNotFoundErrorClass, RuntimeErrorClass, ValueErrorClass, ExceptionClass]

  /** The position of the first clause among `clauses` that catches `e`, if any. */
  function FirstMatch(clauses: seq<Class>, e: Exception): (r: Option<nat>)
    ensures r.Some? ==> r.value < |clauses| && IsInstance(e, clauses[r.value])
    ensures r.Some? ==> forall j :: 0 <= j < r.value ==> !IsInstance(e, clauses[j])
    ensures r.None? ==> forall j :: 0 <= j < |clauses| ==> !IsInstance(e, clauses[j])
  {
    if clauses == [] then None
    else if IsInstance(e, clauses[0]) then Some(0)
    else match FirstMatch(clauses[1..], e)
      case None => None
      case Some(i) => Some(i + 1)
  }

  /** The clause of `main` that handles `e`; the last one catches every exception. */
  function HandlerFor(e: Exception): (c: Class)
    ensures c in Clauses && IsInstance(e, c)
  {
    match FirstMatch(Clauses, e)
    case Some(i) => Clauses[i]
    case None => ExceptionClass
  }

  /** The text each clause prints before `str(e)`. */
  function Lead(c: Class): string {
    match c
    case FileNotFoundErrorClass => "Error: File not found - "
    case RuntimeErrorClass => "Error during translation: "
    case ValueErrorClass => "Translation error: "
    case ExceptionClass => "Unexpected error: "
  }

  /** The line `main` prints for `e`. */
  function Diagnostic(e: Exception): string {
    Lead(HandlerFor(e)) + Str(e)
  }

  /** Which clause printed `line`, recognised by its lead; `None` for any other line. */
  function PrintedBy(line: string): (r: Option<Class>)
    ensures r.Some? ==> StartsWith(line, Lead(r.value))
  {
    if StartsWith(line, Lead(FileNotFoundErrorClass)) then Some(FileNotFoundErrorClass)
    else if StartsWith(line, Lead(RuntimeErrorClass)) then Some(RuntimeErrorClass)
    else if StartsWith(line, Lead(ValueErrorClass)) then Some(ValueErrorClass)
    else if StartsWith(line, Lead(ExceptionClass)) then Some(ExceptionClass)
    else None
  }

  /** What one run of the program did, as far as it can be observed. */
  datatype Outcome = Outcome(
    calls: seq<Call>,
    written: Option<string>,
    diagnostic: Option<string>,
    exitCode: int)

  /** A run that ends in the handler of `e`. */
  function Failed(calls: seq<Call>, e: Exception): Outcome {
    Outcome(calls, None, Some(Diagnostic(e)), 1)
  }

  /**
   * `main`, given `translate_text` already applied to the two languages
   * from the command line. The output file is opened only after the
   * translation returns, so it is written exactly when the program succeeds,
   * and every failure exits with status 1.
   */
  function Program(translate: string -> Run, input: InputFile, output: OutputTarget): (o: Outcome)
    ensures o.exitCode == 0 || o.exitCode == 1
    ensures o.written.Some? <==> o.exitCode == 0
    ensures o.diagnostic.Some? <==> o.exitCode == 1
  {
    match ReadInput(input)
    case Failure(e) => Failed([], e)
    case Success(sourceText) =>
      var run := translate(sourceText);
      match run.result
      case Failure(e) => Failed(run.calls, e)
      case Success(translation) =>
        match OpenOutput(output)
        case Some(e) => Failed(run.calls, e)
        case None => Outcome(run.calls, Some(translation), None, 0)
  }

  /**
   * The program as written, with `service` answering its completion
   * requests: no request is made unless the input was read, and what it
   * writes is an answer of the service, non-empty and with no whitespace at
   * either end.
   */
  function RunProgram(service: Service, input: InputFile, output: OutputTarget, sourceLanguage: string, targetLanguage: string): (o: Outcome)
    ensures !input.Readable? ==> o.calls == []
    ensures o.written.Some? ==>
      && input.Readable? && output.Writable?
      && |o.calls| == 3 && o.calls[0].result.Success? && o.calls[1].result.Success? && o.calls[2].result.Success?
      && (o.written.value == o.calls[0].result.value || o.written.value == o.calls[1].result.value)
      && o.written.value != [] && IsStripped(o.written.value)
  {
    var translate := sourceText => TranslateText(service, sourceText, sourceLanguage, targetLanguage);
    ProgramWritesOnlyTranslation(translate, input, output);
    ProgramCallsOnlyAfterReading(translate, input, output);
    Program(translate, input, output)
  }

  /** `line` does not start with `lead` because they differ at position `k`. */
  lemma DiffersAt(line: string, lead: string, k: nat)
    requires k < |line| && k < |lead| && line[k] != lead[k]
    ensures !StartsWith(line, lead)
  {
  }

  /**
   * Each exception reaches the clause of its own class: the first-match walk
   * over the clauses agrees with a direct reading of the class hierarchy.
   */
  lemma HandlerClassification(e: Exception)
    ensures HandlerFor(e) == FileNotFoundErrorClass <==> e.FileNotFoundError?
    ensures HandlerFor(e) == RuntimeErrorClass <==> e.EmptyResponse? || e.CallFailed?
    ensures HandlerFor(e) == ValueErrorClass <==> e.UnexpectedVerdict? || e.UnicodeDecodeError?
    ensures HandlerFor(e) == ExceptionClass
            <==> e.OSError? || e.IndexOutOfRange? || e.NoneNotSubscriptable? || e.NoneHasNoStrip?
  {
    assert Clauses[0] == FileNotFoundErrorClass && Clauses[1] == RuntimeErrorClass;
    assert Clauses[2] == ValueErrorClass && Clauses[3] == ExceptionClass;
  }

  /** Whatever follows it, a clause's lead is recognised as that clause's. */
  lemma LeadRecognised(c: Class, rest: string)
    ensures PrintedBy(Lead(c) + rest) == Some(c)
  {
    var line := Lead(c) + rest;
    assert line[..|Lead(c)|] == Lead(c);
    match c
    case FileNotFoundErrorClass =>
    case RuntimeErrorClass =>
      DiffersAt(line, Lead(FileNotFoundErrorClass), 5);
    case ValueErrorClass =>
      DiffersAt(line, Lead(FileNotFoundErrorClass), 0);
      DiffersAt(line, Lead(RuntimeErrorClass), 0);
    case ExceptionClass =>
      DiffersAt(line, Lead(FileNotFoundErrorClass), 0);
      DiffersAt(line, Lead(RuntimeErrorClass), 0);
      DiffersAt(line, Lead(ValueErrorClass), 0);
  }

  /** A diagnostic line names the clause that printed it. */
  lemma DiagnosticNamesHandler(e: Exception)
    ensures PrintedBy(Diagnostic(e)) == Some(HandlerFor(e))
  {
    LeadRecognised(HandlerFor(e), Str(e));
  }

  /**
   * Output is written only after a translation succeeds, only when the
   * output can be opened, and what is written is the translation.
   */
  lemma ProgramWritesOnlyTranslation(translate: string -> Run, input: InputFile, output: OutputTarget)
    ensures var o := Program(translate, input, output);
      && (o.written.Some? <==> input.Readable? && translate(input.text).result.Success? && output.Writable?)
      && (o.written.Some? ==> o.written.value == translate(input.text).result.value)
  {
  }

  /**
   * No completion call is made unless the input was read; otherwise the
   * calls are exactly those of the translation.
   */
  lemma ProgramCallsOnlyAfterReading(translate: string -> Run, input: InputFile, output: OutputTarget)
    ensures var o := Program(translate, input, output);
      && (!input.Readable? ==> o.calls == [])
      && (input.Readable? ==> o.calls == translate(input.text).calls)
  {
  }

  /** An input that cannot be read is reported by the clause of its class. */
  lemma ProgramReportsInput(translate: string -> Run, input: InputFile, output: OutputTarget)
    ensures var o := Program(translate, input, output);
      && (input.Missing? ==> o.diagnostic == Some("Error: File not found - " + input.detail))
      && (input.Undecodable? ==> o.diagnostic == Some("Translation error: " + input.detail))
      && (input.Unreadable? ==> o.diagnostic == Some("Unexpected error: " + input.detail))
  {
    // Not needed on every solver seed, but without it some seeds fail.
    if !input.Readable? {
      HandlerClassification(ReadInput(input).error);
    }
  }

  /**
   * A failed translation is reported as a translation error (RuntimeError),
   * as a ValueError for a verdict naming neither version, or as unexpected
   * for a malformed reply.
   */
  lemma ProgramReportsTranslation(translate: string -> Run, input: InputFile, output: OutputTarget)
    ensures var o := Program(translate, input, output);
      (input.Readable? && translate(input.text).result.Failure?) ==>
        var e := translate(input.text).result.error;
        && (e.EmptyResponse? || e.CallFailed? ==> o.diagnostic == Some("Error during translation: " + Str(e)))
        && (e.UnexpectedVerdict? ==> o.diagnostic == Some("Translation error: " + Str(e)))
        && (e.IndexOutOfRange? || e.NoneNotSubscriptable? || e.NoneHasNoStrip? ==>
              o.diagnostic == Some("Unexpected error: " + Str(e)))
  {
    if input.Readable? && translate(input.text).result.Failure? {
      HandlerClassification(translate(input.text).result.error);
    }
  }

  /** An output that cannot be opened is reported after the translation, by the clause of its class. */
  lemma ProgramReportsOutput(translate: string -> Run, input: InputFile, output: OutputTarget)
    ensures var o := Program(translate, input, output);
      (input.Readable? && translate(input.text).result.Success?) ==>
        && (output.MissingDirectory? ==> o.diagnostic == Some("Error: File not found - " + output.detail))
        && (output.Unwritable? ==> o.diagnostic == Some("Unexpected error: " + output.detail))
  {
  }

  /**
   * A line printed by the FileNotFoundError clause comes from a missing
   * input, a missing output directory, or a FileNotFoundError raised by the
   * translation itself.
   */
  lemma ProgramFileNotFound(translate: string -> Run, input: InputFile, output: OutputTarget)
    ensures var o := Program(translate, input, output);
      (o.diagnostic.Some? && PrintedBy(o.diagnostic.value) == Some(FileNotFoundErrorClass)) ==>
        || input.Missing?
        || (&& input.Readable?
            && (|| output.MissingDirectory?
                || (translate(input.text).result.Failure? && translate(input.text).result.error.FileNotFoundError?)))
  {
    if !input.Readable? {
      HandlerClassification(ReadInput(input).error);
      DiagnosticNamesHandler(ReadInput(input).error);
    } else if translate(input.text).result.Failure? {
      HandlerClassification(translate(input.text).result.error);
      DiagnosticNamesHandler(translate(input.text).result.error);
    } else if !output.Writable? {
      HandlerClassification(OpenOutput(output).value);
      DiagnosticNamesHandler(OpenOutput(output).value);
    }
  }

  /**
   * In the program as written, "Error: File not found" always means a file:
   * no failure of the translation is reported that way.
   */
  lemma FileNotFoundMeansFile(service: Service, input: InputFile, output: OutputTarget, sourceLanguage: string, targetLanguage: string)
    ensures var o := RunProgram(service, input, output, sourceLanguage, targetLanguage);
      (o.diagnostic.Some? && PrintedBy(o.diagnostic.value) == Some(FileNotFoundErrorClass)) ==>
        input.Missing? || (input.Readable? && output.MissingDirectory?)
  {
    ProgramFileNotFound(sourceText => TranslateText(service, sourceText, sourceLanguage, targetLanguage), input, output);
    if input.Readable? {
      TranslateRaises(SourceTemplates, service, input.text, sourceLanguage, targetLanguage);
    }
  }
}
