/**
 * The completion client `make_api_call`: it builds the request payload, hands
 * it to the completion service, takes the first choice's text, strips it and
 * rejects an empty result. The service itself is an oracle.
 */
module Completion {
  import opened Wrappers
  import opened Text
  import opened Errors

  const DefaultModel: string := "text-davinci-003"
  const DefaultMaxTokens: int := 1000
  const DefaultTemperature: real := 0.7

  /** The keyword arguments of one call. The temperature is carried, never inspected. */
  datatype Params = Params(maxTokens: int, temperature: real, model: string)

  /** The arguments `translate_text` leaves at their defaults. */
  const DefaultParams: Params := Params(DefaultMaxTokens, DefaultTemperature, DefaultModel)

  /** The JSON request body. */
  datatype Payload = Payload(model: string, prompt: string, maxTokens: int, temperature: real)

  /** A member of a JSON object as `dict.get` sees it: missing, `null`, or a value. */
  datatype Field<T> = Absent | Null | Present(value: T)

  /** One element of the `choices` array. */
  datatype Choice = Choice(text: Field<string>)

  /** The decoded JSON response body. */
  datatype Response = Response(choices: Field<seq<Choice>>)

  /**
   * What one POST yields: either a `RequestException` (connection error,
   * timeout, non-2xx status, undecodable body) described by its text, or a
   * decoded body.
   */
  datatype Reply = TransportFailure(cause: string) | Received(body: Response)

  /** The completion service: the reply to the call with the given index and payload. */
  type Service = (nat, Payload) -> Reply

  /** One call as seen from outside: what was sent and what came back. */
  datatype Call = Call(payload: Payload, result: Result<string, Exception>)

  /** The request body: the prompt with its surrounding whitespace removed, the rest unchanged. */
  function BuildPayload(prompt: string, params: Params): (p: Payload)
    ensures IsStripped(p.prompt) && Pads(prompt, p.prompt)
    ensures p.model == params.model
    ensures p.maxTokens == params.maxTokens
    ensures p.temperature == params.temperature
  {
    StripPads(prompt);
    Payload(params.model, Strip(prompt), params.maxTokens, params.temperature)
  }

  /** `json_response.get("choices", [{}])[0]`: a missing array reads as one empty choice. */
  function FirstChoice(body: Response): Result<Choice, Exception> {
    match body.choices
    case Absent => Success(Choice(Absent))
    case Null => Failure(NoneNotSubscriptable)
    case Present(cs) => if |cs| == 0 then Failure(IndexOutOfRange) else Success(cs[0])
  }

  /** `choice.get("text", "")`: a missing text reads as the empty string, `null` as `None`. */
  function ChoiceText(choice: Choice): Option<string> {
    match choice.text
    case Absent => Some("")
    case Null => None
    case Present(t) => Some(t)
  }

  /** `.strip()` on the extracted value; `None.strip()` raises. */
  function StripText(t: Option<string>): Result<string, Exception> {
    match t
    case Some(s) => Success(Strip(s))
    case None => Failure(NoneHasNoStrip)
  }

  /** The text of the first choice, stripped; an empty text is a RuntimeError. */
  function ExtractText(body: Response): (r: Result<string, Exception>)
    ensures r.Success? ==> r.value != [] && IsStripped(r.value)
  {
    var choice :- FirstChoice(body);
    var text :- StripText(ChoiceText(choice));
    if text == [] then Failure(EmptyResponse) else Success(text)
  }

  /**
   * How the response body decides the outcome: a text comes back exactly when
   * the first choice carries a string that is not all whitespace, and it is
   * that string minus its padding; a missing `choices` array or a first choice
   * without `text` reads as "" and so is the empty-response RuntimeError; a
   * present but empty array is an IndexError, which no handler in
   * `make_api_call` turns into a RuntimeError.
   */
  lemma ExtractTextOutcomes(body: Response)
    ensures ExtractText(body).Success? <==>
      && body.choices.Present?
      && |body.choices.value| > 0
      && body.choices.value[0].text.Present?
      && Strip(body.choices.value[0].text.value) != []
    ensures ExtractText(body).Success? ==> Pads(body.choices.value[0].text.value, ExtractText(body).value)
    ensures body.choices.Absent? ==> ExtractText(body) == Failure(EmptyResponse)
    ensures body.choices == Present([]) ==> ExtractText(body) == Failure(IndexOutOfRange)
    ensures body.choices.Null? ==> ExtractText(body) == Failure(NoneNotSubscriptable)
    ensures body.choices.Present? && |body.choices.value| > 0 ==>
      match body.choices.value[0].text
      case Absent => ExtractText(body) == Failure(EmptyResponse)
      case Null => ExtractText(body) == Failure(NoneHasNoStrip)
      case Present(t) => ExtractText(body) == (if Strip(t) == [] then Failure(EmptyResponse) else Success(Strip(t)))
    ensures ExtractText(body).Failure? ==>
      (IsInstance(ExtractText(body).error, RuntimeErrorClass) <==> ExtractText(body).error == EmptyResponse)
  {
    match body.choices
    case Absent =>
      assert Strip("") == "" by { StripOfPadded([], [], []); }
    case Null =>
    case Present(cs) =>
      if |cs| > 0 {
        match cs[0].text
        case Absent =>
          assert Strip("") == "" by { StripOfPadded([], [], []); }
        case Null =>
        case Present(t) =>
          assert FirstChoice(body) == Success(cs[0]);
          assert StripText(ChoiceText(cs[0])) == Success(Strip(t));
          StripPads(t);
      }
  }

  /**
   * The `try` block of `make_api_call` once the service has replied: a
   * transport failure is wrapped as a RuntimeError; any other failure passes
   * through unwrapped.
   */
  function HandleReply(reply: Reply): (r: Result<string, Exception>)
    ensures r.Success? ==> r.value != [] && IsStripped(r.value)
    ensures reply.TransportFailure? ==> r == Failure(CallFailed(reply.cause))
    ensures reply.Received? ==> r == ExtractText(reply.body)
  {
    match reply
    case TransportFailure(cause) => Failure(CallFailed(cause))
    case Received(body) => ExtractText(body)
  }

  /** `make_api_call(prompt, **params)` as the call with the given index to `service`. */
  function MakeApiCall(service: Service, index: nat, prompt: string, params: Params): (c: Call)
    ensures c.payload == BuildPayload(prompt, params)
    ensures c.result.Success? ==> c.result.value != [] && IsStripped(c.result.value)
    ensures c.result == HandleReply(service(index, c.payload))
  {
    var payload := BuildPayload(prompt, params);
    Call(payload, HandleReply(service(index, payload)))
  }

  /**
   * What `make_api_call` can raise: one of its two RuntimeErrors, or the
   * unwrapped IndexError, TypeError or AttributeError of a malformed body.
   */
  lemma MakeApiCallRaises(service: Service, index: nat, prompt: string, params: Params)
    ensures var c := MakeApiCall(service, index, prompt, params);
      c.result.Failure? ==>
        || c.result.error.EmptyResponse?
        || c.result.error.CallFailed?
        || c.result.error.IndexOutOfRange?
        || c.result.error.NoneNotSubscriptable?
        || c.result.error.NoneHasNoStrip?
  {
    var c := MakeApiCall(service, index, prompt, params);
    var reply := service(index, c.payload);
    if reply.Received? {
      ExtractTextOutcomes(reply.body);
    }
  }
}
