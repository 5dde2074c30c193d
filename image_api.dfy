/**
 * The handler of `POST /api/generate-image` and the `openai_configured`
 * flag of `GET /health`.
 *
 * The handler is a chain of early-return guards inside one `try`: the
 * client must be configured, the body must be truthy JSON, the trimmed
 * prompt must be non-empty and at most 1000 characters, and the size must
 * be one of five values. It then asks the upstream image service for one
 * image and replies with the first image's URL. Any exception raised on the
 * way is handed to the error classifier.
 */
module ImageApi {
  import opened Wrappers
  import opened Text
  import opened Json
  import opened Responses
  import opened ErrorClassifier

  const MaxPromptLength := 1000
  const DefaultSize := "1024x1024"
  const ValidSizes := ["256x256", "512x512", "1024x1024", "1792x1024", "1024x1792"]
  const NoImageData := "No image data returned from OpenAI API"

  /** `"Invalid size"`, whose message lists the valid sizes joined by ", ". */
  function InvalidSize(): (r: Response)
    ensures r.Failed? && r.error == "Invalid size" && r.status == 400
    ensures r.message == "Size must be one of: "
                         + ("256x256" + ", " + "512x512" + ", " + "1024x1024" + ", "
                            + "1792x1024" + ", " + "1024x1792")
    ensures forall k :: 0 <= k < |ValidSizes| ==> Contains(r.message, ValidSizes[k])
  {
    var message := "Size must be one of: " + Join(ValidSizes, ", ");
    ValidSizesJoined();
    assert forall k :: 0 <= k < |ValidSizes| ==> Contains(message, ValidSizes[k]) by {
      forall k | 0 <= k < |ValidSizes| ensures Contains(message, ValidSizes[k]) {
        JoinContainsEach(ValidSizes, ", ", k);
        SuffixContains("Size must be one of: ", Join(ValidSizes, ", "), ValidSizes[k]);
      }
    }
    Failed("Invalid size", message, 400)
  }

  /** The five sizes joined by ", ", in their order. */
  lemma ValidSizesJoined()
    ensures Join(ValidSizes, ", ")
         == "256x256" + ", " + "512x512" + ", " + "1024x1024" + ", " + "1792x1024" + ", " + "1024x1792"
  {
    var sep := ", ";
    assert Join(ValidSizes[4..], sep) == "1024x1792";
    assert Join(ValidSizes[3..], sep) == "1792x1024" + sep + Join(ValidSizes[4..], sep) by {
      assert ValidSizes[3..][1..] == ValidSizes[4..];
    }
    assert Join(ValidSizes[2..], sep) == "1024x1024" + sep + Join(ValidSizes[3..], sep) by {
      assert ValidSizes[2..][1..] == ValidSizes[3..];
    }
    assert Join(ValidSizes[1..], sep) == "512x512" + sep + Join(ValidSizes[2..], sep) by {
      assert ValidSizes[1..][1..] == ValidSizes[2..];
    }
    assert Join(ValidSizes, sep) == "256x256" + sep + Join(ValidSizes[1..], sep);
  }

  /** A text found in `tail` is found in `head + tail`. */
  lemma SuffixContains(head: string, tail: string, p: string)
    requires Contains(tail, p)
    ensures Contains(head + tail, p)
  {
    ContainsIff(tail, p);
    var i :| OccursAt(tail, p, i);
    assert (head + tail)[|head| + i..|head| + i + |p|] == tail[i..i + |p|];
    assert OccursAt(head + tail, p, |head| + i);
    ContainsIff(head + tail, p);
  }

  /** A request that passed validation: the trimmed prompt and the size. */
  datatype ImageRequest = ImageRequest(prompt: string, size: string)

  /** The parameters of the one upstream call `images.generate`. */
  datatype ImagesCall = ImagesCall(model: string, prompt: string, n: nat, size: string, quality: string)

  /** One image record of the upstream reply; its `url` may be missing. */
  datatype ImageRecord = ImageRecord(url: Option<string>)

  /** What the upstream call did: it returned a reply whose `data` list may
      be missing, or it raised an exception with the given text. */
  datatype Upstream =
    | Returned(data: Option<seq<ImageRecord>>)
    | Raised(message: string)

  /** Where one stage of the handler leaves the request: carry on with a
      value, return a reply at once, or raise an exception with a text. */
  datatype Outcome<T> =
    | Proceed(value: T)
    | Reply(response: Response)
    | Raise(message: string)
  {
    /** The same early reply or exception, for a stage with another value type. */
    function Propagate<U>(): (r: Outcome<U>)
      requires !Proceed?
      ensures r.Reply? == Reply? && (Reply? ==> r.response == response)
      ensures r.Raise? == Raise? && (Raise? ==> r.message == message)
    {
      if Reply? then Reply(response) else Raise(message)
    }
  }

  /** The trimmed prompt and the size pass the handler's checks. */
  predicate Acceptable(request: ImageRequest)
  {
    && request.prompt != ""
    && |request.prompt| <= MaxPromptLength
    && request.size in ValidSizes
  }

  /** The prompt guard: `data.get('prompt', '').strip()` must be non-empty
      and at most 1000 characters long. A prompt that is not a string has no
      `strip`, and asking for it raises. */
  function CheckPrompt(fields: map<string, Value>): (r: Outcome<string>)
    ensures r.Raise? <==> "prompt" in fields && !fields["prompt"].Str?
    ensures "prompt" !in fields ==> r == Reply(MissingPrompt)
  {
    StripPrompt(Get(fields, "prompt", Str("")))
  }

  /** The prompt guard applied to the value of the `prompt` field: only a
      value that is not a string raises, and only its two replies are given. */
  function StripPrompt(raw: Value): (r: Outcome<string>)
    ensures r.Raise? <==> !raw.Str?
    ensures r.Reply? ==> r.response == MissingPrompt || r.response == PromptTooLong
    ensures r.Proceed? ==> r.value != "" && |r.value| <= MaxPromptLength
    ensures r.Proceed? ==> Trimmed(r.value)
    ensures r.Raise? ==> '_' !in r.message
  {
    if !raw.Str? then Raise(AttributeErrorMessage(raw, "strip"))
    else
      var prompt := Strip(raw.s);
      if prompt == "" then Reply(MissingPrompt)
      else if |prompt| > MaxPromptLength then Reply(PromptTooLong)
      else Proceed(prompt)
  }

  /** The size guard: `data.get('size', '1024x1024')` must be one of the five
      valid sizes (Python's `in` on a list compares with `==`, so a size that
      is not a string is simply not found). */
  function CheckSize(fields: map<string, Value>): (r: Outcome<string>)
    ensures r.Reply? ==> r.response == InvalidSize()
    ensures r.Proceed? ==> r.value in ValidSizes
    ensures !r.Raise?
  {
    var size := Get(fields, "size", Str(DefaultSize));
    if size.Str? && size.s in ValidSizes then Proceed(size.s) else Reply(InvalidSize())
  }

  /** The guards on a parsed body, in the handler's order: the body must be
      truthy, then it must be a dict (otherwise asking it for `get` raises),
      then the prompt guard, then the size guard. */
  function ValidateValue(data: Value): (r: Outcome<ImageRequest>)
    ensures r.Reply? ==> r.response.Failed? && r.response.status == 400
    ensures r.Proceed? ==> Acceptable(r.value) && Trimmed(r.value.prompt)
    ensures r.Raise? ==> '_' !in r.message
  {
    if !Truthy(data) then Reply(InvalidJson)
    else if !data.Object? then Raise(AttributeErrorMessage(data, "get"))
    else
      var prompt := CheckPrompt(data.fields);
      if !prompt.Proceed? then prompt.Propagate()
      else
        var size := CheckSize(data.fields);
        if !size.Proceed? then size.Propagate()
        else Proceed(ImageRequest(prompt.value, size.value))
  }

  /** The validation of the whole request body. An empty or missing body is
      "Invalid JSON"; an exception raised while reading the body is passed on
      to the classifier. */
  function Validate(body: Body): (r: Outcome<ImageRequest>)
    ensures r.Reply? ==> r.response.Failed? && r.response.status == 400
    ensures r.Proceed? ==> Acceptable(r.value) && Trimmed(r.value.prompt)
    ensures r.Raise? ==> '_' !in r.message || body.Rejected?
    ensures body.NoJson? ==> r == Reply(InvalidJson)
    ensures body.Rejected? ==> r == Raise(body.message)
  {
    match body
    case NoJson => Reply(InvalidJson)
    case Rejected(message) => Raise(message)
    case Parsed(data) => ValidateValue(data)
  }

  /** The text of the exception raised for a reply without images names
      none of the classifier's markers. */
  lemma NoImageDataIsInternalError()
    ensures Classify(NoImageData) == InternalError
  {
    assert '_' !in NoImageData by {
      forall k | 0 <= k < |NoImageData| ensures NoImageData[k] != '_' {
      }
    }
    NoUnderscoreIsInternalError(NoImageData);
  }

  /** The upstream call made for a validated request: DALL-E 3, one image of
      standard quality, with the trimmed prompt and the chosen size. */
  function CallFor(request: ImageRequest): (c: ImagesCall)
    ensures c.model == "dall-e-3" && c.n == 1 && c.quality == "standard"
    ensures c.prompt == request.prompt && c.size == request.size
  {
    ImagesCall("dall-e-3", request.prompt, 1, request.size, "standard")
  }

  /** The URL of the first image, or the exception the handler raises when
      the reply carries no image. */
  function Extract(upstream: Upstream): (r: Outcome<Option<string>>)
    ensures !r.Reply?
    ensures r.Proceed? <==> upstream.Returned? && upstream.data.Some? && upstream.data.value != []
    ensures r.Proceed? ==> r.value == upstream.data.value[0].url
    ensures r.Raise? ==> r.message == if upstream.Raised? then upstream.message else NoImageData
  {
    match upstream
    case Raised(message) => Raise(message)
    case Returned(data) =>
      if data.Some? && |data.value| > 0 then Proceed(data.value[0].url) else Raise(NoImageData)
  }

  /** `generate_image`. `configured` says whether a client was built at
      start-up; `call` stands for the upstream image service. */
  function GenerateImage(configured: bool, body: Body, call: ImagesCall -> Upstream): (r: Response)
    ensures r.Failed? ==> r.status in {400, 429, 500}
    ensures r.Generated? ==> Acceptable(ImageRequest(r.prompt, r.size)) && Trimmed(r.prompt)
  {
    if !configured then NotConfigured
    else
      match Validate(body)
      case Reply(response) => response
      case Raise(message) => Classify(message)
      case Proceed(request) =>
        match Extract(call(CallFor(request)))
        case Proceed(url) => Generated(url, request.prompt, request.size)
        case Raise(message) => Classify(message)
        case Reply(response) => response
  }

  /** The `/health` reply: `{status: "healthy", service, openai_configured}`. */
  datatype Health = Health(status: string, service: string, openaiConfigured: bool)

  function HealthCheck(configured: bool): (h: Health)
    ensures h.status == "healthy"
    ensures h.openaiConfigured == configured
  {
    Health("healthy", "DALL-E Image Generation API", configured)
  }
}
