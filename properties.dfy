/**
 * What `generate_image` promises, stated over all inputs: which guard
 * answers which request, that the first failing guard wins, that a failing
 * guard never reaches the upstream service, what a success echoes, and how
 * the exceptions of the handler itself are classified.
 */
module ImageApiProperties {
  import opened Wrappers
  import opened Text
  import opened Json
  import opened Responses
  import opened ErrorClassifier
  import opened ImageApi

  /** An independent statement of which bodies validation accepts, and as
      what request: a non-empty dict whose `prompt` is a string that strips to
      the request's prompt, whose `size` is the request's size or absent
      (then the size is the default), and the request passes the checks. */
  ghost predicate Accepts(body: Body, request: ImageRequest)
  {
    && body.Parsed? && body.value.Object? && |body.value.fields| > 0
    && var f := body.value.fields;
       && (if "prompt" in f then f["prompt"].Str? && request.prompt == Strip(f["prompt"].s)
           else request.prompt == "")
       && (if "size" in f then f["size"] == Str(request.size) else request.size == DefaultSize)
       && Acceptable(request)
  }

  /** The prompt guard lets `fields` through exactly with the stripped
      prompt, when that is non-empty and at most 1000 characters long. */
  lemma CheckPromptExactly(fields: map<string, Value>, prompt: string)
    ensures CheckPrompt(fields) == Proceed(prompt)
        <==> && (if "prompt" in fields then fields["prompt"].Str? && prompt == Strip(fields["prompt"].s)
                 else prompt == "")
             && prompt != "" && |prompt| <= MaxPromptLength
  {
    if "prompt" !in fields {
      assert Get(fields, "prompt", Str("")) == Str("");
      assert Strip("") == "";
    }
  }

  /** The size guard lets `fields` through exactly with the given size, or
      the default when there is none, when that size is one of the five. */
  lemma CheckSizeExactly(fields: map<string, Value>, size: string)
    ensures CheckSize(fields) == Proceed(size)
        <==> && (if "size" in fields then fields["size"] == Str(size) else size == DefaultSize)
             && size in ValidSizes
  {
  }

  /** Validation lets a body through exactly when `Accepts` says so, with the
      request `Accepts` names. */
  lemma ValidateAcceptsExactly(body: Body, request: ImageRequest)
    ensures Validate(body) == Proceed(request) <==> Accepts(body, request)
  {
    if body.Parsed? && body.value.Object? && |body.value.fields| > 0 {
      var f := body.value.fields;
      ValidateDictProceeds(f, request);
      CheckPromptExactly(f, request.prompt);
      CheckSizeExactly(f, request.size);
    }
  }

  /** A non-empty dict passes validation exactly when both guards pass. */
  lemma ValidateDictProceeds(fields: map<string, Value>, request: ImageRequest)
    requires |fields| > 0
    ensures Validate(Parsed(Object(fields))) == Proceed(request)
        <==> CheckPrompt(fields) == Proceed(request.prompt) && CheckSize(fields) == Proceed(request.size)
  {
    assert Truthy(Object(fields));
    var prompt, size := CheckPrompt(fields), CheckSize(fields);
    var v := Validate(Parsed(Object(fields)));
    assert prompt.Proceed? && size.Proceed? ==> v == Proceed(ImageRequest(prompt.value, size.value));
    assert !(prompt.Proceed? && size.Proceed?) ==> !v.Proceed?;
  }

  /** With no client configured the reply is always the configuration error,
      and it is never anything else while a client is configured; `/health`
      reports the same flag. */
  lemma NotConfiguredExactlyWhenHealthSaysSo(configured: bool, body: Body, call: ImagesCall -> Upstream)
    ensures GenerateImage(configured, body, call) == NotConfigured
        <==> !HealthCheck(configured).openaiConfigured
  {
    if configured {
      var v := Validate(body);
      if v.Raise? {
        ClassifyIsNeverAGuardReply(v.message);
      } else if v.Proceed? {
        var e := Extract(call(CallFor(v.value)));
        if e.Raise? {
          ClassifyIsNeverAGuardReply(e.message);
        }
      }
    }
  }

  /** Validation answers "Invalid JSON" exactly for a missing or falsy body. */
  lemma ValidateInvalidJsonExactly(body: Body)
    ensures Validate(body) == Reply(InvalidJson)
        <==> body.NoJson? || (body.Parsed? && !Truthy(body.value))
  {
    if body.Parsed? && Truthy(body.value) && body.value.Object? {
      var f := body.value.fields;
      assert |InvalidJson.error| != |MissingPrompt.error|;
      assert |InvalidJson.error| != |PromptTooLong.error|;
      assert |InvalidJson.message| != |InvalidSize().message|;
      assert ValidateValue(body.value) != Reply(InvalidJson) by {
        if CheckPrompt(f).Proceed? {
          assert CheckSize(f).Proceed? || CheckSize(f) == Reply(InvalidSize());
        }
      }
    }
  }

  /** No exception is ever classified as "Invalid JSON" or as the missing
      configuration. */
  lemma ClassifyIsNeverAGuardReply(message: string)
    ensures Classify(message) != InvalidJson
    ensures Classify(message) != NotConfigured
  {
    assert |ContentPolicyViolation.error| != |InvalidJson.error|;
    assert |InternalError.error| != |NotConfigured.error|;
  }

  /** A missing or falsy body (`None`, `{}`, `[]`, `""`, `0`, `false`,
      `null`) is "Invalid JSON", and nothing else is. */
  lemma InvalidJsonExactlyForFalsyBody(body: Body, call: ImagesCall -> Upstream)
    ensures GenerateImage(true, body, call) == InvalidJson
        <==> body.NoJson? || (body.Parsed? && !Truthy(body.value))
  {
    ValidateInvalidJsonExactly(body);
    var v := Validate(body);
    if v.Raise? {
      ClassifyIsNeverAGuardReply(v.message);
    } else if v.Proceed? {
      var e := Extract(call(CallFor(v.value)));
      if e.Raise? {
        ClassifyIsNeverAGuardReply(e.message);
      }
    }
  }

  /** The prompt guard: an absent prompt counts as `''`; a string prompt that
      is empty after `strip()` is "Missing prompt", one longer than 1000
      characters after `strip()` is "Prompt too long"; exactly 1000 passes. */
  lemma PromptGuard(fields: map<string, Value>)
    requires "prompt" in fields ==> fields["prompt"].Str?
    ensures var text := if "prompt" in fields then fields["prompt"].s else "";
            && (CheckPrompt(fields) == Reply(MissingPrompt) <==> AllSpace(text))
            && (CheckPrompt(fields) == Reply(PromptTooLong) <==> |Strip(text)| > MaxPromptLength)
            && (1 <= |Strip(text)| <= MaxPromptLength <==> CheckPrompt(fields) == Proceed(Strip(text)))
  {
    var text := if "prompt" in fields then fields["prompt"].s else "";
    assert Get(fields, "prompt", Str("")) == Str(text);
    assert MissingPrompt != PromptTooLong by {
      assert MissingPrompt.error[0] != PromptTooLong.error[0];
    }
  }

  /** The size guard: an absent size is "1024x1024", and any size outside
      the five valid ones is "Invalid size", whose message names each of the
      five. */
  lemma SizeGuard(fields: map<string, Value>)
    ensures "size" !in fields ==> CheckSize(fields) == Proceed(DefaultSize)
    ensures CheckSize(fields) == Reply(InvalidSize())
        <==> "size" in fields && !(fields["size"].Str? && fields["size"].s in ValidSizes)
    ensures forall k :: 0 <= k < |ValidSizes| ==> Contains(InvalidSize().message, ValidSizes[k])
  {
    assert DefaultSize in ValidSizes;
  }

  /** The guards of a non-empty dict run in order and the first that fails
      gives the reply: the prompt guard, then the size guard. */
  lemma GuardsInOrder(fields: map<string, Value>, call: ImagesCall -> Upstream)
    requires |fields| > 0
    ensures !CheckPrompt(fields).Proceed?
        ==> Validate(Parsed(Object(fields))) == CheckPrompt(fields).Propagate()
    ensures CheckPrompt(fields).Proceed? && !CheckSize(fields).Proceed?
        ==> Validate(Parsed(Object(fields))) == CheckSize(fields).Propagate()
    ensures Validate(Parsed(Object(fields))).Reply?
        ==> GenerateImage(true, Parsed(Object(fields)), call) == Validate(Parsed(Object(fields))).response
  {
    assert Truthy(Object(fields));
  }

  /** The prompt guard reads only the `prompt` field. */
  lemma CheckPromptIgnoresSize(fields: map<string, Value>, size: Value)
    ensures CheckPrompt(fields["size" := size]) == CheckPrompt(fields)
  {
    var g := fields["size" := size];
    assert "prompt" != "size" by {
      assert |"prompt"| != |"size"|;
    }
    assert Get(g, "prompt", Str("")) == Get(fields, "prompt", Str("")) by {
      assert ("prompt" in g) == ("prompt" in fields);
      if "prompt" in fields {
        assert g["prompt"] == fields["prompt"];
      }
    }
  }

  /** First failing check wins: once the prompt guard has failed, the `size`
      field is never looked at. */
  lemma PromptGuardBeforeSizeGuard(fields: map<string, Value>, size: Value)
    requires |fields| > 0 && !CheckPrompt(fields).Proceed?
    ensures Validate(Parsed(Object(fields))) == Validate(Parsed(Object(fields["size" := size])))
  {
    var g := fields["size" := size];
    assert |g| >= |fields|;
    var call := (c: ImagesCall) => Returned(None);
    CheckPromptIgnoresSize(fields, size);
    GuardsInOrder(fields, call);
    GuardsInOrder(g, call);
  }

  /** A guard that fails answers without the upstream service: the reply is
      the same whatever the service would have done. */
  lemma FailedGuardNeverCallsUpstream(configured: bool, body: Body, call1: ImagesCall -> Upstream,
                                      call2: ImagesCall -> Upstream)
    requires !configured || !Validate(body).Proceed?
    ensures GenerateImage(configured, body, call1) == GenerateImage(configured, body, call2)
  {
  }

  /** A request succeeds exactly when a client is configured, validation
      passes and the service returns at least one image; the service is
      asked for one DALL-E 3 image of standard quality with the trimmed
      prompt and the size, and the reply carries the first image's URL and
      echoes that prompt and size. */
  lemma SuccessExactly(configured: bool, body: Body, call: ImagesCall -> Upstream)
    ensures GenerateImage(configured, body, call).Generated?
        <==> configured && Validate(body).Proceed?
             && var u := call(ImagesCall("dall-e-3", Validate(body).value.prompt, 1,
                                         Validate(body).value.size, "standard"));
                u.Returned? && u.data.Some? && |u.data.value| > 0
    ensures GenerateImage(configured, body, call).Generated? ==>
        var request := Validate(body).value;
        var u := call(ImagesCall("dall-e-3", request.prompt, 1, request.size, "standard"));
        GenerateImage(configured, body, call)
          == Generated(u.data.value[0].url, request.prompt, request.size)
  {
    if configured && Validate(body).Proceed? {
      var request := Validate(body).value;
      assert CallFor(request) == ImagesCall("dall-e-3", request.prompt, 1, request.size, "standard");
    }
  }

  /** The prompt and size a success echoes are accepted again as they are:
      sending them back yields the same request. */
  lemma EchoIsAcceptedAsIs(configured: bool, body: Body, call: ImagesCall -> Upstream)
    requires GenerateImage(configured, body, call).Generated?
    ensures var r := GenerateImage(configured, body, call);
            Validate(Parsed(Object(map["prompt" := Str(r.prompt), "size" := Str(r.size)])))
              == Proceed(ImageRequest(r.prompt, r.size))
  {
    var r := GenerateImage(configured, body, call);
    var f := map["prompt" := Str(r.prompt), "size" := Str(r.size)];
    assert "prompt" in f && f["prompt"] == Str(r.prompt);
    assert "size" in f && f["size"] == Str(r.size);
    assert |f| > 0;
    StripTrimmed(r.prompt);
    ValidateAcceptsExactly(Parsed(Object(f)), ImageRequest(r.prompt, r.size));
  }

  /** A prompt that is not a string has no `strip()`: the `AttributeError`
      is caught and classified as an internal error (500), not as a
      validation error (400). */
  lemma NonStringPromptIsInternalError(fields: map<string, Value>, call: ImagesCall -> Upstream)
    requires "prompt" in fields && !fields["prompt"].Str?
    ensures GenerateImage(true, Parsed(Object(fields)), call) == InternalError
  {
    assert Truthy(Object(fields));
    var message := AttributeErrorMessage(fields["prompt"], "strip");
    assert Validate(Parsed(Object(fields))) == Raise(message);
    NoUnderscoreIsInternalError(message);
  }

  /** A truthy body that is not a dict has no `get()`: internal error (500). */
  lemma NonObjectBodyIsInternalError(data: Value, call: ImagesCall -> Upstream)
    requires Truthy(data) && !data.Object?
    ensures GenerateImage(true, Parsed(data), call) == InternalError
  {
    var message := AttributeErrorMessage(data, "get");
    assert Validate(Parsed(data)) == Raise(message);
    NoUnderscoreIsInternalError(message);
  }

  /** An upstream reply without images raises "No image data returned from
      OpenAI API", which names no marker: internal error (500). */
  lemma MissingImageDataIsInternalError(body: Body, call: ImagesCall -> Upstream)
    requires Validate(body).Proceed?
    requires call(CallFor(Validate(body).value)).Returned?
    requires call(CallFor(Validate(body).value)).data.None?
          || call(CallFor(Validate(body).value)).data.value == []
    ensures GenerateImage(true, body, call) == InternalError
  {
    assert Extract(call(CallFor(Validate(body).value))) == Raise(NoImageData);
    NoImageDataIsInternalError();
  }

  /** An exception raised while reading the body is classified by its text,
      once a client is configured. */
  lemma RejectedBodyIsClassified(message: string, call: ImagesCall -> Upstream)
    ensures GenerateImage(true, Rejected(message), call) == Classify(message)
    ensures GenerateImage(false, Rejected(message), call) == NotConfigured
  {
  }

  /** An exception raised by the upstream service is classified by its text. */
  lemma UpstreamErrorIsClassified(body: Body, call: ImagesCall -> Upstream)
    requires Validate(body).Proceed?
    requires call(CallFor(Validate(body).value)).Raised?
    ensures GenerateImage(true, body, call) == Classify(call(CallFor(Validate(body).value)).message)
  {
  }
}
