# Image generation gateway: a Dafny model of `POST /api/generate-image`

The repository is a small Flask service in front of OpenAI's image API.
Its only logic is the handler `generate_image` in `app.py`. The handler
runs a chain of early-return guards inside one `try` block:

1. an OpenAI client must have been configured at start-up;
2. the JSON body must be truthy;
3. `prompt` (default `''`) is stripped and must be non-empty and at most 1000 characters;
4. `size` (default `"1024x1024"`) must be one of five values.

It then asks DALL-E 3 for one image and replies with the first image's URL,
echoing the prompt and the size. Any exception raised on the way is turned
into a reply by a classifier. The classifier lower-cases the exception text
and looks for `content_policy_violation` (400), then `rate_limit` (429),
then `insufficient_quota` (429). A text with none of them gives 500.

The model is pure, as the handler is: datatypes, functions and lemmas, with
no classes and no loops.

- `wrappers.dfy` (`Wrappers`): `Option`.
- `text.dfy` (`Text`): Python's `str.strip()`, `str.lower()`, substring `in` and `str.join`.
- `json.dfy` (`Json`): the parsed body as a JSON value, Python truthiness, Python type names, `dict.get`, and the text of an `AttributeError`.
- `responses.dfy` (`Responses`): the replies and their statuses.
- `classifier.dfy` (`ErrorClassifier`): the `except` block.
- `image_api.dfy` (`ImageApi`): the guards, the upstream call, the reply extraction, the handler and the health flag.
- `properties.dfy` (`ImageApiProperties`): what the handler promises, over all inputs.

The model has three inputs:

- `configured: bool` says whether `OPENAI_API_KEY` gave a client.
- `body: Body` is what `request.get_json()` produced. It is either nothing
  (`None`), a parsed JSON value, or an exception with its text.
- `call: ImagesCall -> Upstream` stands for the OpenAI service. For the
  parameters it was called with, it gives either a reply whose `data` list
  may be missing or empty, or an exception with its text.

Because the service is a function argument, the lemmas can state that a
failing guard gives the same reply whatever the service would do, and that
the service is asked with the trimmed prompt.

A body that is truthy but not a dict has no `get`, and a `prompt` that is
not a string has no `strip`. Python then raises `AttributeError`, the
handler catches it, and the classifier gives 500 "Internal server error",
not a 400. The model reproduces the exact exception text (`'list' object
has no attribute 'get'`). It proves that such texts classify as 500 because
they contain no underscore and every marker does.

The handler always calls `dall-e-3` with `n=1` and `quality="standard"`,
and the success reply carries `image_url`, `prompt` and `size` only.
`/health` reports `status`, `service` and `openai_configured`.

## Model

| member | source | states |
|---|---|---|
| `ImageApi.GenerateImage` | app.py:62-161 | Every failure reply has status 400, 429 or 500. A success always carries a non-empty prompt of at most 1000 characters with no whitespace at either end, and a size from the five valid ones. |
| `ImageApiProperties.NotConfiguredExactlyWhenHealthSaysSo` | app.py:64-69 | For every body and every upstream behaviour, the reply is the 500 "OpenAI API key not configured" exactly when no client is configured, which is exactly when `/health` reports `openai_configured: false`. |
| `ImageApi.HealthCheck` | app.py:163-170 | `/health` reports status "healthy", and `openai_configured` is the client-configured flag. |
| `ImageApiProperties.InvalidJsonExactlyForFalsyBody` | app.py:74-79 | With a client configured, the reply is 400 "Invalid JSON" exactly when the body is absent or falsy (`null`, `false`, `0`, `""`, `[]`, `{}`). No later check can produce it. |
| `Json.FalsyExactly` | app.py:74 | Python truthiness, as `if not data` uses it: a JSON value is falsy exactly when it is `null`, `false`, `0`, `0.0`, `""`, `[]` or `{}`. |
| `Json.Get` | app.py:82 | `dict.get(key, default)` gives the key's value when the key is present and the default otherwise. |
| `ImageApiProperties.ValidateInvalidJsonExactly` | app.py:72-79 | Validation answers "Invalid JSON" exactly when `get_json()` gives nothing or a falsy value; no later guard and no exception produces that reply. |
| `ImageApiProperties.ClassifyIsNeverAGuardReply` | app.py:134-161 | No exception text is ever classified as "Invalid JSON" or as the missing-configuration reply. |
| `ImageApi.CheckPrompt` | app.py:82-95 | The prompt guard on a dict raises exactly when a `prompt` field is present and is not a string (it has no `strip`). An absent prompt is "Missing prompt". |
| `ImageApi.StripPrompt` | app.py:82-95 | The prompt guard on the value of the `prompt` field raises exactly when the value is not a string, and then with a text that has no underscore. It replies only "Missing prompt" or "Prompt too long". When it passes, the prompt is non-empty, at most 1000 characters and trimmed. |
| `ImageApiProperties.CheckPromptExactly` | app.py:82-95 | The prompt guard passes with prompt `p` exactly when `p` is the stripped `prompt` field (or `''` when absent) and `1 <= len(p) <= 1000`. |
| `ImageApiProperties.PromptGuard` | app.py:82-95 | For a string or absent prompt: "Missing prompt" exactly when the text is all whitespace; "Prompt too long" exactly when the stripped text exceeds 1000 characters; the guard passes with the stripped text exactly when its length is between 1 and 1000, so exactly 1000 passes. |
| `ImageApi.CheckSize` | app.py:98-105 | The size guard never raises. When it passes, the size is one of the five valid sizes. When it fails, the reply is "Invalid size". |
| `ImageApiProperties.CheckSizeExactly` | app.py:98-105 | The size guard passes with size `s` exactly when the `size` field is the string `s` (or `s` is `"1024x1024"` and the field is absent) and `s` is one of the five. |
| `ImageApiProperties.SizeGuard` | app.py:98-105 | An absent size passes as "1024x1024". The reply is "Invalid size" exactly when a size is given that is not one of the five valid strings. The reply's message contains each of the five sizes. |
| `ImageApi.InvalidSize` | app.py:99-105 | The "Invalid size" reply has status 400. Its message is exactly "Size must be one of: 256x256, 512x512, 1024x1024, 1792x1024, 1024x1792", and it contains every valid size. |
| `ImageApi.ValidSizesJoined` | app.py:100-104 | `", ".join(valid_sizes)` is the five sizes in their listed order, separated by ", ". |
| `Text.JoinContainsEach` | app.py:104 | Every element of a list occurs in the list joined with any separator (`", ".join`). |
| `Text.Join` | app.py:104 | `sep.join(xs)` of no elements is empty, and otherwise starts with the first element. |
| `ImageApi.ValidateValue` | app.py:74-105 | Validation of a parsed body replies only with 400s. It passes only with an acceptable, trimmed request. Its exceptions (no `get`, no `strip`) have texts without an underscore. |
| `ImageApi.Validate` | app.py:72-105 | As `ValidateValue`, for any outcome of `get_json()`. A missing body is "Invalid JSON". An exception raised while reading the body is raised again with its text unchanged. |
| `ImageApiProperties.ValidateAcceptsExactly` | app.py:72-105 | Validation lets a body through with request `r` exactly when `Accepts`, an independent statement, holds. `Accepts` says the body is a non-empty dict, its string `prompt` strips to `r.prompt`, its `size` is `r.size` (or absent and `r.size` is the default), and `r` passes the length and size checks. |
| `ImageApiProperties.ValidateDictProceeds` | app.py:82-105 | A non-empty dict passes validation with request `r` exactly when the prompt guard passes with `r`'s prompt and the size guard passes with `r`'s size. |
| `ImageApiProperties.GuardsInOrder` | app.py:74-105 | For a non-empty dict, a failing prompt guard gives the reply or exception whatever the size guard would say. The size guard answers only once the prompt guard has passed. A validation reply is the handler's reply. |
| `ImageApiProperties.CheckPromptIgnoresSize` | app.py:82 | The prompt guard reads only the `prompt` field: setting `size` to anything does not change it. |
| `ImageApiProperties.PromptGuardBeforeSizeGuard` | app.py:82-105 | Once the prompt guard fails, changing or adding the `size` field does not change the outcome. |
| `ImageApiProperties.FailedGuardNeverCallsUpstream` | app.py:62-118 | When no client is configured or validation does not pass, the reply is the same for every upstream behaviour. |
| `ImageApi.CallFor` | app.py:112-118 | The upstream call asks for model "dall-e-3", one image, quality "standard", with the validated (trimmed) prompt and size. |
| `ImageApi.Extract` | app.py:120-123 | The first image's URL is taken exactly when the reply has a non-empty `data` list. A missing or empty list raises "No image data returned from OpenAI API". An upstream exception is passed on with its text. |
| `ImageApiProperties.SuccessExactly` | app.py:112-132 | The handler succeeds exactly when a client is configured, validation passes and the service, asked for one standard DALL-E 3 image with the trimmed prompt and size, returns at least one image. The reply is then that image's URL (null if absent), the trimmed prompt and the size. |
| `ImageApiProperties.EchoIsAcceptedAsIs` | app.py:82-132 | The prompt and size echoed by a success validate again to exactly the same request. |
| `ImageApiProperties.NonStringPromptIsInternalError` | app.py:82 | A `prompt` that is not a string (number, bool, null, list, dict) gives 500 "Internal server error", through the caught `AttributeError`, not a 400. |
| `ImageApiProperties.NonObjectBodyIsInternalError` | app.py:82 | A truthy body that is not a dict gives 500 "Internal server error", through the caught `AttributeError` on `get`. |
| `Json.AttributeErrorMessage` | app.py:82 | The text of Python's `AttributeError` for a JSON value's type contains no underscore when the attribute name has none. |
| `Json.TypeName` | app.py:82 | `type(v).__name__` of a decoded JSON value is one of `NoneType`, `bool`, `int`, `float`, `str`, `list`, `dict`, and contains no underscore. |
| `ImageApi.NoImageDataIsInternalError` | app.py:123 | The text "No image data returned from OpenAI API" classifies as 500 "Internal server error". |
| `ImageApiProperties.MissingImageDataIsInternalError` | app.py:120-161 | After validation passes, an upstream reply with a missing or empty `data` list gives 500 "Internal server error". |
| `ImageApiProperties.UpstreamErrorIsClassified` | app.py:112-161 | After validation passes, an exception from the upstream call gives the classifier's reply for its text. |
| `ImageApiProperties.RejectedBodyIsClassified` | app.py:62-161 | A body that `get_json()` refuses gives the classifier's reply for the exception text when a client is configured, and the configuration error when none is. |
| `ErrorClassifier.Classify` | app.py:134-161 | The classifier always gives a failure, one of the four classified replies, with status 400, 429 or 500. |
| `ErrorClassifier.ClassifyFirstMatchWins` | app.py:138-161 | Each of the four replies is chosen exactly when its marker occurs at some position of the lowered text and no earlier marker does. |
| `ErrorClassifier.ClassifyStatus` | app.py:138-161 | Status 400 exactly when the content-policy marker is present. Status 429 exactly when it is absent and the rate-limit or quota marker is present. Status 500 exactly when none is present. |
| `ErrorClassifier.ContentPolicyOutranksEverything` | app.py:138-149 | Any text containing the content-policy marker in any mix of case (e.g. `CONTENT_POLICY_VIOLATION`), with anything before or after it (a `rate_limit` included), is a content-policy violation. |
| `ErrorClassifier.RateLimitOutranksQuota` | app.py:144-155 | A text with both the rate-limit and the quota marker (and no content-policy marker) is "Rate limit exceeded", 429. |
| `ErrorClassifier.ClassifyIgnoresCase` | app.py:138-150 | Two texts that differ only in the case of ASCII letters are classified alike. |
| `ErrorClassifier.ClassifyLowered` | app.py:138-150 | Classifying the lower-cased text gives the same reply as classifying the text. |
| `ErrorClassifier.NoUnderscoreIsInternalError` | app.py:138-161 | A text without an underscore is an internal server error, since every marker contains one. |
| `Text.ContainsIff` | app.py:138 | The scan for Python's `marker in text` is true exactly when the marker occurs at some index of the text. |
| `Text.Contains` | app.py:138 | Python's `marker in text`: the empty marker is always found, and a marker that is found is no longer than the text. |
| `Text.Strip` | app.py:82 | `strip()` gives a string no longer than its input with no whitespace at either end. It is empty exactly when the input is all whitespace. |
| `Text.StripCharacterization` | app.py:82 | When the input is whitespace, then `s[i..j]`, then whitespace, and `s[i..j]` has no whitespace at either end, `strip()` gives exactly `s[i..j]`. |
| `Text.StripIdempotent` | app.py:82 | Stripping twice is the same as stripping once. |
| `Text.LowerAscii` | app.py:138 | Lower-casing keeps the length, and each character is the lower-case form of the character at the same index. |

## Left out

- Flask routing, `jsonify`, `render_template` (the `/` page) and the fixed 404 and 405 handlers (app.py:39-42, 172-186): these are framework plumbing with no logic.
- `request.get_json()` itself: the body comes in already parsed, as the `Body` input. When Flask refuses a body (malformed JSON, wrong content type), the exception text is an input; what Flask's text says is not modelled.
- The OpenAI SDK call (app.py:112-118): the service is the function argument `call`. The model does not say what the service does. The SDK's reply object is always truthy, so the `response and …` test reduces to the `data` test.
- Environment reading, proxy selection and the `httpx.Client` (app.py:14-37): these reduce to the flag `configured`. The model does not relate it to `OPENAI_API_KEY` being set and non-empty.
- Logging (app.py:8, 107, 125, 135), including the `prompt[:100]` in the log line: it has no effect on the reply.
- Text.LowerAscii: lower-cases ASCII letters only, where Python's `str.lower()` lower-cases all of Unicode. The only non-ASCII characters whose lower case contains an ASCII letter are U+212A (to `k`) and U+0130 (to `i` plus a combining dot). No marker contains `k`, and no marker ends in `i`, so the classification should be the same. This argument is not proved in the model.
- Text.IsSpace: this is the whitespace set of Python 3's `str.isspace()` (U+0009–U+000D, U+001C–U+001F, U+0020, U+0085, U+00A0, U+1680, U+2000–U+200A, U+2028, U+2029, U+202F, U+205F, U+3000). It is written out by hand, not taken from a Unicode database.
- Prompt length: a Dafny `char` is a Unicode scalar value and `len()` counts code points, so the two lengths agree. Lone surrogates, which Python's `json` module can produce from `\ud800`, cannot be represented.
- JSON numbers: an integer is an `int` and a fraction is a `real`. Python's `NaN` and `Infinity` extensions are not modelled. Both are truthy, and as a `prompt` or `size` they behave like any other number.
- ImageApi.Validate: its own contract gives only the status (400) of a validation reply on a parsed body. The exact reply for each guard is given by `PromptGuard`, `SizeGuard`, `InvalidJsonExactlyForFalsyBody` and `GuardsInOrder`.
