/**
 * The JSON replies of `POST /api/generate-image` and their HTTP statuses.
 * A reply is either the success record or the failure record
 * `{success: false, error, message}` sent with a status code.
 */
module Responses {
  import opened Wrappers

  datatype Response =
      /** `{success: true, image_url, prompt, size}`, status 200; a missing
          `url` on the returned image becomes JSON `null`. */
    | Generated(imageUrl: Option<string>, prompt: string, size: string)
      /** `{success: false, error, message}` with its status code. */
    | Failed(error: string, message: string, status: int)

  /** The HTTP status the reply is sent with. */
  function Status(r: Response): int
  {
    match r
    case Generated(_, _, _) => 200
    case Failed(_, _, status) => status
  }

  // Replies produced before the upstream service is asked for anything.

  const NotConfigured := Failed("OpenAI API key not configured",
                                "Please set OPENAI_API_KEY environment variable", 500)
  const InvalidJson := Failed("Invalid JSON", "Request must contain valid JSON data", 400)
  const MissingPrompt := Failed("Missing prompt",
                                "Please provide a 'prompt' field with your image description", 400)
  const PromptTooLong := Failed("Prompt too long", "Prompt must be 1000 characters or less", 400)

  // Replies chosen by the error classifier.

  const ContentPolicyViolation := Failed("Content policy violation",
    "The prompt violates OpenAI's content policy. Please try a different description.", 400)
  const RateLimitExceeded := Failed("Rate limit exceeded", "Too many requests. Please try again later.", 429)
  const QuotaExceeded := Failed("Quota exceeded", "OpenAI API quota has been exceeded.", 429)
  const InternalError := Failed("Internal server error",
    "An unexpected error occurred while generating the image.", 500)
}
