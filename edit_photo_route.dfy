/**
 * The `POST` and `GET` handlers of app/api/edit-photo/route.ts. The handler is
 * a function of the environment it reads, the parsed request body and the
 * outcome of the single upstream call; it also reports the request it would
 * send upstream, so that "never called" can be stated.
 */
module EditPhotoRoute {
  import opened Common
  import Constants
  import FalClient

  /** The environment variables the handler reads; `NUM_OUTPUT_IMAGES` is taken as already parsed. */
  datatype Config = Config(falApiKey: Option<string>, numOutputImages: int, outputFormat: Option<string>)

  /**
   * The request body. `Unparseable` is text that is not JSON, or JSON `null`:
   * `request.json()` or the destructuring of `null` throws. Everything else is
   * `Json` with the `image` and `prompt` fields as strings or absent; a number,
   * string, boolean or array body has neither field and is `Json(None, None)`.
   */
  datatype Body = Unparseable | Json(image: Option<string>, prompt: Option<string>)

  datatype Image = Image(url: string, width: int, height: int)

  /**
   * What the upstream call yields: a thrown error (network failure or a body
   * that is not JSON), a response whose status is not ok, or a JSON result
   * whose `images` list may be empty or missing (both are `[]` here).
   */
  datatype Upstream =
    | Thrown(message: string)
    | HttpError(status: nat, text: string)
    | Ok(images: seq<Image>, description: Option<string>)

  /** The body of the fetch to fal.run. */
  datatype FalRequest = FalRequest(prompt: string, imageUrls: seq<string>, numImages: int, outputFormat: string, syncMode: bool)

  datatype Payload =
    | Failed(error: string)
    | Edited(editedImage: string, prompt: string, model: string, description: Option<string>,
             width: int, height: int, format: string, cost: real)

  datatype Response = Response(status: nat, payload: Payload)

  /** One handled request: the request sent upstream (`None` when there was no call) and the response. */
  datatype Exchange = Exchange(sent: Option<FalRequest>, response: Response)

  const MissingKeyMessage: string := "Fal.ai API key not configured. Please set FAL_API_KEY environment variable."
  const MissingFieldsMessage: string := "Missing image or prompt in request"
  const InvalidImageMessage: string := "Invalid image format. Please provide a valid base64 data URI for JPEG, PNG, or WebP image."
  const NoImagesMessage: string := "No images returned from Fal.ai API"
  const InternalErrorMessage: string := "Internal server error. Please try again."

  const Preamble: string := "Edit this real estate photo: "
  const Postamble: string := ". Maintain photorealistic quality, proper lighting, and professional real estate photography standards. Keep the original architecture and layout intact while making the requested improvements."

  /** The instruction sent upstream: the user's prompt wrapped in the fixed preamble and postamble. */
  function Compose(prompt: string): (r: string)
    ensures IsPrefix(Preamble, r) && IsSuffix(Postamble, r)
    ensures |r| == |Preamble| + |prompt| + |Postamble|
    ensures r[|Preamble|..|r| - |Postamble|] == prompt
  {
    var r := Preamble + prompt + Postamble;
    assert r[..|Preamble|] == Preamble;
    assert r[|r| - |Postamble|..] == Postamble;
    assert r[|Preamble|..|r| - |Postamble|] == prompt;
    r
  }

  /** `(process.env.OUTPUT_FORMAT as 'jpeg' | 'png') || 'jpeg'`: the cast checks nothing. */
  function OutputFormat(config: Config): string {
    if Truthy(config.outputFormat) then config.outputFormat.value else Constants.DefaultOutputFormat
  }

  function Fail(status: nat, message: string): Response {
    Response(status, Failed(message))
  }

  /** The upstream part, inside the inner `try`: every error it throws becomes a 500 carrying the error's message. */
  function CallUpstream(config: Config, image: string, prompt: string, upstream: Upstream): Exchange {
    if !FalClient.IsValidBase64DataUri(image) then
      Exchange(None, Fail(500, InvalidImageMessage))
    else
      var enhanced := Compose(prompt);
      var request := FalRequest(enhanced, [image], config.numOutputImages, OutputFormat(config), true);
      var response :=
        match upstream
        case Thrown(message) => Fail(500, message)
        case HttpError(status, text) => Fail(500, "Fal.ai API error: " + NatToString(status) + " - " + text)
        case Ok(images, description) =>
          if |images| == 0 then Fail(500, NoImagesMessage)
          else Response(200, Edited(images[0].url, enhanced, Constants.ModelName, description,
                                    images[0].width, images[0].height, request.outputFormat, Constants.CostPerImage));
      Exchange(Some(request), response)
  }

  /** `POST`: the checks run in source order, and the first that fails decides the response. */
  function Post(config: Config, body: Body, upstream: Upstream): (x: Exchange)
    ensures x.response.status in {200, 400, 500}
    ensures x.response.status == 200 <==> x.response.payload.Edited?
    ensures x.sent.Some? ==> body.Json? && Truthy(body.image) && x.sent.value.imageUrls == [body.image.value]
  {
    if !FalClient.ValidateApiKey(config.falApiKey) then
      Exchange(None, Fail(500, MissingKeyMessage))
    else if body.Unparseable? then
      Exchange(None, Fail(500, InternalErrorMessage))
    else if !Truthy(body.image) || !Truthy(body.prompt) then
      Exchange(None, Fail(400, MissingFieldsMessage))
    else
      CallUpstream(config, body.image.value, body.prompt.value, upstream)
  }

  /** Without an API key the answer is a 500, whatever the body and the upstream would have been. */
  lemma NoKeyFirst(config: Config, body: Body, body': Body, upstream: Upstream, upstream': Upstream)
    requires !FalClient.ValidateApiKey(config.falApiKey)
    ensures Post(config, body, upstream) == Post(config, body', upstream')
    ensures Post(config, body, upstream) == Exchange(None, Fail(500, MissingKeyMessage))
  {
  }

  /** With a key, a body that is not a JSON object gives the generic 500 and no upstream call. */
  lemma UnparseableBody(config: Config, upstream: Upstream)
    requires FalClient.ValidateApiKey(config.falApiKey)
    ensures Post(config, Unparseable, upstream) == Exchange(None, Fail(500, InternalErrorMessage))
  {
  }

  /** With a key, an absent or empty image or prompt gives a 400 and no upstream call. */
  lemma MissingFields(config: Config, image: Option<string>, prompt: Option<string>, upstream: Upstream)
    requires FalClient.ValidateApiKey(config.falApiKey)
    requires !Truthy(image) || !Truthy(prompt)
    ensures Post(config, Json(image, prompt), upstream) == Exchange(None, Fail(400, MissingFieldsMessage))
  {
  }

  /** A status 400 happens exactly for a missing field. */
  lemma BadRequestIff(config: Config, body: Body, upstream: Upstream)
    ensures Post(config, body, upstream).response.status == 400 <==>
      FalClient.ValidateApiKey(config.falApiKey) && body.Json? && (!Truthy(body.image) || !Truthy(body.prompt))
  {
  }

  /** An image that is not a JPEG, PNG or WebP data URI is a 500 (not a 400), and the upstream is never called. */
  lemma InvalidImage(config: Config, image: string, prompt: string, upstream: Upstream)
    requires FalClient.ValidateApiKey(config.falApiKey)
    requires image != "" && prompt != ""
    requires !FalClient.IsValidBase64DataUri(image)
    ensures Post(config, Json(Some(image), Some(prompt)), upstream) == Exchange(None, Fail(500, InvalidImageMessage))
  {
  }

  /** The upstream is called exactly when every check before it passes, and then with the composed prompt. */
  lemma CalledIff(config: Config, body: Body, upstream: Upstream)
    ensures Post(config, body, upstream).sent.Some? <==>
      FalClient.ValidateApiKey(config.falApiKey) && body.Json? && Truthy(body.image) && Truthy(body.prompt)
      && FalClient.IsValidBase64DataUri(body.image.value)
    ensures Post(config, body, upstream).sent.Some? ==>
      Post(config, body, upstream).sent.value == FalRequest(Compose(body.prompt.value), [body.image.value],
        config.numOutputImages, OutputFormat(config), true)
  {
  }

  /** A failing upstream, or one that returns no images, gives a 500 with the error's message. */
  lemma UpstreamFailures(config: Config, image: string, prompt: string, upstream: Upstream)
    requires FalClient.ValidateApiKey(config.falApiKey) && image != "" && prompt != ""
    requires FalClient.IsValidBase64DataUri(image)
    ensures upstream.HttpError? ==>
      Post(config, Json(Some(image), Some(prompt)), upstream).response
        == Fail(500, "Fal.ai API error: " + NatToString(upstream.status) + " - " + upstream.text)
    ensures upstream.Ok? && |upstream.images| == 0 ==>
      Post(config, Json(Some(image), Some(prompt)), upstream).response == Fail(500, NoImagesMessage)
    ensures upstream.Thrown? ==>
      Post(config, Json(Some(image), Some(prompt)), upstream).response == Fail(500, upstream.message)
  {
  }

  /**
   * A 200 happens exactly when every check passes and the upstream returns at
   * least one image; the response then carries the first image, the composed
   * prompt, the model name and the cost per image.
   */
  lemma SuccessIff(config: Config, body: Body, upstream: Upstream)
    ensures Post(config, body, upstream).response.status == 200 <==>
      Post(config, body, upstream).sent.Some? && upstream.Ok? && |upstream.images| > 0
    ensures Post(config, body, upstream).response.status == 200 ==>
      Post(config, body, upstream).response.payload == Edited(upstream.images[0].url, Compose(body.prompt.value),
        Constants.ModelName, upstream.description, upstream.images[0].width, upstream.images[0].height,
        OutputFormat(config), Constants.CostPerImage)
  {
  }

  /** The body of the `GET` health check; the timestamp is left out. */
  datatype Health = Health(status: string, provider: string, model: string, apiKeyConfigured: bool, costPerImage: real)

  function Get(config: Config): (h: Health)
    ensures h.apiKeyConfigured <==> Truthy(config.falApiKey)
    ensures h.model == Constants.ModelName && h.costPerImage == Constants.CostPerImage
  {
    Health("ok", "fal.ai", Constants.ModelName, FalClient.ValidateApiKey(config.falApiKey), Constants.CostPerImage)
  }

  /** The health check reports a configured key exactly when `POST` gets past its first check. */
  lemma HealthAgreesWithPost(config: Config, body: Body, upstream: Upstream)
    ensures !Get(config).apiKeyConfigured <==> Post(config, body, upstream) == Exchange(None, Fail(500, MissingKeyMessage))
  {
  }
}
