/** `SpeechToTextBuilder`: a record of optional parameters, one setter per
    parameter, and `execute`, which freezes the record into a request,
    substituting the default model when none was chosen. */
module Builder {
  import opened Common
  import opened Types
  import opened Errors
  import opened Client

  /** `models::elevanlabs_models::SCRIBE_V1`, the model used when none is set. */
  const ScribeV1 := "scribe_v1"

  datatype SpeechToTextBuilder = SpeechToTextBuilder(
    client: ElevenLabsSTTClient,
    file: Option<Bytes>,
    modelId: Option<string>,
    languageCode: Option<string>,
    tagAudioEvents: Option<bool>,
    numSpeakers: Option<u32>,
    timestampsGranularity: Option<string>,
    diarize: Option<bool>,
    diarizationThreshold: Option<F32>,
    cloudStorageUrl: Option<string>,
    webhook: Option<bool>,
    webhookId: Option<string>,
    temperature: Option<F32>,
    seed: Option<u32>,
    webhookMetadata: Option<string>,
    useMultiChannel: Option<bool>)

  /** The builder read parameter by parameter. */
  function Get(b: SpeechToTextBuilder, f: Field): Option<Value> {
    match f
    case ModelId => TextValue(b.modelId)
    case LanguageCode => TextValue(b.languageCode)
    case TagAudioEvents => FlagValue(b.tagAudioEvents)
    case NumSpeakers => CountValue(b.numSpeakers)
    case TimestampsGranularity => TextValue(b.timestampsGranularity)
    case Diarize => FlagValue(b.diarize)
    case DiarizationThreshold => RealValue(b.diarizationThreshold)
    case CloudStorageUrl => TextValue(b.cloudStorageUrl)
    case Webhook => FlagValue(b.webhook)
    case WebhookId => TextValue(b.webhookId)
    case Temperature => RealValue(b.temperature)
    case Seed => CountValue(b.seed)
    case UseMultiChannel => FlagValue(b.useMultiChannel)
    case WebhookMetadata => TextValue(b.webhookMetadata)
  }

  /** Two builders that agree on the client, the file and every parameter are the same builder. */
  lemma Extensionality(a: SpeechToTextBuilder, b: SpeechToTextBuilder)
    requires a.client == b.client && a.file == b.file
    requires forall f :: Get(a, f) == Get(b, f)
    ensures a == b
  {
    AgreeOn(a, b, ModelId);
    AgreeOn(a, b, LanguageCode);
    AgreeOn(a, b, TagAudioEvents);
    AgreeOn(a, b, NumSpeakers);
    AgreeOn(a, b, TimestampsGranularity);
    AgreeOn(a, b, Diarize);
    AgreeOn(a, b, DiarizationThreshold);
    AgreeOn(a, b, CloudStorageUrl);
    AgreeOn(a, b, Webhook);
    AgreeOn(a, b, WebhookId);
    AgreeOn(a, b, Temperature);
    AgreeOn(a, b, Seed);
    AgreeOn(a, b, UseMultiChannel);
    AgreeOn(a, b, WebhookMetadata);
  }

  /** The field behind one parameter, compared across two builders. */
  predicate SameField(a: SpeechToTextBuilder, b: SpeechToTextBuilder, f: Field) {
    match f
    case ModelId => a.modelId == b.modelId
    case LanguageCode => a.languageCode == b.languageCode
    case TagAudioEvents => a.tagAudioEvents == b.tagAudioEvents
    case NumSpeakers => a.numSpeakers == b.numSpeakers
    case TimestampsGranularity => a.timestampsGranularity == b.timestampsGranularity
    case Diarize => a.diarize == b.diarize
    case DiarizationThreshold => a.diarizationThreshold == b.diarizationThreshold
    case CloudStorageUrl => a.cloudStorageUrl == b.cloudStorageUrl
    case Webhook => a.webhook == b.webhook
    case WebhookId => a.webhookId == b.webhookId
    case Temperature => a.temperature == b.temperature
    case Seed => a.seed == b.seed
    case UseMultiChannel => a.useMultiChannel == b.useMultiChannel
    case WebhookMetadata => a.webhookMetadata == b.webhookMetadata
  }

  /** Reading a parameter loses nothing: equal readings mean equal fields. */
  lemma AgreeOn(a: SpeechToTextBuilder, b: SpeechToTextBuilder, f: Field)
    requires Get(a, f) == Get(b, f)
    ensures SameField(a, b, f)
  {
  }

  /** `r` is `b` with parameter `f` set to `v` and nothing else changed. */
  predicate SetsOnly(b: SpeechToTextBuilder, r: SpeechToTextBuilder, f: Field, v: Value) {
    && r.client == b.client && r.file == b.file
    && Get(r, f) == Some(v)
    && forall g :: g != f ==> Get(r, g) == Get(b, g)
  }

  /** `SpeechToTextBuilder::new`: the file as given, no parameter set. */
  function NewBuilder(client: ElevenLabsSTTClient, file: Option<Bytes>): (b: SpeechToTextBuilder)
    ensures b.client == client && b.file == file
    ensures forall f :: Get(b, f).None?
  {
    SpeechToTextBuilder(client, file, None, None, None, None, None, None, None, None, None, None, None, None, None, None)
  }

  /** `ElevenLabsSTTClient::speech_to_text`: a fresh builder on a copy of the client. */
  function SpeechToText(client: ElevenLabsSTTClient, file: Option<Bytes>): (b: SpeechToTextBuilder)
    ensures b.client == client && b.file == file
    ensures forall f :: Get(b, f).None?
  {
    NewBuilder(client, file)
  }

  // ----- the setters -----

  function Model(b: SpeechToTextBuilder, modelId: string): (r: SpeechToTextBuilder)
    ensures SetsOnly(b, r, ModelId, Text(modelId))
  {
    b.(modelId := Some(modelId))
  }

  function LanguageCodeSet(b: SpeechToTextBuilder, languageCode: string): (r: SpeechToTextBuilder)
    ensures SetsOnly(b, r, LanguageCode, Text(languageCode))
  {
    b.(languageCode := Some(languageCode))
  }

  function TagAudioEventsSet(b: SpeechToTextBuilder, tagAudioEvents: bool): (r: SpeechToTextBuilder)
    ensures SetsOnly(b, r, TagAudioEvents, Flag(tagAudioEvents))
  {
    b.(tagAudioEvents := Some(tagAudioEvents))
  }

  function NumSpeakersSet(b: SpeechToTextBuilder, numSpeakers: u32): (r: SpeechToTextBuilder)
    ensures SetsOnly(b, r, NumSpeakers, Count(numSpeakers))
  {
    b.(numSpeakers := Some(numSpeakers))
  }

  function TimestampsGranularitySet(b: SpeechToTextBuilder, granularity: string): (r: SpeechToTextBuilder)
    ensures SetsOnly(b, r, TimestampsGranularity, Text(granularity))
  {
    b.(timestampsGranularity := Some(granularity))
  }

  function DiarizeSet(b: SpeechToTextBuilder, diarize: bool): (r: SpeechToTextBuilder)
    ensures SetsOnly(b, r, Diarize, Flag(diarize))
  {
    b.(diarize := Some(diarize))
  }

  function DiarizationThresholdSet(b: SpeechToTextBuilder, threshold: F32): (r: SpeechToTextBuilder)
    ensures SetsOnly(b, r, DiarizationThreshold, Real(threshold))
  {
    b.(diarizationThreshold := Some(threshold))
  }

  function CloudStorageUrlSet(b: SpeechToTextBuilder, url: string): (r: SpeechToTextBuilder)
    ensures SetsOnly(b, r, CloudStorageUrl, Text(url))
  {
    b.(cloudStorageUrl := Some(url))
  }

  function WebhookSet(b: SpeechToTextBuilder, webhook: bool): (r: SpeechToTextBuilder)
    ensures SetsOnly(b, r, Webhook, Flag(webhook))
  {
    b.(webhook := Some(webhook))
  }

  function WebhookIdSet(b: SpeechToTextBuilder, webhookId: string): (r: SpeechToTextBuilder)
    ensures SetsOnly(b, r, WebhookId, Text(webhookId))
  {
    b.(webhookId := Some(webhookId))
  }

  function TemperatureSet(b: SpeechToTextBuilder, temperature: F32): (r: SpeechToTextBuilder)
    ensures SetsOnly(b, r, Temperature, Real(temperature))
  {
    b.(temperature := Some(temperature))
  }

  function SeedSet(b: SpeechToTextBuilder, seed: u32): (r: SpeechToTextBuilder)
    ensures SetsOnly(b, r, Seed, Count(seed))
  {
    b.(seed := Some(seed))
  }

  function UseMultiChannelSet(b: SpeechToTextBuilder, useMultiChannel: bool): (r: SpeechToTextBuilder)
    ensures SetsOnly(b, r, UseMultiChannel, Flag(useMultiChannel))
  {
    b.(useMultiChannel := Some(useMultiChannel))
  }

  function WebhookMetadataSet(b: SpeechToTextBuilder, metadata: string): (r: SpeechToTextBuilder)
    ensures SetsOnly(b, r, WebhookMetadata, Text(metadata))
  {
    b.(webhookMetadata := Some(metadata))
  }

  // ----- setter calls as data, for chains of them -----

  /** The Rust type of each parameter, as the setter's argument type. */
  predicate Fits(f: Field, v: Value) {
    match f
    case ModelId | LanguageCode | TimestampsGranularity | CloudStorageUrl | WebhookId | WebhookMetadata => v.Text?
    case TagAudioEvents | Diarize | Webhook | UseMultiChannel => v.Flag?
    case NumSpeakers | Seed => v.Count?
    case DiarizationThreshold | Temperature => v.Real?
  }

  /** The setter for `f`, called with `v`. */
  function Set(b: SpeechToTextBuilder, f: Field, v: Value): (r: SpeechToTextBuilder)
    requires Fits(f, v)
    ensures SetsOnly(b, r, f, v)
  {
    match f
    case ModelId => Model(b, v.s)
    case LanguageCode => LanguageCodeSet(b, v.s)
    case TagAudioEvents => TagAudioEventsSet(b, v.b)
    case NumSpeakers => NumSpeakersSet(b, v.n)
    case TimestampsGranularity => TimestampsGranularitySet(b, v.s)
    case Diarize => DiarizeSet(b, v.b)
    case DiarizationThreshold => DiarizationThresholdSet(b, v.x)
    case CloudStorageUrl => CloudStorageUrlSet(b, v.s)
    case Webhook => WebhookSet(b, v.b)
    case WebhookId => WebhookIdSet(b, v.s)
    case Temperature => TemperatureSet(b, v.x)
    case Seed => SeedSet(b, v.n)
    case UseMultiChannel => UseMultiChannelSet(b, v.b)
    case WebhookMetadata => WebhookMetadataSet(b, v.s)
  }

  /** Setting a parameter twice keeps only the second value. */
  lemma SetTwice(b: SpeechToTextBuilder, f: Field, v: Value, w: Value)
    requires Fits(f, v) && Fits(f, w)
    ensures Set(Set(b, f, v), f, w) == Set(b, f, w)
  {
    Extensionality(Set(Set(b, f, v), f, w), Set(b, f, w));
  }

  /** Setters of different parameters can be called in either order. */
  lemma SetCommutes(b: SpeechToTextBuilder, f: Field, v: Value, g: Field, w: Value)
    requires Fits(f, v) && Fits(g, w) && f != g
    ensures Set(Set(b, f, v), g, w) == Set(Set(b, g, w), f, v)
  {
    Extensionality(Set(Set(b, f, v), g, w), Set(Set(b, g, w), f, v));
  }

  predicate AllFit(calls: seq<(Field, Value)>) {
    forall i :: 0 <= i < |calls| ==> Fits(calls[i].0, calls[i].1)
  }

  /** A chain of setter calls, applied left to right. */
  function Chain(b: SpeechToTextBuilder, calls: seq<(Field, Value)>): SpeechToTextBuilder
    requires AllFit(calls)
    decreases |calls|
  {
    if calls == [] then b
    else Chain(Set(b, calls[0].0, calls[0].1), calls[1..])
  }

  /** The value the last call for `f` in the chain passes, if any call does. */
  function LastSet(calls: seq<(Field, Value)>, f: Field): Option<Value> {
    if calls == [] then None
    else if calls[|calls| - 1].0 == f then Some(calls[|calls| - 1].1)
    else LastSet(calls[..|calls| - 1], f)
  }

  lemma {:induction false} ChainSnoc(b: SpeechToTextBuilder, calls: seq<(Field, Value)>, f: Field, v: Value)
    requires AllFit(calls) && Fits(f, v)
    ensures AllFit(calls + [(f, v)])
    ensures Chain(b, calls + [(f, v)]) == Set(Chain(b, calls), f, v)
    decreases |calls|
  {
    if calls != [] {
      assert (calls + [(f, v)])[1..] == calls[1..] + [(f, v)];
      ChainSnoc(Set(b, calls[0].0, calls[0].1), calls[1..], f, v);
    }
  }

  /** Last write wins: after a chain of setter calls each parameter holds the
      value its last setter call passed, or its earlier value when no call
      set it; the client and the file never change. */
  lemma {:induction false} ChainLastWriteWins(b: SpeechToTextBuilder, calls: seq<(Field, Value)>, f: Field)
    requires AllFit(calls)
    ensures Chain(b, calls).client == b.client && Chain(b, calls).file == b.file
    ensures Get(Chain(b, calls), f) == if LastSet(calls, f).Some? then LastSet(calls, f) else Get(b, f)
  {
    if calls != [] {
      var n := |calls|;
      var init := calls[..n - 1];
      assert init + [calls[n - 1]] == calls;
      assert AllFit(init);
      ChainSnoc(b, init, calls[n - 1].0, calls[n - 1].1);
      ChainLastWriteWins(b, init, f);
    }
  }

  // ----- execute -----

  /** The request `execute` builds: everything copied, the model defaulting to `scribe_v1`. */
  function Finalize(b: SpeechToTextBuilder): (r: STTRequest)
    ensures r.file == b.file
    ensures b.modelId.Some? ==> r.modelId == b.modelId.value
    ensures b.modelId.None? ==> r.modelId == ScribeV1
    ensures forall f :: f != ModelId ==> RequestField(r, f) == Get(b, f)
  {
    STTRequest(
      b.file,
      b.modelId.GetOr(ScribeV1),
      b.languageCode,
      b.tagAudioEvents,
      b.numSpeakers,
      b.timestampsGranularity,
      b.diarize,
      b.diarizationThreshold,
      b.cloudStorageUrl,
      b.webhook,
      b.webhookId,
      b.temperature,
      b.seed,
      b.useMultiChannel,
      b.webhookMetadata)
  }

  /** A fresh builder finalises into the request that names the default model
      and carries the file, and its form is `model_id=scribe_v1` followed by
      the file part, if any, and nothing else. */
  lemma FreshBuilderForm(client: ElevenLabsSTTClient, file: Option<Bytes>, render: F32 -> string)
    ensures Finalize(SpeechToText(client, file)) == BareRequest(ScribeV1).(file := file)
    ensures Form(Finalize(SpeechToText(client, file)), render) ==
      [TextPart("model_id", ScribeV1)] +
      (if file.Some? then [FilePart("file", "file", "application/octet-stream", file.value)] else [])
  {
    var request := Finalize(SpeechToText(client, file));
    var fields := RequestFields(request, render);
    assert forall i :: 0 <= i < |fields| ==> fields[i].1.None?;
    TextPartsNone(fields);
  }

  /** `execute`: finalise, then run the request on the builder's client. */
  method Execute(b: SpeechToTextBuilder, render: F32 -> string,
                 reply: Reply, decode: string -> Result<STTResponse, Cause>)
    returns (post: HttpPost, result: Result<STTResponse, ElevenLabsSTTError>)
    ensures post == HttpPost(Endpoint(b.client), [("xi-api-key", b.client.apiKey)], Form(Finalize(b), render))
    ensures result == Respond(reply, decode)
  {
    var request := Finalize(b);
    post, result := ExecuteStt(b.client, request, render, reply, decode);
  }
}
