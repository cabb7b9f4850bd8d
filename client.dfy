/** The client: its configuration, the multipart form it builds from a request,
    and how it turns the server's reply into a response or an error. The HTTP
    exchange itself is not modelled: the request that would be sent is
    returned as a value, and what came back is passed in as a `Reply`. */
module Client {
  import opened Common
  import opened Types
  import opened Errors

  const DefaultBaseUrl := "https://api.elevenlabs.io/v1"

  /** The shared `reqwest::Client` it also holds is not modelled. */
  datatype ElevenLabsSTTClient = ElevenLabsSTTClient(apiKey: string, baseUrl: string)

  /** `ElevenLabsSTTClient::new`: the production endpoint. */
  function New(apiKey: string): (c: ElevenLabsSTTClient)
    ensures c.apiKey == apiKey && c.baseUrl == DefaultBaseUrl
  {
    ElevenLabsSTTClient(apiKey, DefaultBaseUrl)
  }

  /** `ElevenLabsSTTClient::with_base_url`: any endpoint, for testing or enterprise use. */
  function WithBaseUrl(apiKey: string, baseUrl: string): (c: ElevenLabsSTTClient)
    ensures c.apiKey == apiKey && c.baseUrl == baseUrl
  {
    ElevenLabsSTTClient(apiKey, baseUrl)
  }

  /** The URL a transcription is posted to. */
  function Endpoint(c: ElevenLabsSTTClient): string {
    c.baseUrl + "/speech-to-text"
  }

  /** The default client posts to the production transcription URL; a custom
      base URL is used as given; the API key never affects the URL. */
  lemma Endpoints(apiKey: string, otherKey: string, baseUrl: string)
    ensures Endpoint(New(apiKey)) == "https://api.elevenlabs.io/v1/speech-to-text"
    ensures Endpoint(WithBaseUrl(apiKey, baseUrl)) == baseUrl + "/speech-to-text"
    ensures Endpoint(WithBaseUrl(apiKey, baseUrl)) == Endpoint(WithBaseUrl(otherKey, baseUrl))
  {
  }

  // ===================== the multipart form =====================

  datatype Part =
    | TextPart(name: string, text: string)
    | FilePart(name: string, fileName: string, mime: string, bytes: Bytes)

  /** The form key of each scalar parameter. */
  function FieldKey(f: Field): string {
    match f
    case ModelId => "model_id"
    case LanguageCode => "language_code"
    case TagAudioEvents => "tag_audio_events"
    case NumSpeakers => "num_speakers"
    case TimestampsGranularity => "timestamps_granularity"
    case Diarize => "diarize"
    case DiarizationThreshold => "diarization_threshold"
    case CloudStorageUrl => "cloud_storage_url"
    case Webhook => "webhook"
    case WebhookId => "webhook_id"
    case Temperature => "temperature"
    case Seed => "seed"
    case UseMultiChannel => "use_multi_channel"
    case WebhookMetadata => "webhook_metadata"
  }

  /** The position of a key in the form's fixed order; 15 for a key the form never uses. */
  function KeyRank(key: string): nat {
    if key == "model_id" then 0
    else if key == "file" then 1
    else if key == "language_code" then 2
    else if key == "tag_audio_events" then 3
    else if key == "num_speakers" then 4
    else if key == "timestamps_granularity" then 5
    else if key == "diarize" then 6
    else if key == "diarization_threshold" then 7
    else if key == "cloud_storage_url" then 8
    else if key == "webhook" then 9
    else if key == "webhook_id" then 10
    else if key == "temperature" then 11
    else if key == "seed" then 12
    else if key == "use_multi_channel" then 13
    else if key == "webhook_metadata" then 14
    else 15
  }

  /** The text a present parameter is sent as: strings unchanged, booleans as
      `true`/`false`, integers in decimal, floats by `render` (Rust's `f32`
      formatting, which is not modelled). */
  function RenderValue(v: Value, render: F32 -> string): (s: string)
    ensures v.Text? ==> s == v.s
    ensures v.Flag? ==> (s == "true" <==> v.b) && (s == "false" <==> !v.b)
    ensures v.Count? ==> && ParseDecimal(s) == Some(v.n as nat)
                         && (forall i :: 0 <= i < |s| ==> IsDigit(s[i]))
                         && (|s| > 1 ==> s[0] != '0')
    ensures v.Real? ==> s == render(v.x)
  {
    match v
    case Text(t) => t
    case Flag(b) => BoolText(b)
    case Count(n) => DecimalRoundTrip(n as nat); Decimal(n as nat)
    case Real(x) => render(x)
  }

  function Rendered(o: Option<Value>, render: F32 -> string): Option<string> {
    match o
    case None => None
    case Some(v) => Some(RenderValue(v, render))
  }

  function OptBoolText(o: Option<bool>): Option<string> {
    match o
    case None => None
    case Some(b) => Some(BoolText(b))
  }

  function OptDecimal(o: Option<u32>): Option<string> {
    match o
    case None => None
    case Some(n) => Some(Decimal(n as nat))
  }

  function OptFloatText(o: Option<F32>, render: F32 -> string): Option<string> {
    match o
    case None => None
    case Some(x) => Some(render(x))
  }

  /** The optional text fields of the form, in the order they are appended. */
  function RequestFields(request: STTRequest, render: F32 -> string): seq<(string, Option<string>)> {
    [("language_code", request.languageCode),
     ("tag_audio_events", OptBoolText(request.tagAudioEvents)),
     ("num_speakers", OptDecimal(request.numSpeakers)),
     ("timestamps_granularity", request.timestampsGranularity),
     ("diarize", OptBoolText(request.diarize)),
     ("diarization_threshold", OptFloatText(request.diarizationThreshold, render)),
     ("cloud_storage_url", request.cloudStorageUrl),
     ("webhook", OptBoolText(request.webhook)),
     ("webhook_id", request.webhookId),
     ("temperature", OptFloatText(request.temperature, render)),
     ("seed", OptDecimal(request.seed)),
     ("use_multi_channel", OptBoolText(request.useMultiChannel)),
     ("webhook_metadata", request.webhookMetadata)]
  }

  /** One text part for each field that has a value, in field order. */
  function TextParts(fields: seq<(string, Option<string>)>): seq<Part> {
    if fields == [] then []
    else
      var last := fields[|fields| - 1];
      TextParts(fields[..|fields| - 1]) + (if last.1.Some? then [TextPart(last.0, last.1.value)] else [])
  }

  /** The `model_id` text part, then the file part when there is a file. */
  function FormHead(request: STTRequest): seq<Part> {
    [TextPart("model_id", request.modelId)] +
    (match request.file
     case None => []
     case Some(bytes) => [FilePart("file", "file", "application/octet-stream", bytes)])
  }

  /** The whole form `execute_stt` sends for `request`. */
  function Form(request: STTRequest, render: F32 -> string): seq<Part> {
    FormHead(request) + TextParts(RequestFields(request, render))
  }

  /** The form construction of `execute_stt`: the head, then a loop that
      appends a text part for each field that has a value. */
  method BuildForm(request: STTRequest, render: F32 -> string) returns (form: seq<Part>)
    ensures form == Form(request, render)
  {
    form := [TextPart("model_id", request.modelId)];
    if request.file.Some? {
      form := form + [FilePart("file", "file", "application/octet-stream", request.file.value)];
    }
    var fields := RequestFields(request, render);
    var i := 0;
    while i < |fields|
      invariant 0 <= i <= |fields|
      invariant form == FormHead(request) + TextParts(fields[..i])
    {
      var (key, value) := fields[i];
      assert fields[..i + 1][..i] == fields[..i];
      if value.Some? {
        form := form + [TextPart(key, value.value)];
      }
      i := i + 1;
    }
    assert fields[..i] == fields;
  }

  // ===================== reading a form =====================

  /** With no field set, the loop appends no text part. */
  lemma {:induction false} TextPartsNone(fields: seq<(string, Option<string>)>)
    requires forall i :: 0 <= i < |fields| ==> fields[i].1.None?
    ensures TextParts(fields) == []
  {
    if fields != [] {
      TextPartsNone(fields[..|fields| - 1]);
    }
  }

  /** How many parts carry the name. */
  function PartCount(form: seq<Part>, name: string): nat {
    if form == [] then 0
    else (if form[0].name == name then 1 else 0) + PartCount(form[1..], name)
  }

  /** The text of the first text part with the name. */
  function TextOf(form: seq<Part>, name: string): Option<string> {
    if form == [] then None
    else if form[0].TextPart? && form[0].name == name then Some(form[0].text)
    else TextOf(form[1..], name)
  }

  /** Part names strictly follow the order `rank` gives keys, so none repeats.
      The lemmas below hold for any ranking; the form's own is `KeyRank`. */
  predicate InOrder(form: seq<Part>, rank: string -> nat) {
    forall i, j :: 0 <= i < j < |form| ==> rank(form[i].name) < rank(form[j].name)
  }

  predicate FieldsInOrder(fields: seq<(string, Option<string>)>, rank: string -> nat) {
    forall i, j :: 0 <= i < j < |fields| ==> rank(fields[i].0) < rank(fields[j].0)
  }

  lemma {:induction false} CountAppend(a: seq<Part>, b: seq<Part>, name: string)
    ensures PartCount(a + b, name) == PartCount(a, name) + PartCount(b, name)
    ensures TextOf(a + b, name) == if TextOf(a, name).Some? then TextOf(a, name) else TextOf(b, name)
  {
    if a == [] {
      assert a + b == b;
    } else {
      assert (a + b)[1..] == a[1..] + b;
      CountAppend(a[1..], b, name);
    }
  }

  lemma {:induction false} NameAbsent(form: seq<Part>, name: string)
    requires forall j :: 0 <= j < |form| ==> form[j].name != name
    ensures PartCount(form, name) == 0 && TextOf(form, name).None?
  {
    if form != [] {
      NameAbsent(form[1..], name);
    }
  }

  /** Text parts carry only the fields' keys, as text parts. */
  lemma {:induction false} TextPartsWithin(fields: seq<(string, Option<string>)>, rank: string -> nat, lo: nat, hi: nat)
    requires forall i :: 0 <= i < |fields| ==> lo <= rank(fields[i].0) < hi
    ensures forall j :: 0 <= j < |TextParts(fields)| ==>
      TextParts(fields)[j].TextPart? && lo <= rank(TextParts(fields)[j].name) < hi
  {
    if fields != [] {
      TextPartsWithin(fields[..|fields| - 1], rank, lo, hi);
    }
  }

  /** Dropping the last field keeps the order, and leaves only keys ranked below the last one. */
  lemma InitInOrder(fields: seq<(string, Option<string>)>, rank: string -> nat)
    requires FieldsInOrder(fields, rank) && |fields| > 0
    ensures FieldsInOrder(fields[..|fields| - 1], rank)
    ensures forall j :: 0 <= j < |fields| - 1 ==> rank(fields[j].0) < rank(fields[|fields| - 1].0)
  {
  }

  lemma {:induction false} TextPartsInOrder(fields: seq<(string, Option<string>)>, rank: string -> nat)
    requires FieldsInOrder(fields, rank)
    ensures InOrder(TextParts(fields), rank)
  {
    if fields != [] {
      var n := |fields|;
      var init := fields[..n - 1];
      InitInOrder(fields, rank);
      TextPartsInOrder(init, rank);
      TextPartsWithin(init, rank, 0, rank(fields[n - 1].0));
    }
  }

  /** Two forms in order, the first ranked wholly below `split` and the second
      wholly at or above it, are in order one after the other. */
  lemma AppendInOrder(a: seq<Part>, b: seq<Part>, rank: string -> nat, split: nat)
    requires InOrder(a, rank) && InOrder(b, rank)
    requires forall i :: 0 <= i < |a| ==> rank(a[i].name) < split
    requires forall j :: 0 <= j < |b| ==> split <= rank(b[j].name)
    ensures InOrder(a + b, rank)
  {
    var ab := a + b;
    forall i, j | 0 <= i < j < |ab| ensures rank(ab[i].name) < rank(ab[j].name) {
      if j < |a| {
        assert ab[i] == a[i] && ab[j] == a[j];
      } else if i < |a| {
        assert ab[i] == a[i] && ab[j] == b[j - |a|];
      } else {
        assert ab[i] == b[i - |a|] && ab[j] == b[j - |a|];
      }
    }
  }

  /** A field with a key of its own gives exactly one part when it has a
      value and none when it has not, and the part holds its value. */
  lemma {:induction false} TextPartsAt(fields: seq<(string, Option<string>)>, rank: string -> nat, i: nat)
    requires FieldsInOrder(fields, rank) && i < |fields|
    ensures PartCount(TextParts(fields), fields[i].0) == (if fields[i].1.Some? then 1 else 0)
    ensures TextOf(TextParts(fields), fields[i].0) == fields[i].1
  {
    var n := |fields|;
    var init := fields[..n - 1];
    var last := fields[n - 1];
    var key := fields[i].0;
    var tail := if last.1.Some? then [TextPart(last.0, last.1.value)] else [];
    CountAppend(TextParts(init), tail, key);
    InitInOrder(fields, rank);
    if i == n - 1 {
      TextPartsWithin(init, rank, 0, rank(key));
      NameAbsent(TextParts(init), key);
    } else {
      assert init[i] == fields[i];
      TextPartsAt(init, rank, i);
      NameAbsent(tail, key);
    }
  }

  /** The optional fields come in the fixed key order, after `model_id` and `file`. */
  lemma RequestFieldsRanks(request: STTRequest, render: F32 -> string)
    ensures |RequestFields(request, render)| == 13
    ensures forall i :: 0 <= i < 13 ==> KeyRank(RequestFields(request, render)[i].0) == i + 2
    ensures FieldsInOrder(RequestFields(request, render), KeyRank)
  {
  }

  /** Where each parameter stands in the form's fixed order. */
  function FieldRank(f: Field): nat {
    match f
    case ModelId => 0
    case LanguageCode => 2
    case TagAudioEvents => 3
    case NumSpeakers => 4
    case TimestampsGranularity => 5
    case Diarize => 6
    case DiarizationThreshold => 7
    case CloudStorageUrl => 8
    case Webhook => 9
    case WebhookId => 10
    case Temperature => 11
    case Seed => 12
    case UseMultiChannel => 13
    case WebhookMetadata => 14
  }

  /** Every parameter's key is a known key, ranked where the parameter stands;
      so distinct parameters have distinct keys. */
  lemma FieldKeyRank(f: Field)
    ensures KeyRank(FieldKey(f)) == FieldRank(f) < 15
  {
  }

  /** Each optional field is listed under its own key with its rendered value. */
  lemma RequestFieldAt(request: STTRequest, render: F32 -> string, f: Field)
    requires f != ModelId
    ensures 2 <= FieldRank(f) < 15
    ensures RequestFields(request, render)[FieldRank(f) - 2]
            == (FieldKey(f), Rendered(RequestField(request, f), render))
  {
  }

  // ===================== what the form contains =====================

  /** The form opens with `model_id`, followed by the file part exactly when
      the request has a file, which is then the only file part; its parts
      follow the fixed key order, so no key repeats, and every name is a
      known key. */
  lemma FormLayout(request: STTRequest, render: F32 -> string)
    ensures var form := Form(request, render);
      && |form| >= 1 && form[0] == TextPart("model_id", request.modelId)
      && (request.file.Some? ==>
            |form| >= 2 && form[1] == FilePart("file", "file", "application/octet-stream", request.file.value))
      && PartCount(form, "file") == (if request.file.Some? then 1 else 0)
      && (forall j :: 0 <= j < |form| && form[j].FilePart? ==> j == 1 && request.file.Some?)
      && InOrder(form, KeyRank)
      && (forall j :: 0 <= j < |form| ==> KeyRank(form[j].name) < 15)
  {
    FormHeadAndFile(request, render);
    FormInOrder(request, render);
  }

  lemma FormHeadAndFile(request: STTRequest, render: F32 -> string)
    ensures var form := Form(request, render);
      && |form| >= 1 && form[0] == TextPart("model_id", request.modelId)
      && (request.file.Some? ==>
            |form| >= 2 && form[1] == FilePart("file", "file", "application/octet-stream", request.file.value))
      && PartCount(form, "file") == (if request.file.Some? then 1 else 0)
      && (forall j :: 0 <= j < |form| && form[j].FilePart? ==> j == 1 && request.file.Some?)
  {
    var fields := RequestFields(request, render);
    var head := FormHead(request);
    var parts := TextParts(fields);
    RequestFieldsRanks(request, render);
    TextPartsWithin(fields, KeyRank, 2, 15);
    CountAppend(head, parts, "file");
    NameAbsent(parts, "file");
  }

  lemma FormInOrder(request: STTRequest, render: F32 -> string)
    ensures var form := Form(request, render);
      && InOrder(form, KeyRank)
      && (forall j :: 0 <= j < |form| ==> KeyRank(form[j].name) < 15)
  {
    var fields := RequestFields(request, render);
    var head := FormHead(request);
    var parts := TextParts(fields);
    RequestFieldsRanks(request, render);
    TextPartsWithin(fields, KeyRank, 2, 15);
    TextPartsInOrder(fields, KeyRank);
    AppendInOrder(head, parts, KeyRank, 2);
  }

  /** Each scalar parameter appears exactly once when it has a value and not
      at all otherwise (`model_id` always), carrying its rendered value;
      no parameter's presence depends on any other. */
  lemma FormField(request: STTRequest, render: F32 -> string, f: Field)
    ensures var form := Form(request, render);
      && PartCount(form, FieldKey(f)) == (if RequestField(request, f).Some? then 1 else 0)
      && TextOf(form, FieldKey(f)) == Rendered(RequestField(request, f), render)
  {
    var fields := RequestFields(request, render);
    var head := FormHead(request);
    var parts := TextParts(fields);
    var key := FieldKey(f);
    RequestFieldsRanks(request, render);
    CountAppend(head, parts, key);
    if f == ModelId {
      TextPartsWithin(fields, KeyRank, 2, 15);
      NameAbsent(parts, key);
    } else {
      RequestFieldAt(request, render, f);
      FieldKeyRank(f);
      TextPartsAt(fields, KeyRank, FieldRank(f) - 2);
      assert head[0].name != key;
    }
  }

  /** A key the form does not know never appears in it. */
  lemma FormUnknownKey(request: STTRequest, render: F32 -> string, key: string)
    requires KeyRank(key) == 15
    ensures PartCount(Form(request, render), key) == 0
  {
    var fields := RequestFields(request, render);
    RequestFieldsRanks(request, render);
    TextPartsWithin(fields, KeyRank, 2, 15);
    CountAppend(FormHead(request), TextParts(fields), key);
    NameAbsent(TextParts(fields), key);
  }

  // ===================== the exchange =====================

  /** The POST `execute_stt` issues. */
  datatype HttpPost = HttpPost(url: string, headers: seq<(string, string)>, form: seq<Part>)

  /** What the transport gave back: `send()` failed (a `reqwest::Error`, with
      the status it may carry), or a response arrived, with its status and its
      body, or the error that reading the body failed with. */
  datatype Reply =
    | SendFailed(errorStatus: Option<u16>, cause: Cause)
    | Received(status: u16, body: Result<string, Cause>)

  /** `StatusCode::is_success`: a 2xx status. */
  predicate IsSuccess(status: u16) {
    200 <= status <= 299
  }

  /** The branch of `execute_stt` after `send()`. A failed send is classified;
      a non-success response is always `ApiError` with its status and body text
      (empty when the body cannot be read), whatever the status; a success is
      decoded by `decode`, its failure becoming `ParseError`. */
  function Respond(reply: Reply, decode: string -> Result<STTResponse, Cause>): (result: Result<STTResponse, ElevenLabsSTTError>)
    ensures result.Ok? <==> reply.Received? && IsSuccess(reply.status) && reply.body.Ok? && decode(reply.body.value).Ok?
    ensures result.Ok? ==> result.value == decode(reply.body.value).value
    ensures reply.SendFailed? ==> result == Err(Classify(reply.errorStatus, reply.cause))
    ensures reply.Received? && !IsSuccess(reply.status) ==>
      result == Err(ApiError(reply.status, if reply.body.Ok? then reply.body.value else ""))
    ensures reply.Received? && IsSuccess(reply.status) && result.Err? ==> result.error.ParseError?
    ensures reply.Received? && IsSuccess(reply.status) && reply.body.Err? ==>
      result == Err(ParseError(reply.body.error))
    ensures reply.Received? && IsSuccess(reply.status) && reply.body.Ok? && decode(reply.body.value).Err? ==>
      result == Err(ParseError(decode(reply.body.value).error))
  {
    match reply
    case SendFailed(status, cause) => Err(Classify(status, cause))
    case Received(status, body) =>
      if !IsSuccess(status) then
        Err(ApiError(status, match body case Ok(text) => text case Err(_) => ""))
      else
        match body
        case Err(cause) => Err(ParseError(cause))
        case Ok(text) =>
          match decode(text)
          case Ok(response) => Ok(response)
          case Err(cause) => Err(ParseError(cause))
  }

  /** Server error responses are not classified: a 401, 402 or 429 reply is an
      `ApiError` carrying that status, not the dedicated variant. */
  lemma ErrorResponsesAreApiErrors(status: u16, body: Result<string, Cause>, decode: string -> Result<STTResponse, Cause>)
    requires status in {401, 402, 429}
    ensures var result := Respond(Received(status, body), decode);
      && result.Err? && result.error.ApiError? && result.error.status == status
      && StatusOf(result.error) == StatusOf(Classify(Some(status), Cause("")))
      && KindOf(result.error) != KindOf(Classify(Some(status), Cause("")))
  {
  }

  /** `execute_stt`: the POST it issues, and the result it returns for `reply`. */
  method ExecuteStt(client: ElevenLabsSTTClient, request: STTRequest, render: F32 -> string,
                    reply: Reply, decode: string -> Result<STTResponse, Cause>)
    returns (post: HttpPost, result: Result<STTResponse, ElevenLabsSTTError>)
    ensures post == HttpPost(Endpoint(client), [("xi-api-key", client.apiKey)], Form(request, render))
    ensures result == Respond(reply, decode)
  {
    var form := BuildForm(request, render);
    post := HttpPost(Endpoint(client), [("xi-api-key", client.apiKey)], form);
    result := Respond(reply, decode);
  }
}
