# elevenlabs_stt in Dafny

A model of `elevenlabs_stt`, an async Rust client for the ElevenLabs
speech-to-text endpoint, together with proofs about that model. The client's
logic comes in four parts, and each has a module:

- **Requests and responses (`Types`).** These are the records of src/types.rs.
  The module also models the JSON encoding that the response types derive:
  absent fields are skipped, and a word's `type_field` is renamed to `type`.
  Decoding is modelled too: a missing member or a `null` reads as absent.
- **Errors (`Errors`).** This is the `ElevenLabsSTTError` enum of src/error.rs.
  The module models:
  - how a `reqwest::Error` is classified by the HTTP status it may carry;
  - what `Display` prints for each variant;
  - which variants expose a `source()`.
- **The client (`Client`).**
  - `new` and `with_base_url` build a client; the endpoint URL follows from it.
  - The multipart form of `execute_stt` is built by a loop (`BuildForm`). That
    loop is proved against a specification function, `Form`.
  - The branch after `send()` turns a reply into a response or an error
    (`Respond`).
- **The builder (`Builder`).**
  - `speech_to_text` starts a builder, and there is one setter per parameter.
  - Chains of setter calls obey last-write-wins.
  - `execute` freezes the builder into an `STTRequest`. It substitutes
    `scribe_v1` when no model was chosen.

`Common` holds the shared vocabulary:
- `Option` and `Result`;
- the unsigned integer widths: `u8`, `u16`, `u32` and `u64` as bounded newtypes;
- an `f32` known only by its bit pattern;
- decimal rendering of integers, which is Rust's `to_string` for them;
- a few string predicates.

The network stays outside the model:
- The request that `execute_stt` would send is returned as an `HttpPost` value.
- The server's answer comes in as a `Reply` parameter.
- How an `f32` is rendered as text is a parameter `render`.
- How a body is parsed as JSON is a parameter `decode`.

Two behaviours of the code are modelled as they are written:
- A non-success HTTP response always becomes `ApiError` with its status. This
  holds for 401, 402 and 429 as well. Only a failure of `send()` itself goes
  through the status classifier of `From<reqwest::Error>`
  (`ErrorResponsesAreApiErrors`).
- serde_json writes a non-finite float as `null`. So the response round trip
  holds for finite floats only, and `NaNReadsBackAbsent` shows a NaN coming
  back as an absent field.

## Model

| member | source | states |
|---|---|---|
| `Types.OnlyModelIdMandatory` | src/types.rs:9-83 | a parameter is present in every request if and only if it is `model_id`; a request without a file exists |
| `Types.EncodeCharacters` | src/types.rs:114 | the `characters` array has one element per character, in order, each that character's encoding |
| `Types.EncodeWords` | src/types.rs:96 | the `words` array has one element per word, in order, each that word's encoding |
| `Types.MembersLookup` | src/types.rs:89-96 | with distinct keys, an object holds each field's value under its key, and the key is present if and only if the field is |
| `Types.CharacterMembers` | src/types.rs:118-125 | a character object holds `text`, `start` and `end` under those keys, each encoded |
| `Types.CharacterKeys` | src/types.rs:118-125 | a character object has only the keys `text`, `start` and `end`, each present if and only if its field is set |
| `Types.WordMembers` | src/types.rs:100-115 | a word object holds every field under its key, with `type_field` under `type` |
| `Types.WordKeys` | src/types.rs:100-115 | a word object uses only the seven wire keys, each present if and only if its field is set; `type_field` never appears as a key |
| `Types.WordKeysPresent` | src/types.rs:101-114 | proof step of `Types.WordKeys`: each of a word's seven keys is present if and only if its field is set |
| `Types.ResponseMembers` | src/types.rs:88-97 | a response object holds `text`, `language_code`, `language_probability` and `words` under those keys, with `words` the array of word encodings |
| `Types.ResponseKeys` | src/types.rs:88-97 | a response object uses only its four keys, each present if and only if its field is set |
| `Types.TextRoundTrip` | src/types.rs:89-90 | an optional string reads back as itself, absent included |
| `Types.NumberRoundTrip` | src/types.rs:93-94 | a finite optional float reads back as itself, absent included |
| `Types.CharacterRoundTrip` | src/types.rs:117-125 | decoding a character's encoding gives back the character when its floats are finite |
| `Types.CharactersRoundTrip` | src/types.rs:114 | decoding the `characters` array gives back the same sequence when its floats are finite |
| `Types.WordRoundTrip` | src/types.rs:99-115 | decoding a word's encoding gives back the word, `type` included, when its floats are finite |
| `Types.WordsRoundTrip` | src/types.rs:96 | decoding the `words` array gives back the same sequence when its floats are finite |
| `Types.ResponseRoundTrip` | src/types.rs:87-97 | decoding a response's encoding gives back the response when its floats are finite |
| `Types.CharacterNoNulls` | src/types.rs:119-124 | a character's encoding with finite floats holds no `null`: absent fields are omitted |
| `Types.WordNoNulls` | src/types.rs:101-114 | a word's encoding with finite floats holds no `null`, nested characters included |
| `Types.ResponseNoNulls` | src/types.rs:89-96 | a response's encoding with finite floats holds no `null`, nested words included |
| `Types.NaNReadsBackAbsent` | src/types.rs:122 | a NaN `start` is encoded as `null` and decodes as absent, so the round trip needs finite floats |
| `Common.Decimal` | src/lib.rs:90 | an integer's text is a non-empty string of digits with no leading zero |
| `Common.DecimalRoundTrip` | src/lib.rs:90 | reading an integer's decimal text back gives the integer |
| `Common.DecimalInjective` | src/lib.rs:104 | two integers with the same decimal text are equal |
| `Common.BoolText` | src/lib.rs:88 | a boolean's text is `"true"` exactly when it is true and `"false"` exactly when it is false |
| `Common.Option.GetOr` | src/lib.rs:276-278 | `unwrap_or_else` with a closure yielding the default gives the value when there is one and the default otherwise |
| `Errors.Classify` | src/error.rs:69-93 | 401 gives `AuthenticationError("Invalid API key")`; 429 gives `RateLimitError` with no delay and `"Too many requests"`; 402 gives `QuotaExceededError("Insufficient credits")`; any other status gives `ApiError` with that status and the cause's text; no status gives `RequestError` keeping the cause; the status the result stands for is always the status given |
| `Errors.Source` | src/error.rs:59-66 | `source()` is present exactly for `RequestError` and `ParseError`, and is then the wrapped cause |
| `Errors.ClassifiedCauseIsSource` | src/error.rs:89-91 | a status-less error is kept and returned by `source()`; a classified status never has a source |
| `Errors.DisplayNamesKind` | src/error.rs:33-56 | every displayed error opens with its own variant's words, so two variants never display alike |
| `Errors.DisplayApiError` | src/error.rs:35-37 | `ApiError` displays as `API error (`, the status in decimal, `): ` and the message, and the numeral reads back as the status |
| `Errors.DisplayRateLimit` | src/error.rs:42-52 | a rate-limit message starts `Rate limit exceeded (retry in ` if and only if it has a delay, then contains `(retry in Ns)`; without a delay it is `Rate limit exceeded: ` and the message |
| `Errors.RateLimitWithDelay` | src/error.rs:46-50 | proof step of `Errors.DisplayRateLimit`: with a delay, the message opens `Rate limit exceeded (retry in ` and contains `(retry in Ns)` |
| `Errors.RateLimitWithoutDelay` | src/error.rs:51 | proof step of `Errors.DisplayRateLimit`: without a delay, the message is `Rate limit exceeded: ` and the message, with no retry notice |
| `Errors.DisplayValidation` | src/error.rs:54 | a validation message contains `Validation error` and its own text |
| `Client.New` | src/lib.rs:43-49 | the client keeps the API key and uses `https://api.elevenlabs.io/v1` |
| `Client.WithBaseUrl` | src/lib.rs:52-58 | the client keeps the API key and the given base URL |
| `Client.Endpoints` | src/lib.rs:121 | requests go to the base URL followed by `/speech-to-text`, which for `new` is the production URL; the key never changes the URL |
| `Client.RenderValue` | src/lib.rs:85-111 | strings go unchanged; a boolean is `"true"` or `"false"`; an integer is sent as its canonical decimal numeral (digits only, no leading zero), which reads back as the integer; a float is rendered by `render` |
| `Client.BuildForm` | src/lib.rs:70-119 | the loop builds exactly `Form(request)`: the `model_id` part, the optional file part, then one text part per set field in field order |
| `Client.CountAppend` | src/lib.rs:117 | appending parts adds their counts per key, and the first text part under a key comes from the front when it has one |
| `Client.TextPartsWithin` | src/lib.rs:115-119 | the loop appends only text parts, whose keys are the listed fields' keys |
| `Client.TextPartsInOrder` | src/lib.rs:115-119 | the loop keeps the fields' key order |
| `Client.TextPartsAt` | src/lib.rs:115-119 | a field gives exactly one part holding its value when set, and none otherwise |
| `Client.TextPartsNone` | src/lib.rs:115-119 | with no field set, the loop appends nothing |
| `Client.RequestFieldsRanks` | src/lib.rs:84-113 | the 13 optional fields come in the fixed order from `language_code` to `webhook_metadata` |
| `Client.RequestFieldAt` | src/lib.rs:84-113 | each optional field is listed under its wire key with its rendered value |
| `Client.FieldKeyRank` | src/lib.rs:70-113 | every parameter's key is a known key whose rank is the parameter's place in the form, so distinct parameters have distinct keys |
| `Client.AppendInOrder` | src/lib.rs:70-119 | appending a part list ranked wholly above another keeps the key order |
| `Client.FormLayout` | src/lib.rs:70-82 | the form starts with `model_id`; a `file` part with file name `file`, type `application/octet-stream` and the bytes unchanged follows if and only if there is a file, and is the only binary part; keys follow the fixed order, so none repeats, and all are known keys |
| `Client.FormHeadAndFile` | src/lib.rs:70-82 | proof step of `Client.FormLayout`: the form opens with `model_id`, then the `file` part if and only if there is a file, and no other part is binary |
| `Client.FormInOrder` | src/lib.rs:70-119 | proof step of `Client.FormLayout`: the form's keys strictly follow the fixed order and are all known keys |
| `Client.FormField` | src/lib.rs:84-119 | each parameter's key appears once if it is set and never if it is not (`model_id` always), carrying its rendered value, however the other parameters are set |
| `Client.FormUnknownKey` | src/lib.rs:70-119 | no key outside the fixed list appears in the form |
| `Client.Respond` | src/lib.rs:129-143 | the result is `Ok` exactly when the status is 2xx, the body reads and decodes, and it is then the decoded response; a failed send is classified; a non-2xx status gives `ApiError` with that status and the body, or `""` when the body cannot be read; any other failure is `ParseError` wrapping the error that reading the body or decoding it failed with |
| `Client.ErrorResponsesAreApiErrors` | src/lib.rs:131-136 | a 401, 402 or 429 response becomes `ApiError` with that status, not the variant the classifier would pick |
| `Client.ExecuteStt` | src/lib.rs:66-144 | the POST goes to the endpoint with the `xi-api-key` header and the request's form, and the result is the reply's outcome |
| `Builder.NewBuilder` | src/lib.rs:167-186 | a new builder keeps the client and the file, and has no parameter set |
| `Builder.SpeechToText` | src/lib.rs:61-63 | `speech_to_text` starts a builder on the client with the given file, and no parameter set |
| `Builder.Model` | src/lib.rs:189-192 | sets `model_id` and changes nothing else |
| `Builder.LanguageCodeSet` | src/lib.rs:195-198 | sets `language_code` and changes nothing else |
| `Builder.TagAudioEventsSet` | src/lib.rs:201-204 | sets `tag_audio_events` and changes nothing else |
| `Builder.NumSpeakersSet` | src/lib.rs:207-210 | sets `num_speakers` and changes nothing else |
| `Builder.TimestampsGranularitySet` | src/lib.rs:213-216 | sets `timestamps_granularity` and changes nothing else |
| `Builder.DiarizeSet` | src/lib.rs:219-222 | sets `diarize` and changes nothing else |
| `Builder.DiarizationThresholdSet` | src/lib.rs:225-228 | sets `diarization_threshold` and changes nothing else |
| `Builder.CloudStorageUrlSet` | src/lib.rs:231-234 | sets `cloud_storage_url` and changes nothing else |
| `Builder.WebhookSet` | src/lib.rs:237-240 | sets `webhook` and changes nothing else |
| `Builder.WebhookIdSet` | src/lib.rs:243-246 | sets `webhook_id` and changes nothing else |
| `Builder.TemperatureSet` | src/lib.rs:249-252 | sets `temperature` and changes nothing else |
| `Builder.SeedSet` | src/lib.rs:255-258 | sets `seed` and changes nothing else |
| `Builder.UseMultiChannelSet` | src/lib.rs:261-264 | sets `use_multi_channel` and changes nothing else |
| `Builder.WebhookMetadataSet` | src/lib.rs:267-270 | sets `webhook_metadata` and changes nothing else |
| `Builder.Set` | src/lib.rs:189-270 | each setter sets its own parameter to the value given and leaves every other parameter, the file and the client unchanged |
| `Builder.Extensionality` | src/lib.rs:147-164 | a builder is determined by its client, its file and its parameters |
| `Builder.SetTwice` | src/lib.rs:189-270 | setting a parameter twice keeps only the second value |
| `Builder.SetCommutes` | src/lib.rs:189-270 | setters of different parameters commute |
| `Builder.ChainSnoc` | src/lib.rs:189-270 | a chain that ends in one more call is that call applied to the shorter chain |
| `Builder.ChainLastWriteWins` | src/lib.rs:189-270 | after any chain of setter calls each parameter holds the value of its last call, or its earlier value if no call set it; the client and the file never change |
| `Builder.Finalize` | src/lib.rs:273-292 | `execute` copies the file and every parameter, and uses the chosen model or `scribe_v1` when none was chosen |
| `Builder.FreshBuilderForm` | src/lib.rs:273-292 | an untouched builder sends `model_id=scribe_v1`, then the file part if there is a file, and nothing else |
| `Builder.Execute` | src/lib.rs:273-295 | posts the finalised request's form to the client's endpoint with its key, and returns the reply's outcome |

## Left out

- The HTTP transport is not modelled: `reqwest::Client`, `send()`, `.await`, and the multipart wire encoding with its boundaries and headers. A reply enters as a `Reply` value, and the request goes out as an `HttpPost` value.
- JSON parsing of the body is the parameter `decode`, and any failure of it becomes `ParseError`. Byte-level JSON text is not modelled. The `Json` value type covers only what the response types use.
- `f32` to text is the parameter `render`, and float arithmetic and ranges are left out. A float is known only by its bit pattern, so finiteness can be stated.
- `Types.NumberRoundTrip`, `Types.CharacterRoundTrip`, `Types.CharactersRoundTrip`, `Types.WordRoundTrip`, `Types.WordsRoundTrip` and `Types.ResponseRoundTrip` require finite floats. serde_json writes NaN and the infinities as `null`, so nothing stronger holds.
- The `mime_str("application/octet-stream")` error path is left out. That MIME string always parses, so the path cannot be taken.
- The Retry-After header is never read: the classifier always gives a rate-limit error with no delay, and the model does the same.
- The contents of `reqwest::Error` messages are not modelled. A cause is modelled only by its `Display` text, which `ApiError` copies.
- The constraints documented for `STTRequest` are not enforced by the code, and the model does not enforce them either: exactly one of file and URL, at most 32 speakers, the seed range, the metadata size.
- `STTRequest`'s derived `Serialize` is not modelled. The client never serialises a request; it builds the form field by field.
- The `models` module is not part of this model. `SCRIBE_V1` is the constant `scribe_v1`, the value src/types.rs:12 documents.
- Duplicate keys in incoming JSON are not modelled. Decoding reads the first member with a key.
- The examples and tests perform file and environment I/O and are not modelled. The builder calls one of them makes, including a setter called twice, are covered by `Builder.ChainLastWriteWins` and `Builder.SetTwice`.
