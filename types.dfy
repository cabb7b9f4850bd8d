/** The request and response records of the speech-to-text endpoint, and the
    JSON encoding the response derives (`Serialize`/`Deserialize` with every
    field skipped when absent and the word's `type_field` renamed to `type`). */
module Types {
  import opened Common

  type Bytes = seq<u8>

  // ===================== request =====================

  /** Every parameter of one transcription call. Only `modelId` is mandatory;
      the documented constraints on the optional ones (one of file and
      cloud storage URL, at most 32 speakers, the seed range, the metadata
      size) are not enforced anywhere and are not part of the type. */
  datatype STTRequest = STTRequest(
    file: Option<Bytes>,
    modelId: string,
    languageCode: Option<string>,
    tagAudioEvents: Option<bool>,
    numSpeakers: Option<u32>,
    timestampsGranularity: Option<string>,
    diarize: Option<bool>,
    diarizationThreshold: Option<F32>,
    cloudStorageUrl: Option<string>,
    webhook: Option<bool>,
    webhookId: Option<string>,
    temperature: Option<F32>,
    seed: Option<u32>,
    useMultiChannel: Option<bool>,
    webhookMetadata: Option<string>)

  /** The scalar parameters of a request, by name (the file is not one of them). */
  datatype Field =
    | ModelId | LanguageCode | TagAudioEvents | NumSpeakers | TimestampsGranularity
    | Diarize | DiarizationThreshold | CloudStorageUrl | Webhook | WebhookId
    | Temperature | Seed | UseMultiChannel | WebhookMetadata

  /** The value of one scalar parameter, tagged with its Rust type. */
  datatype Value = Text(s: string) | Flag(b: bool) | Count(n: u32) | Real(x: F32)

  function TextValue(o: Option<string>): (v: Option<Value>)
    ensures v.Some? <==> o.Some?
    ensures o.Some? ==> v.value == Text(o.value)
  {
    match o
    case None => None
    case Some(s) => Some(Text(s))
  }

  function FlagValue(o: Option<bool>): (v: Option<Value>)
    ensures v.Some? <==> o.Some?
    ensures o.Some? ==> v.value == Flag(o.value)
  {
    match o
    case None => None
    case Some(b) => Some(Flag(b))
  }

  function CountValue(o: Option<u32>): (v: Option<Value>)
    ensures v.Some? <==> o.Some?
    ensures o.Some? ==> v.value == Count(o.value)
  {
    match o
    case None => None
    case Some(n) => Some(Count(n))
  }

  function RealValue(o: Option<F32>): (v: Option<Value>)
    ensures v.Some? <==> o.Some?
    ensures o.Some? ==> v.value == Real(o.value)
  {
    match o
    case None => None
    case Some(x) => Some(Real(x))
  }

  /** A request read field by field; the model id is always present. */
  function RequestField(r: STTRequest, f: Field): Option<Value> {
    match f
    case ModelId => Some(Text(r.modelId))
    case LanguageCode => TextValue(r.languageCode)
    case TagAudioEvents => FlagValue(r.tagAudioEvents)
    case NumSpeakers => CountValue(r.numSpeakers)
    case TimestampsGranularity => TextValue(r.timestampsGranularity)
    case Diarize => FlagValue(r.diarize)
    case DiarizationThreshold => RealValue(r.diarizationThreshold)
    case CloudStorageUrl => TextValue(r.cloudStorageUrl)
    case Webhook => FlagValue(r.webhook)
    case WebhookId => TextValue(r.webhookId)
    case Temperature => RealValue(r.temperature)
    case Seed => CountValue(r.seed)
    case UseMultiChannel => FlagValue(r.useMultiChannel)
    case WebhookMetadata => TextValue(r.webhookMetadata)
  }

  /** The request that names a model and nothing else. */
  function BareRequest(modelId: string): (r: STTRequest)
    ensures r.file.None? && r.modelId == modelId
    ensures forall f :: f != ModelId ==> RequestField(r, f).None?
  {
    STTRequest(None, modelId, None, None, None, None, None, None, None, None, None, None, None, None, None)
  }

  /** `model_id` is the one parameter every request carries; every other
      parameter, the file included, may be absent. */
  lemma OnlyModelIdMandatory(f: Field)
    ensures (forall r: STTRequest :: RequestField(r, f).Some?) <==> f == ModelId
    ensures exists r: STTRequest :: r.file.None?
  {
    var bare := BareRequest("");
    if f != ModelId {
      assert RequestField(bare, f).None?;
    }
    assert bare.file.None?;
  }

  // ===================== response =====================

  datatype STTResponseWordCharacters = STTResponseWordCharacters(
    text: Option<string>,
    start: Option<F32>,
    end: Option<F32>)

  datatype STTResponseWord = STTResponseWord(
    text: Option<string>,
    start: Option<F32>,
    end: Option<F32>,
    logprob: Option<F32>,
    typeField: Option<string>,
    speakerId: Option<string>,
    characters: Option<seq<STTResponseWordCharacters>>)

  datatype STTResponse = STTResponse(
    text: Option<string>,
    languageCode: Option<string>,
    languageProbability: Option<F32>,
    words: Option<seq<STTResponseWord>>)

  // ===================== JSON values =====================

  /** A JSON value; an object is its list of members in emission order. */
  datatype Json =
    | JNull
    | JString(s: string)
    | JNumber(x: F32)
    | JArray(items: seq<Json>)
    | JObject(members: seq<(string, Json)>)

  /** No `null` occurs anywhere inside the value. */
  predicate NoNulls(j: Json) {
    match j
    case JNull => false
    case JString(_) => true
    case JNumber(_) => true
    case JArray(items) => forall i :: 0 <= i < |items| ==> NoNulls(items[i])
    case JObject(ms) => forall i :: 0 <= i < |ms| ==> NoNulls(ms[i].1)
  }

  /** The value of the first member named `key`, or None when there is none. */
  function Lookup(ms: seq<(string, Json)>, key: string): Option<Json> {
    if ms == [] then None
    else if ms[0].0 == key then Some(ms[0].1)
    else Lookup(ms[1..], key)
  }

  /** The member names of an object. */
  function KeySet(ms: seq<(string, Json)>): set<string> {
    if ms == [] then {} else {ms[0].0} + KeySet(ms[1..])
  }

  function Keys(j: Json): set<string> {
    match j
    case JObject(ms) => KeySet(ms)
    case _ => {}
  }

  // ===================== encoding =====================

  /** One field of a record: its JSON key and its encoded value, None when absent. */
  type Entry = (string, Option<Json>)

  /** `skip_serializing_if = "Option::is_none"`: the members of an object are the
      present entries, in field order; an absent field emits nothing. */
  function Members(entries: seq<Entry>): (ms: seq<(string, Json)>)
    ensures |ms| <= |entries|
  {
    if entries == [] then []
    else if entries[0].1.Some? then [(entries[0].0, entries[0].1.value)] + Members(entries[1..])
    else Members(entries[1..])
  }

  function EncodeText(o: Option<string>): Option<Json> {
    match o
    case None => None
    case Some(s) => Some(JString(s))
  }

  /** A present float is a JSON number; serde_json writes a non-finite one as `null`. */
  function EncodeNumber(o: Option<F32>): Option<Json> {
    match o
    case None => None
    case Some(x) => Some(if IsFinite(x) then JNumber(x) else JNull)
  }

  function CharacterEntries(c: STTResponseWordCharacters): seq<Entry> {
    [("text", EncodeText(c.text)),
     ("start", EncodeNumber(c.start)),
     ("end", EncodeNumber(c.end))]
  }

  function EncodeCharacter(c: STTResponseWordCharacters): Json {
    JObject(Members(CharacterEntries(c)))
  }

  /** A sequence of characters becomes an array of the same length and order. */
  function EncodeCharacters(cs: seq<STTResponseWordCharacters>): (items: seq<Json>)
    ensures |items| == |cs|
    ensures forall i :: 0 <= i < |cs| ==> items[i] == EncodeCharacter(cs[i])
  {
    if cs == [] then [] else [EncodeCharacter(cs[0])] + EncodeCharacters(cs[1..])
  }

  /** The field `typeField` is the one renamed: its key is `type`. */
  function WordEntries(w: STTResponseWord): seq<Entry> {
    [("text", EncodeText(w.text)),
     ("start", EncodeNumber(w.start)),
     ("end", EncodeNumber(w.end)),
     ("logprob", EncodeNumber(w.logprob)),
     ("type", EncodeText(w.typeField)),
     ("speaker_id", EncodeText(w.speakerId)),
     ("characters", match w.characters
                    case None => None
                    case Some(cs) => Some(JArray(EncodeCharacters(cs))))]
  }

  function EncodeWord(w: STTResponseWord): Json {
    JObject(Members(WordEntries(w)))
  }

  /** A sequence of words becomes an array of the same length and order. */
  function EncodeWords(ws: seq<STTResponseWord>): (items: seq<Json>)
    ensures |items| == |ws|
    ensures forall i :: 0 <= i < |ws| ==> items[i] == EncodeWord(ws[i])
  {
    if ws == [] then [] else [EncodeWord(ws[0])] + EncodeWords(ws[1..])
  }

  function ResponseEntries(r: STTResponse): seq<Entry> {
    [("text", EncodeText(r.text)),
     ("language_code", EncodeText(r.languageCode)),
     ("language_probability", EncodeNumber(r.languageProbability)),
     ("words", match r.words
               case None => None
               case Some(ws) => Some(JArray(EncodeWords(ws))))]
  }

  function EncodeResponse(r: STTResponse): Json {
    JObject(Members(ResponseEntries(r)))
  }

  // ===================== decoding =====================

  /** An `Option<String>` member: missing or `null` is None; the outer None is a type error. */
  function DecodeText(v: Option<Json>): Option<Option<string>> {
    match v
    case None => Some(None)
    case Some(JNull) => Some(None)
    case Some(JString(s)) => Some(Some(s))
    case Some(_) => None
  }

  /** An `Option<f32>` member. */
  function DecodeNumber(v: Option<Json>): Option<Option<F32>> {
    match v
    case None => Some(None)
    case Some(JNull) => Some(None)
    case Some(JNumber(x)) => Some(Some(x))
    case Some(_) => None
  }

  function DecodeCharacter(j: Json): Option<STTResponseWordCharacters> {
    match j
    case JObject(ms) =>
      var text := DecodeText(Lookup(ms, "text"));
      var start := DecodeNumber(Lookup(ms, "start"));
      var end := DecodeNumber(Lookup(ms, "end"));
      if text.Some? && start.Some? && end.Some? then
        Some(STTResponseWordCharacters(text.value, start.value, end.value))
      else None
    case _ => None
  }

  function DecodeCharacters(items: seq<Json>): Option<seq<STTResponseWordCharacters>> {
    if items == [] then Some([])
    else
      match (DecodeCharacter(items[0]), DecodeCharacters(items[1..]))
      case (Some(c), Some(cs)) => Some([c] + cs)
      case _ => None
  }

  function DecodeCharacterList(v: Option<Json>): Option<Option<seq<STTResponseWordCharacters>>> {
    match v
    case None => Some(None)
    case Some(JNull) => Some(None)
    case Some(JArray(items)) =>
      (match DecodeCharacters(items)
       case None => None
       case Some(cs) => Some(Some(cs)))
    case Some(_) => None
  }

  function DecodeWord(j: Json): Option<STTResponseWord> {
    match j
    case JObject(ms) =>
      var text := DecodeText(Lookup(ms, "text"));
      var start := DecodeNumber(Lookup(ms, "start"));
      var end := DecodeNumber(Lookup(ms, "end"));
      var logprob := DecodeNumber(Lookup(ms, "logprob"));
      var typeField := DecodeText(Lookup(ms, "type"));
      var speakerId := DecodeText(Lookup(ms, "speaker_id"));
      var characters := DecodeCharacterList(Lookup(ms, "characters"));
      if text.Some? && start.Some? && end.Some? && logprob.Some? && typeField.Some?
         && speakerId.Some? && characters.Some? then
        Some(STTResponseWord(text.value, start.value, end.value, logprob.value,
                             typeField.value, speakerId.value, characters.value))
      else None
    case _ => None
  }

  function DecodeWords(items: seq<Json>): Option<seq<STTResponseWord>> {
    if items == [] then Some([])
    else
      match (DecodeWord(items[0]), DecodeWords(items[1..]))
      case (Some(w), Some(ws)) => Some([w] + ws)
      case _ => None
  }

  function DecodeWordList(v: Option<Json>): Option<Option<seq<STTResponseWord>>> {
    match v
    case None => Some(None)
    case Some(JNull) => Some(None)
    case Some(JArray(items)) =>
      (match DecodeWords(items)
       case None => None
       case Some(ws) => Some(Some(ws)))
    case Some(_) => None
  }

  function DecodeResponse(j: Json): Option<STTResponse> {
    match j
    case JObject(ms) =>
      var text := DecodeText(Lookup(ms, "text"));
      var languageCode := DecodeText(Lookup(ms, "language_code"));
      var languageProbability := DecodeNumber(Lookup(ms, "language_probability"));
      var words := DecodeWordList(Lookup(ms, "words"));
      if text.Some? && languageCode.Some? && languageProbability.Some? && words.Some? then
        Some(STTResponse(text.value, languageCode.value, languageProbability.value, words.value))
      else None
    case _ => None
  }

  // ===================== members of an encoded object =====================

  predicate DistinctKeys(entries: seq<Entry>) {
    forall i, j :: 0 <= i < j < |entries| ==> entries[i].0 != entries[j].0
  }

  lemma LookupCons(m: (string, Json), rest: seq<(string, Json)>, key: string)
    ensures Lookup([m] + rest, key) == if m.0 == key then Some(m.1) else Lookup(rest, key)
    ensures KeySet([m] + rest) == {m.0} + KeySet(rest)
  {
    assert ([m] + rest)[1..] == rest;
  }

  lemma {:induction false} MembersAbsent(entries: seq<Entry>, key: string)
    requires forall j :: 0 <= j < |entries| ==> entries[j].0 != key
    ensures Lookup(Members(entries), key) == None
    ensures key !in KeySet(Members(entries))
  {
    if entries != [] {
      MembersAbsent(entries[1..], key);
      if entries[0].1.Some? {
        LookupCons((entries[0].0, entries[0].1.value), Members(entries[1..]), key);
      }
    }
  }

  /** The member for an entry whose key is unique holds exactly the entry's value. */
  lemma {:induction false} MembersLookup(entries: seq<Entry>, i: nat)
    requires i < |entries| && DistinctKeys(entries)
    ensures Lookup(Members(entries), entries[i].0) == entries[i].1
    ensures entries[i].0 in KeySet(Members(entries)) <==> entries[i].1.Some?
  {
    var rest := entries[1..];
    var key := entries[i].0;
    if i == 0 {
      MembersAbsent(rest, key);
    } else {
      MembersLookup(rest, i - 1);
      assert rest[i - 1] == entries[i];
    }
    if entries[0].1.Some? {
      LookupCons((entries[0].0, entries[0].1.value), Members(rest), key);
    }
  }

  /** An entry whose key is unique gives a member exactly when it is present. */
  lemma MembersHasKey(entries: seq<Entry>, i: nat, key: string, present: bool)
    requires i < |entries| && DistinctKeys(entries)
    requires entries[i].0 == key && (entries[i].1.Some? <==> present)
    ensures key in KeySet(Members(entries)) <==> present
  {
    MembersLookup(entries, i);
  }

  /** Every member name is the key of some entry. */
  lemma {:induction false} MembersKeysWithin(entries: seq<Entry>, keys: set<string>)
    requires forall j :: 0 <= j < |entries| ==> entries[j].0 in keys
    ensures KeySet(Members(entries)) <= keys
  {
    if entries != [] {
      MembersKeysWithin(entries[1..], keys);
      if entries[0].1.Some? {
        LookupCons((entries[0].0, entries[0].1.value), Members(entries[1..]), "");
      }
    }
  }

  /** Members carry only the entries' values. */
  lemma {:induction false} MembersNoNulls(entries: seq<Entry>)
    requires forall j :: 0 <= j < |entries| && entries[j].1.Some? ==> NoNulls(entries[j].1.value)
    ensures NoNulls(JObject(Members(entries)))
  {
    if entries != [] {
      MembersNoNulls(entries[1..]);
      var ms := Members(entries);
      var tail := Members(entries[1..]);
      var front := ms[..|ms| - |tail|];
      assert ms == front + tail;
      forall i | 0 <= i < |ms| ensures NoNulls(ms[i].1) {
        if i >= |front| {
          assert ms[i] == tail[i - |front|];
        }
      }
    }
  }

  // ===================== properties of the encoding =====================

  predicate FiniteNumber(o: Option<F32>) {
    o.Some? ==> IsFinite(o.value)
  }

  predicate FiniteCharacter(c: STTResponseWordCharacters) {
    FiniteNumber(c.start) && FiniteNumber(c.end)
  }

  predicate FiniteWord(w: STTResponseWord) {
    && FiniteNumber(w.start) && FiniteNumber(w.end) && FiniteNumber(w.logprob)
    && (w.characters.Some? ==>
          forall i :: 0 <= i < |w.characters.value| ==> FiniteCharacter(w.characters.value[i]))
  }

  /** Every float the response carries is finite. */
  predicate FiniteResponse(r: STTResponse) {
    && FiniteNumber(r.languageProbability)
    && (r.words.Some? ==> forall i :: 0 <= i < |r.words.value| ==> FiniteWord(r.words.value[i]))
  }

  /** A character object holds, under each field's key, that field's encoding. */
  lemma CharacterMembers(c: STTResponseWordCharacters)
    ensures var ms := EncodeCharacter(c).members;
      && Lookup(ms, "text") == EncodeText(c.text)
      && Lookup(ms, "start") == EncodeNumber(c.start)
      && Lookup(ms, "end") == EncodeNumber(c.end)
  {
    var e := CharacterEntries(c);
    MembersLookup(e, 0);
    MembersLookup(e, 1);
    MembersLookup(e, 2);
  }

  /** A character object has a member for exactly the fields that are present. */
  lemma CharacterKeys(c: STTResponseWordCharacters)
    ensures var keys := Keys(EncodeCharacter(c));
      && keys <= {"text", "start", "end"}
      && ("text" in keys <==> c.text.Some?)
      && ("start" in keys <==> c.start.Some?)
      && ("end" in keys <==> c.end.Some?)
  {
    var e := CharacterEntries(c);
    MembersLookup(e, 0);
    MembersLookup(e, 1);
    MembersLookup(e, 2);
    MembersKeysWithin(e, {"text", "start", "end"});
  }

  lemma WordEntriesDistinct(w: STTResponseWord)
    ensures DistinctKeys(WordEntries(w))
  {
  }

  /** A word object holds, under each field's key, that field's encoding;
      `typeField` is keyed `type`. */
  lemma WordMembers(w: STTResponseWord)
    ensures var ms := EncodeWord(w).members;
      && Lookup(ms, "text") == EncodeText(w.text)
      && Lookup(ms, "start") == EncodeNumber(w.start)
      && Lookup(ms, "end") == EncodeNumber(w.end)
      && Lookup(ms, "logprob") == EncodeNumber(w.logprob)
      && Lookup(ms, "type") == EncodeText(w.typeField)
      && Lookup(ms, "speaker_id") == EncodeText(w.speakerId)
      && Lookup(ms, "characters") == (match w.characters
                                      case None => None
                                      case Some(cs) => Some(JArray(EncodeCharacters(cs))))
  {
    var e := WordEntries(w);
    WordEntriesDistinct(w);
    MembersLookup(e, 0);
    MembersLookup(e, 1);
    MembersLookup(e, 2);
    MembersLookup(e, 3);
    MembersLookup(e, 4);
    MembersLookup(e, 5);
    MembersLookup(e, 6);
  }

  /** A word object has a member for exactly the fields that are present; the
      keys are the field names, except `type` for `typeField`. */
  lemma WordKeys(w: STTResponseWord)
    ensures var keys := Keys(EncodeWord(w));
      && keys <= {"text", "start", "end", "logprob", "type", "speaker_id", "characters"}
      && ("text" in keys <==> w.text.Some?)
      && ("start" in keys <==> w.start.Some?)
      && ("end" in keys <==> w.end.Some?)
      && ("logprob" in keys <==> w.logprob.Some?)
      && ("type" in keys <==> w.typeField.Some?)
      && ("speaker_id" in keys <==> w.speakerId.Some?)
      && ("characters" in keys <==> w.characters.Some?)
      && "type_field" !in keys
  {
    WordKeysWithin(w);
    WordKeysPresent(w);
    assert "type_field" !in {"text", "start", "end", "logprob", "type", "speaker_id", "characters"};
  }

  lemma WordKeysWithin(w: STTResponseWord)
    ensures Keys(EncodeWord(w)) <= {"text", "start", "end", "logprob", "type", "speaker_id", "characters"}
  {
    MembersKeysWithin(WordEntries(w), {"text", "start", "end", "logprob", "type", "speaker_id", "characters"});
  }

  lemma WordKeysPresent(w: STTResponseWord)
    ensures var keys := Keys(EncodeWord(w));
      && ("text" in keys <==> w.text.Some?)
      && ("start" in keys <==> w.start.Some?)
      && ("end" in keys <==> w.end.Some?)
      && ("logprob" in keys <==> w.logprob.Some?)
      && ("type" in keys <==> w.typeField.Some?)
      && ("speaker_id" in keys <==> w.speakerId.Some?)
      && ("characters" in keys <==> w.characters.Some?)
  {
    WordEntriesDistinct(w);
    WordTimingKeys(w);
    WordLabelKeys(w);
  }

  lemma WordTimingKeys(w: STTResponseWord)
    requires DistinctKeys(WordEntries(w))
    ensures var keys := Keys(EncodeWord(w));
      && ("text" in keys <==> w.text.Some?)
      && ("start" in keys <==> w.start.Some?)
      && ("end" in keys <==> w.end.Some?)
      && ("logprob" in keys <==> w.logprob.Some?)
  {
    var e := WordEntries(w);
    MembersHasKey(e, 0, "text", w.text.Some?);
    MembersHasKey(e, 1, "start", w.start.Some?);
    MembersHasKey(e, 2, "end", w.end.Some?);
    MembersHasKey(e, 3, "logprob", w.logprob.Some?);
  }

  lemma WordLabelKeys(w: STTResponseWord)
    requires DistinctKeys(WordEntries(w))
    ensures var keys := Keys(EncodeWord(w));
      && ("type" in keys <==> w.typeField.Some?)
      && ("speaker_id" in keys <==> w.speakerId.Some?)
      && ("characters" in keys <==> w.characters.Some?)
  {
    var e := WordEntries(w);
    MembersHasKey(e, 4, "type", w.typeField.Some?);
    MembersHasKey(e, 5, "speaker_id", w.speakerId.Some?);
    MembersHasKey(e, 6, "characters", w.characters.Some?);
  }

  lemma ResponseEntriesDistinct(r: STTResponse)
    ensures DistinctKeys(ResponseEntries(r))
  {
  }

  /** A response object holds, under each field's key, that field's encoding;
      `words` is an array of every word's encoding, in order. */
  lemma ResponseMembers(r: STTResponse)
    ensures var ms := EncodeResponse(r).members;
      && Lookup(ms, "text") == EncodeText(r.text)
      && Lookup(ms, "language_code") == EncodeText(r.languageCode)
      && Lookup(ms, "language_probability") == EncodeNumber(r.languageProbability)
      && Lookup(ms, "words") == (match r.words
                                 case None => None
                                 case Some(ws) => Some(JArray(EncodeWords(ws))))
  {
    var e := ResponseEntries(r);
    ResponseEntriesDistinct(r);
    MembersLookup(e, 0);
    MembersLookup(e, 1);
    MembersLookup(e, 2);
    MembersLookup(e, 3);
  }

  /** A response object has a member for exactly the fields that are present. */
  lemma ResponseKeys(r: STTResponse)
    ensures var keys := Keys(EncodeResponse(r));
      && keys <= {"text", "language_code", "language_probability", "words"}
      && ("text" in keys <==> r.text.Some?)
      && ("language_code" in keys <==> r.languageCode.Some?)
      && ("language_probability" in keys <==> r.languageProbability.Some?)
      && ("words" in keys <==> r.words.Some?)
  {
    var e := ResponseEntries(r);
    ResponseEntriesDistinct(r);
    MembersLookup(e, 0);
    MembersLookup(e, 1);
    MembersLookup(e, 2);
    MembersLookup(e, 3);
    MembersKeysWithin(e, {"text", "language_code", "language_probability", "words"});
  }

  lemma CharacterRoundTrip(c: STTResponseWordCharacters)
    requires FiniteCharacter(c)
    ensures DecodeCharacter(EncodeCharacter(c)) == Some(c)
  {
    CharacterMembers(c);
    TextRoundTrip(c.text);
    NumberRoundTrip(c.start);
    NumberRoundTrip(c.end);
  }

  lemma {:induction false} CharactersRoundTrip(cs: seq<STTResponseWordCharacters>)
    requires forall i :: 0 <= i < |cs| ==> FiniteCharacter(cs[i])
    ensures DecodeCharacters(EncodeCharacters(cs)) == Some(cs)
  {
    if cs != [] {
      var items := EncodeCharacters(cs);
      assert items[1..] == EncodeCharacters(cs[1..]);
      CharacterRoundTrip(cs[0]);
      CharactersRoundTrip(cs[1..]);
      assert [cs[0]] + cs[1..] == cs;
    }
  }

  lemma TextRoundTrip(o: Option<string>)
    ensures DecodeText(EncodeText(o)) == Some(o)
  {
  }

  lemma NumberRoundTrip(o: Option<F32>)
    requires FiniteNumber(o)
    ensures DecodeNumber(EncodeNumber(o)) == Some(o)
  {
  }

  lemma WordRoundTrip(w: STTResponseWord)
    requires FiniteWord(w)
    ensures DecodeWord(EncodeWord(w)) == Some(w)
  {
    WordMembers(w);
    TextRoundTrip(w.text);
    NumberRoundTrip(w.start);
    NumberRoundTrip(w.end);
    NumberRoundTrip(w.logprob);
    TextRoundTrip(w.typeField);
    TextRoundTrip(w.speakerId);
    if w.characters.Some? {
      CharactersRoundTrip(w.characters.value);
    }
  }

  lemma {:induction false} WordsRoundTrip(ws: seq<STTResponseWord>)
    requires forall i :: 0 <= i < |ws| ==> FiniteWord(ws[i])
    ensures DecodeWords(EncodeWords(ws)) == Some(ws)
  {
    if ws != [] {
      var items := EncodeWords(ws);
      var rest := ws[1..];
      assert items[1..] == EncodeWords(rest);
      assert forall i :: 0 <= i < |rest| ==> FiniteWord(rest[i]) by {
        forall i | 0 <= i < |rest| ensures FiniteWord(rest[i]) {
          assert rest[i] == ws[i + 1];
        }
      }
      WordRoundTrip(ws[0]);
      WordsRoundTrip(rest);
      assert DecodeWord(items[0]) == Some(ws[0]);
      assert DecodeWords(items[1..]) == Some(rest);
      assert [ws[0]] + rest == ws;
    }
  }

  /** Decoding the encoding of a response whose floats are finite gives it back. */
  lemma ResponseRoundTrip(r: STTResponse)
    requires FiniteResponse(r)
    ensures DecodeResponse(EncodeResponse(r)) == Some(r)
  {
    var ms := EncodeResponse(r).members;
    ResponseMembers(r);
    TextRoundTrip(r.text);
    TextRoundTrip(r.languageCode);
    NumberRoundTrip(r.languageProbability);
    assert DecodeText(Lookup(ms, "text")) == Some(r.text);
    assert DecodeText(Lookup(ms, "language_code")) == Some(r.languageCode);
    assert DecodeNumber(Lookup(ms, "language_probability")) == Some(r.languageProbability);
    if r.words.Some? {
      WordsRoundTrip(r.words.value);
    }
    assert DecodeWordList(Lookup(ms, "words")) == Some(r.words);
  }

  lemma CharacterNoNulls(c: STTResponseWordCharacters)
    requires FiniteCharacter(c)
    ensures NoNulls(EncodeCharacter(c))
  {
    MembersNoNulls(CharacterEntries(c));
  }

  lemma WordNoNulls(w: STTResponseWord)
    requires FiniteWord(w)
    ensures NoNulls(EncodeWord(w))
  {
    if w.characters.Some? {
      var cs := w.characters.value;
      forall i | 0 <= i < |cs| ensures NoNulls(EncodeCharacters(cs)[i]) {
        CharacterNoNulls(cs[i]);
      }
    }
    MembersNoNulls(WordEntries(w));
  }

  /** With finite floats, no `null` appears anywhere in the encoding: absent
      fields are omitted, never written as `null`. */
  lemma ResponseNoNulls(r: STTResponse)
    requires FiniteResponse(r)
    ensures NoNulls(EncodeResponse(r))
  {
    if r.words.Some? {
      var ws := r.words.value;
      forall i | 0 <= i < |ws| ensures NoNulls(EncodeWords(ws)[i]) {
        WordNoNulls(ws[i]);
      }
    }
    MembersNoNulls(ResponseEntries(r));
  }

  /** A present NaN is written as `null` and therefore reads back as absent. */
  lemma NaNReadsBackAbsent()
    ensures var nan := F32(0x7FC0_0000);
      var c := STTResponseWordCharacters(Some("a"), Some(nan), None);
      && !NoNulls(EncodeCharacter(c))
      && DecodeCharacter(EncodeCharacter(c)) == Some(STTResponseWordCharacters(Some("a"), None, None))
  {
    var nan := F32(0x7FC0_0000);
    var c := STTResponseWordCharacters(Some("a"), Some(nan), None);
    CharacterMembers(c);
    assert EncodeCharacter(c).members[1] == ("start", JNull);
  }
}
