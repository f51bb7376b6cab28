/** `generateItinerary`: the API-key check, the prompt built from the
    preferences, the request handed to the model client, and the
    normalisation of the client's response into a `GeneratedItinerary`. The
    client is a parameter: a function from the request to what the call
    produced, a response or a thrown error. */
module GeminiService {
  import opened Wrappers
  import opened Text
  import opened Seqs
  import opened Types

  const ModelName := "gemini-2.5-flash"
  const SystemInstruction := "You are an expert Japan travel guide. You are knowledgeable about logistics, hidden spots, and cultural etiquette."
  const NoItineraryText := "No itinerary generated."
  const MissingKeyMessage := "API_KEY is missing from environment variables."

  /** The arguments of `generateContent`; `googleSearch` stands for the one
      tool `{ googleSearch: {} }`. */
  datatype Request = Request(apiKey: string, model: string, contents: string, googleSearch: bool, systemInstruction: string)

  /** The parts of the SDK response that are read; every level on the path
      to the chunks may be missing. */
  datatype Metadata = Metadata(groundingChunks: Option<seq<GroundingChunk>>)
  datatype Candidate = Candidate(groundingMetadata: Option<Metadata>)
  datatype Response = Response(text: Option<string>, candidates: Option<seq<Candidate>>)

  /** The error is whatever the client threw, kept as its message. */
  datatype CallOutcome = Returned(response: Response) | Threw(error: string)

  datatype ServiceError = MissingApiKey | Rethrown(cause: string)

  function ErrorMessage(e: ServiceError): string
  {
    match e
    case MissingApiKey => MissingKeyMessage
    case Rethrown(cause) => cause
  }

  /** `!process.env.API_KEY`: absent and empty both count as missing. */
  predicate KeyMissing(apiKey: Option<string>)
  {
    apiKey.None? || apiKey.value == ""
  }

  const PromptHead := "\n    Create a detailed 2-week (14 days) travel itinerary for Japan.\n    \n    Preferences:\n    - Season: "
  const PromptPace := "\n    - Pace: "
  const PromptInterests := "\n    - Key Interests: "
  const PromptFormatLead := "\n\n    Requirements:\n    1. Structure the response CLEARLY day by day. Use the format "
  /** The header format the prompt asks for, quotes included. */
  const DayHeaderFormat := "\"## Day X: [Location] - [Title]\""
  const PromptTail := " for each day header.\n"
    + "    2. For each day, provide:\n"
    + "       - Morning, Afternoon, Evening activities.\n"
    + "       - Specific restaurant recommendations for at least one meal.\n"
    + "       - Travel tips (train lines, passes).\n"
    + "    3. Include 1-2 \"Hidden Gems\" that fit the user's interests.\n"
    + "    4. Use Google Search to ensure venue names and transport details are accurate and current.\n"
    + "    5. Do NOT output JSON. Output formatted Markdown.\n"
    + "    6. Keep the tone inspiring but practical.\n  "

  /** The pieces of the template literal in order, with the season, the pace
      and the interests joined by ", " filled in. */
  function PromptParts(prefs: UserPreferences): seq<string>
  {
    [PromptHead, SeasonValue(prefs.season), PromptPace, PaceValue(prefs.pace),
     PromptInterests, Join(prefs.interests, ", "), PromptFormatLead, DayHeaderFormat, PromptTail]
  }

  function Prompt(prefs: UserPreferences): string
  {
    Concat(PromptParts(prefs))
  }

  /** Every piece of a concatenation occurs in it. */
  lemma {:induction false} ConcatContainsPart(parts: seq<string>, i: nat)
    requires i < |parts|
    ensures Contains(Concat(parts), parts[i])
  {
    ConcatAround(parts, i);
    ContainsMiddle(Concat(parts[..i]), parts[i], Concat(parts[i + 1..]));
  }

  /** Containment is transitive. */
  lemma {:induction false} ContainsTrans(s: string, t: string, u: string)
    requires Contains(s, t) && Contains(t, u)
    ensures Contains(s, u)
  {
    ContainsIff(s, t);
    ContainsIff(t, u);
    var i :| 0 <= i <= |s| && OccursAt(s, t, i);
    var j :| 0 <= j <= |t| && OccursAt(t, u, j);
    forall k | 0 <= k < |u| ensures s[i + j + k] == u[k] {
      assert s[i..i + |t|][j + k] == t[j + k];
      assert t[j..j + |u|][k] == u[k];
    }
    assert s[i + j..i + j + |u|] == u;
    assert OccursAt(s, u, i + j);
    ContainsIff(s, u);
  }

  /** The prompt carries the preferences: the season's and the pace's values,
      the interests joined by ", " in their order, and so each interest. */
  lemma {:induction false} PromptMentionsPreferences(prefs: UserPreferences)
    ensures Contains(Prompt(prefs), SeasonValue(prefs.season))
    ensures Contains(Prompt(prefs), PaceValue(prefs.pace))
    ensures Contains(Prompt(prefs), Join(prefs.interests, ", "))
    ensures forall i :: 0 <= i < |prefs.interests| ==> Contains(Prompt(prefs), prefs.interests[i])
  {
    var parts := PromptParts(prefs);
    ConcatContainsPart(parts, 1);
    ConcatContainsPart(parts, 3);
    ConcatContainsPart(parts, 5);
    forall i | 0 <= i < |prefs.interests|
      ensures Contains(Prompt(prefs), prefs.interests[i])
    {
      JoinContainsEach(prefs.interests, ", ", i);
      ContainsTrans(Prompt(prefs), parts[5], prefs.interests[i]);
    }
  }

  /** The prompt asks for headers `## Day X: [Location] - [Title]`. */
  lemma PromptAsksForDayHeaders(prefs: UserPreferences)
    ensures Contains(Prompt(prefs), DayHeaderFormat)
  {
    ConcatContainsPart(PromptParts(prefs), 7);
  }

  /** The prompt as the head, the season's value, the pace line, the pace's
      value and everything after it. */
  lemma {:induction false} PromptSplit(p: UserPreferences)
    ensures Prompt(p) == PromptHead + (SeasonValue(p.season) + (PromptPace + (PaceValue(p.pace) + Concat(PromptParts(p)[4..]))))
  {
    var parts := PromptParts(p);
    assert Concat(parts) == PromptHead + Concat(parts[1..]);
    assert Concat(parts[1..]) == SeasonValue(p.season) + Concat(parts[2..]) by {
      assert parts[1..][1..] == parts[2..];
    }
    assert Concat(parts[2..]) == PromptPace + Concat(parts[3..]) by {
      assert parts[2..][1..] == parts[3..];
    }
    assert Concat(parts[3..]) == PaceValue(p.pace) + Concat(parts[4..]) by {
      assert parts[3..][1..] == parts[4..];
    }
  }

  lemma CancelPrefix(h: string, u: string, v: string)
    requires h + u == h + v
    ensures u == v
  {
    assert u == (h + u)[|h|..];
    assert v == (h + v)[|h|..];
  }

  /** The first two characters tell the season values apart, so a text that
      starts with one of them determines it. */
  lemma {:induction false} SeasonByPrefix(x: Season, y: Season, r1: string, r2: string)
    requires SeasonValue(x) + r1 == SeasonValue(y) + r2
    ensures x == y && r1 == r2
  {
    var u, v := SeasonValue(x), SeasonValue(y);
    assert (u + r1)[0] == u[0] && (u + r1)[1] == u[1];
    assert (v + r2)[0] == v[0] && (v + r2)[1] == v[1];
    assert x == y;
    CancelPrefix(u, r1, r2);
  }

  /** The first character tells the pace values apart. */
  lemma {:induction false} PaceByPrefix(x: Pace, y: Pace, r1: string, r2: string)
    requires PaceValue(x) + r1 == PaceValue(y) + r2
    ensures x == y
  {
    assert (PaceValue(x) + r1)[0] == PaceValue(x)[0];
    assert (PaceValue(y) + r2)[0] == PaceValue(y)[0];
  }

  /** Two preferences with the same prompt have the same season and the same
      pace: the prompt encodes both. */
  lemma {:induction false} PromptDeterminesSeasonAndPace(a: UserPreferences, b: UserPreferences)
    requires Prompt(a) == Prompt(b)
    ensures a.season == b.season && a.pace == b.pace
  {
    PromptSplit(a);
    PromptSplit(b);
    var ta, tb := Concat(PromptParts(a)[4..]), Concat(PromptParts(b)[4..]);
    var ra, rb := PromptPace + (PaceValue(a.pace) + ta), PromptPace + (PaceValue(b.pace) + tb);
    CancelPrefix(PromptHead, SeasonValue(a.season) + ra, SeasonValue(b.season) + rb);
    SeasonByPrefix(a.season, b.season, ra, rb);
    CancelPrefix(PromptPace, PaceValue(a.pace) + ta, PaceValue(b.pace) + tb);
    PaceByPrefix(a.pace, b.pace, ta, tb);
  }

  /** The request the client receives. */
  function ServiceRequest(apiKey: string, prefs: UserPreferences): (req: Request)
    ensures req.apiKey == apiKey && req.contents == Prompt(prefs)
    ensures req.model == ModelName && req.googleSearch && req.systemInstruction == SystemInstruction
  {
    Request(apiKey, ModelName, Prompt(prefs), true, SystemInstruction)
  }

  /** `response.text || "No itinerary generated."` */
  function ResultText(text: Option<string>): (r: string)
    ensures r != ""
    ensures text.Some? && text.value != "" ==> r == text.value
    ensures text.None? || text.value == "" ==> r == NoItineraryText
  {
    if text.Some? && text.value != "" then text.value else NoItineraryText
  }

  /** Every level of `candidates?.[0]?.groundingMetadata?.groundingChunks`
      is there. */
  predicate ChunkListPresent(resp: Response)
  {
    resp.candidates.Some? && |resp.candidates.value| > 0
    && resp.candidates.value[0].groundingMetadata.Some?
    && resp.candidates.value[0].groundingMetadata.value.groundingChunks.Some?
  }

  /** `response.candidates?.[0]?.groundingMetadata?.groundingChunks || []`:
      an array is truthy even when empty, so `[]` comes only from a missing
      level. */
  function RawGroundingChunks(resp: Response): (chunks: seq<GroundingChunk>)
    ensures ChunkListPresent(resp) ==>
      chunks == resp.candidates.value[0].groundingMetadata.value.groundingChunks.value
    ensures !ChunkListPresent(resp) ==> chunks == []
  {
    if resp.candidates.Some? && |resp.candidates.value| > 0 then
      match resp.candidates.value[0].groundingMetadata
      case None => []
      case Some(meta) => if meta.groundingChunks.Some? then meta.groundingChunks.value else []
    else []
  }

  /** The `map` callback: a fresh `web` record with `uri` and `title` copied,
      or `undefined`. */
  function CopyChunk(c: GroundingChunk): GroundingChunk
  {
    GroundingChunk(if c.web.Some? then Some(WebRef(c.web.value.uri, c.web.value.title)) else None)
  }

  /** `.map(copy).filter(c => c.web !== undefined)` */
  function NormalizeChunks(raw: seq<GroundingChunk>): (out: seq<GroundingChunk>)
    ensures |out| <= |raw|
    ensures forall i :: 0 <= i < |out| ==> out[i].web.Some?
  {
    var copied := seq(|raw|, i requires 0 <= i < |raw| => CopyChunk(raw[i]));
    Filter(copied, HasWeb)
  }

  /** The output is exactly the chunks that carry `web`, in their order, with
      their references unchanged. */
  lemma {:induction false} NormalizeKeepsWebChunks(raw: seq<GroundingChunk>)
    ensures NormalizeChunks(raw) == Filter(raw, HasWeb)
  {
    var copied := seq(|raw|, i requires 0 <= i < |raw| => CopyChunk(raw[i]));
    assert copied == raw by {
      forall i | 0 <= i < |raw| ensures copied[i] == raw[i] {
        assert CopyChunk(raw[i]) == raw[i];
      }
    }
  }

  /** Normalising a list that only holds chunks with `web` changes nothing;
      normalising twice is normalising once. */
  lemma {:induction false} NormalizeIdempotent(raw: seq<GroundingChunk>)
    ensures NormalizeChunks(NormalizeChunks(raw)) == NormalizeChunks(raw)
  {
    var once := NormalizeChunks(raw);
    NormalizeKeepsWebChunks(once);
    FilterKeepsAll(once, HasWeb);
  }

  /** `generateItinerary`: missing key, rethrown client error, or the
      normalised itinerary. */
  function GenerateItinerary(apiKey: Option<string>, prefs: UserPreferences, call: Request -> CallOutcome): (r: Result<GeneratedItinerary, ServiceError>)
    ensures KeyMissing(apiKey) ==> r == Failure(MissingApiKey)
    ensures !KeyMissing(apiKey) && call(ServiceRequest(apiKey.value, prefs)).Threw? ==>
      r == Failure(Rethrown(call(ServiceRequest(apiKey.value, prefs)).error))
    ensures r.Success? ==> !KeyMissing(apiKey) && r.value.text != "" && r.value.groundingChunks.Some?
    ensures r.Success? ==> forall i :: 0 <= i < |r.value.groundingChunks.value| ==> r.value.groundingChunks.value[i].web.Some?
  {
    if KeyMissing(apiKey) then Failure(MissingApiKey)
    else
      match call(ServiceRequest(apiKey.value, prefs))
      case Threw(e) => Failure(Rethrown(e))
      case Returned(resp) =>
        Success(GeneratedItinerary(ResultText(resp.text), Some(NormalizeChunks(RawGroundingChunks(resp)))))
  }

  /** With the key missing the client is never consulted: the outcome is the
      same whatever it would have done. */
  lemma MissingKeyNeverCalls(apiKey: Option<string>, prefs: UserPreferences, call1: Request -> CallOutcome, call2: Request -> CallOutcome)
    requires KeyMissing(apiKey)
    ensures GenerateItinerary(apiKey, prefs, call1) == GenerateItinerary(apiKey, prefs, call2)
    ensures ErrorMessage(GenerateItinerary(apiKey, prefs, call1).error) == MissingKeyMessage
  {
  }

  /** With a key, the outcome depends on the client only through its answer
      to the one request built from the key and the preferences. */
  lemma OnlyTheRequestMatters(key: string, prefs: UserPreferences, call1: Request -> CallOutcome, call2: Request -> CallOutcome)
    requires key != ""
    requires call1(ServiceRequest(key, prefs)) == call2(ServiceRequest(key, prefs))
    ensures GenerateItinerary(Some(key), prefs, call1) == GenerateItinerary(Some(key), prefs, call2)
  {
  }

  /** A successful result holds the response's text when it has one and the
      chunks with `web` found where the SDK puts them. */
  lemma {:induction false} SuccessContents(key: string, prefs: UserPreferences, call: Request -> CallOutcome, resp: Response)
    requires key != "" && call(ServiceRequest(key, prefs)) == Returned(resp)
    ensures GenerateItinerary(Some(key), prefs, call) ==
      Success(GeneratedItinerary(ResultText(resp.text), Some(Filter(RawGroundingChunks(resp), HasWeb))))
  {
    NormalizeKeepsWebChunks(RawGroundingChunks(resp));
  }
}
