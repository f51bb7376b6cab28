/** The records the planner passes between its parts (types.ts). */
module Types {
  import opened Wrappers

  /** The season enum; its string values are what the prompt embeds. */
  datatype Season = Spring | Summer | Autumn | Winter

  function SeasonValue(s: Season): string
  {
    match s
    case Spring => "Spring (Sakura)"
    case Summer => "Summer (Festivals)"
    case Autumn => "Autumn (Koyo)"
    case Winter => "Winter (Snow)"
  }

  datatype Pace = Relaxed | Balanced | Packed

  function PaceValue(p: Pace): string
  {
    match p
    case Relaxed => "Relaxed"
    case Balanced => "Balanced"
    case Packed => "Packed"
  }

  datatype UserPreferences = UserPreferences(season: Season, pace: Pace, interests: seq<string>)

  /** The `web` part of a grounding chunk: a cited page. */
  datatype WebRef = WebRef(uri: string, title: string)

  datatype GroundingChunk = GroundingChunk(web: Option<WebRef>)

  predicate HasWeb(c: GroundingChunk)
  {
    c.web.Some?
  }

  /** `groundingChunks` is optional in the record type. */
  datatype GeneratedItinerary = GeneratedItinerary(text: string, groundingChunks: Option<seq<GroundingChunk>>)
}
