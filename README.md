# Nippon Planner: a verified model of the itinerary pipeline

The planner is a web app. It takes the traveller's season, pace and interests from a form and builds a prompt from them. It sends the prompt to a Gemini model that has Google Search grounding and gets back a Markdown itinerary and a list of cited web pages. It then shows one day at a time: each day has a keyword-chosen image and its lines rendered as headings, list items, breaks and paragraphs.

This project models the logic behind those steps in Dafny and proves what that logic guarantees.

| Dafny module | File | Models |
|---|---|---|
| `Wrappers` | `wrappers.dfy` | `Option` and `Result` |
| `Seqs` | `seqs.dfy` | `Array.prototype.filter` and `join("")` |
| `Text` | `text.dfy` | the JavaScript string operations the code calls: ECMAScript whitespace, `trim`, `split` and `join` on one character, `includes`, `startsWith`, `replace` of a string, ASCII `toLowerCase` |
| `Types` | `types.dfy` | the records of `types.ts` |
| `DayParser` | `day_parser.dfy` | the `days` computation of the itinerary view |
| `ItineraryDisplay` | `itinerary_display.dfy` | the line renderer, the day image, the sidebar labels, the sources list, and the `activeDay` state as the class `DayNavigator` |
| `ItineraryForm` | `itinerary_form.dfy` | the interest toggle, and the form's state as the class `FormState` |
| `GeminiService` | `gemini_service.dfy` | `generateItinerary`; the SDK client is a function parameter |
| `App` | `app.dfy` | the page state as the class `AppState`: its handlers and which section it shows |

The main results:

- **Header matching.**
  - The text is split in front of `##\s*Day\s*\d+`, case-insensitively, by a hand-written matcher.
  - The matcher skips whitespace greedily. It matches exactly where the regular expression's existential reading matches (`HeaderAtIffPattern`).
- **Splitting.**
  - The pieces concatenate back to the text (`SplitConcat`).
  - The cuts are exactly the header positions after index 0 (`SplitCutsAtHeaders`).
- **Days.**
  - The parser never returns an empty list, so `days[activeDay]` is always in range. `DayNavigator.Valid` keeps this.
  - A text with at most whitespace before its first header and N ≥ 2 headers gives N segments, each made from a piece that starts with a header of its own; a piece whose header sits on its first line gets a title starting with "Day" (`WellFormedDays`).
  - A header written in the format the prompt asks for is recognised and gives the title "Day n…" (`PromptHeaderMatches`).
- **Rendering and images.**
  - Line classification has the source's precedence, stated as if-and-only-if conditions.
  - The image is chosen by the first keyword group that matches, also stated as if-and-only-if conditions.
- **Form.**
  - Toggling an absent interest appends it; toggling a present one removes every occurrence.
  - Toggling an absent interest twice gives the selection back. Toggling keeps the selection free of duplicates.
  - There is no cap on the number of interests.
- **Service.**
  - A missing key fails without consulting the client.
  - The prompt carries the season, the pace and the interests. It also determines the season and the pace.
  - The result text is never empty, and only chunks that carry `web` are kept, in order.
- **App.**
  - The handlers keep the page invariant: loading excludes data and error, and data excludes error.
  - Under that invariant the page shows exactly one section.

### Behaviour worth knowing

- **`### Heading` lines.** The renderer calls `line.replace('###', '')`, which keeps the space after the marker, so `### Heading` renders as " Heading" (`HeadingText`).
- **The "Full Itinerary" fallback.** The text falls back to the single "Full Itinerary" segment only when fewer than two non-blank pieces remain (`ParseDaysFallback`), for example when there is no header after index 0 (`NoLaterHeaderFallsBack`). A single day header after a non-blank introduction gives two segments: the introduction and the day (`IntroAndOneDay`).
- **A `##` that ends its line.** In "##\nDay 1 …" the `\s*` of the header pattern takes the newline, so the text is still cut there. The piece's first line is just "##", though, so that day's title is empty (`BrokenHeaderEmptyTitle`). For a piece that starts with a header, this is the one way to get no title. It is why the title promise of `WellFormedDays` is limited to pieces whose header has `##` and "day" on one line (`HeaderOnFirstLine`).

## Model

| member | source | states |
|---|---|---|
| Seqs.Filter | components/ItineraryDisplay.tsx:18 | the result is no longer than the input; it holds only input elements that satisfy the predicate, and every input element that satisfies it |
| Seqs.FilterConcat | components/ItineraryDisplay.tsx:18 | filtering distributes over concatenation, so relative order is kept |
| Seqs.FilterKeepsAll | components/ItineraryDisplay.tsx:18 | a filter whose predicate holds for every element is the identity |
| Seqs.FilterLength | services/geminiService.ts:48 | the filtered length is the number of elements that satisfy the predicate |
| Seqs.FilterNoDup | components/ItineraryForm.tsx:17 | filtering a duplicate-free list gives a duplicate-free list |
| Seqs.ConcatAround | services/geminiService.ts:11-29 | a concatenation equals everything before a piece, then the piece, then everything after it |
| Text.TrimStart | components/ItineraryDisplay.tsx:26 | the result is a suffix of the input and does not start with whitespace |
| Text.TrimEnd | components/ItineraryDisplay.tsx:26 | the result is a prefix of the input and does not end with whitespace |
| Text.TrimStartDropsWs | components/ItineraryDisplay.tsx:26 | the prefix `trimStart` removes is all whitespace |
| Text.TrimEndDropsWs | components/ItineraryDisplay.tsx:26 | the suffix `trimEnd` removes is all whitespace |
| Text.Trim | components/ItineraryDisplay.tsx:18 | a non-empty result starts and ends with non-whitespace |
| Text.TrimBlank | components/ItineraryDisplay.tsx:113 | trimming gives the empty string if and only if the line is all whitespace |
| Text.TrimIsSlice | components/ItineraryDisplay.tsx:27 | `trim` returns a contiguous slice of its input, starting where `trimStart` stops |
| Text.PrefixOfSuffix | components/ItineraryDisplay.tsx:27 | proof step for Text.TrimIsSlice: a prefix of a suffix of a string is the slice of the string that starts where the suffix does |
| Text.TrimRemovesOnlyWs | components/ItineraryDisplay.tsx:27 | what `trim` removes on either side is whitespace only |
| Text.FindFrom | components/ItineraryDisplay.tsx:37-41 | the result is the first occurrence at or after the start index, or -1 when there is none |
| Text.ContainsIff | components/ItineraryDisplay.tsx:37-41 | `includes` holds if and only if the needle occurs at some index |
| Text.ContainsMiddle | services/geminiService.ts:15-17 | a string is contained in any concatenation that has it as its middle part |
| Text.ReplacePrefix | components/ItineraryDisplay.tsx:108 | replacing a prefix pattern with "" removes exactly that prefix and keeps the rest |
| Text.IndexOf | components/ItineraryDisplay.tsx:76 | the index of the first occurrence of the character: it holds the character and no earlier index does |
| Text.SplitOn | components/ItineraryDisplay.tsx:25 | `split` on one character gives at least one piece, and no piece contains the separator |
| Text.JoinSplit | components/ItineraryDisplay.tsx:106 | joining the pieces of a split with the separator gives back the input |
| Text.JoinCons | components/ItineraryDisplay.tsx:27 | joining a list of two or more strings puts the separator right after the first |
| Text.Reassemble | components/ItineraryDisplay.tsx:25 | proof step for Text.JoinSplit: the text before an index, the character at it and the text after it give the whole string |
| Text.SplitJoin | components/ItineraryDisplay.tsx:25-27 | splitting a join of separator-free pieces gives back the pieces |
| Text.JoinContainsEach | services/geminiService.ts:17 | every element of a list is a substring of the list's join |
| Text.ContainsInSuffix | services/geminiService.ts:17 | a string contained in `t` is contained in every `a + t` |
| Text.Lower | components/ItineraryDisplay.tsx:36 | lower-casing keeps the length and folds each character |
| DayParser.SkipWs | components/ItineraryDisplay.tsx:17 | greedy `\s*`: it moves forward and stops at the end or at non-whitespace |
| DayParser.SkipWsRun | components/ItineraryDisplay.tsx:17 | everything the greedy skip passes over is whitespace |
| DayParser.SkipWsFindsRunEnd | components/ItineraryDisplay.tsx:17 | a whitespace run that ends before non-whitespace is exactly what the greedy skip consumes |
| DayParser.NotWs | components/ItineraryDisplay.tsx:17 | proof step for DayParser.WitnessGivesHeaderAt: letters and digits are not whitespace, so each `\s*` in the pattern can end in only one place |
| DayParser.HeaderAtGivesPattern | components/ItineraryDisplay.tsx:17 | where the greedy matcher succeeds, the regular expression matches |
| DayParser.PatternGivesHeaderAt | components/ItineraryDisplay.tsx:17 | where the regular expression matches, with any choice of whitespace runs, the greedy matcher succeeds |
| DayParser.WitnessGivesHeaderAt | components/ItineraryDisplay.tsx:17 | any choice of the pattern's two whitespace runs, followed by the word and a digit, makes the greedy matcher succeed |
| DayParser.HeaderAtIntro | components/ItineraryDisplay.tsx:17 | the markup, the word where the first skip stops and a digit where the second stops make a header |
| DayParser.HeaderAtIffPattern | components/ItineraryDisplay.tsx:17 | the greedy matcher and the pattern's backtracking semantics agree at every index |
| DayParser.SkipWsShift | components/ItineraryDisplay.tsx:17 | skipping whitespace does not depend on the text before the start index |
| DayParser.HeaderAtShift | components/ItineraryDisplay.tsx:17 | the lookahead only looks forward: dropping a prefix does not change where it matches |
| DayParser.HeaderAtShiftForward | components/ItineraryDisplay.tsx:17 | a header in the text is still a header after a prefix before it is dropped |
| DayParser.HeaderAtShiftBack | components/ItineraryDisplay.tsx:17 | a header in a suffix is a header of the whole text at the shifted index |
| DayParser.ShiftWitness | components/ItineraryDisplay.tsx:17 | the matcher's skips and tests, moved back by the dropped prefix, still succeed in the suffix |
| DayParser.UnshiftWitness | components/ItineraryDisplay.tsx:17 | the matcher's skips and tests in a suffix, moved forward, succeed in the whole text |
| DayParser.DayAtShift | components/ItineraryDisplay.tsx:17 | the word test at an index does not depend on the text before it |
| DayParser.SkipShifted | components/ItineraryDisplay.tsx:17 | where a skip stops in the text, it stops in a suffix at the shifted index |
| DayParser.SkipUnshifted | components/ItineraryDisplay.tsx:17 | where a skip stops in a suffix, it stops in the whole text at the shifted index |
| DayParser.CharsShift | components/ItineraryDisplay.tsx:17 | proof step for DayParser.ShiftWitness: a suffix holds the text's characters at the shifted indices |
| DayParser.NextHeader | components/ItineraryDisplay.tsx:17 | the first header position at or after the start, with no header before it, or the text length when there is none |
| DayParser.SplitAtHeaders | components/ItineraryDisplay.tsx:18 | at least one piece, and no piece is empty unless the text is |
| DayParser.Shift | components/ItineraryDisplay.tsx:18 | every position is moved by the same offset |
| DayParser.CutOffsetsLength | components/ItineraryDisplay.tsx:18 | n pieces give n-1 cut positions |
| DayParser.SplitConcat | components/ItineraryDisplay.tsx:17-18 | the split pieces concatenate back to the input text |
| DayParser.HeaderPositionsSkip | components/ItineraryDisplay.tsx:17 | a range with no header adds no header positions |
| DayParser.HeaderPositionsStep | components/ItineraryDisplay.tsx:17 | the header positions from an index are that index when it is a header, then the positions from the next |
| DayParser.ShiftStep | components/ItineraryDisplay.tsx:18 | proof step for DayParser.HeaderPositionsShift: shifting a list keeps its first position in front |
| DayParser.StepAgree | components/ItineraryDisplay.tsx:17 | a suffix and the whole text take their step on the same header test |
| DayParser.SameTest | components/ItineraryDisplay.tsx:17 | proof step for DayParser.StepAgree: a step may use any test equal to the one it was defined with |
| DayParser.ShiftConcat | components/ItineraryDisplay.tsx:18 | proof step for DayParser.ShiftStep: shifting distributes over concatenation |
| DayParser.HeaderPositionsShift | components/ItineraryDisplay.tsx:17-18 | header positions in a suffix, shifted by the suffix's offset, are the header positions of the whole text |
| DayParser.SplitCutsAtHeaders | components/ItineraryDisplay.tsx:17-18 | the text is cut at every header position after index 0 and nowhere else, never at index 0 |
| DayParser.PiecesStartWithHeader | components/ItineraryDisplay.tsx:17-18 | when the text starts with a header, every piece of the split starts with a header of its own |
| DayParser.NoHashInHeader | components/ItineraryDisplay.tsx:17 | between a header's second `#` and its digit there is no `#` |
| DayParser.NextHeaderPastDigit | components/ItineraryDisplay.tsx:17 | the next header after the one at index 0 starts past that header's digit, so two headers never overlap |
| DayParser.SkipWsPrefix | components/ItineraryDisplay.tsx:17 | a whitespace run that stops inside a prefix stops at the same index in the prefix |
| DayParser.PrefixKeepsHeader | components/ItineraryDisplay.tsx:17-18 | a prefix that keeps a header's digit keeps the header, so the piece cut off in front of the next header still starts with a header |
| DayParser.SuffixAtHeader | components/ItineraryDisplay.tsx:17 | the suffix that starts at a header starts with a header |
| DayParser.ConsHeaded | components/ItineraryDisplay.tsx:18 | proof step for DayParser.PiecesStartWithHeader: a piece that starts with a header in front of such pieces gives such pieces |
| DayParser.ParseDays | components/ItineraryDisplay.tsx:12-30 | the list of days is never empty |
| DayParser.ParseDaysFallback | components/ItineraryDisplay.tsx:18-21 | the result is the single "Full Itinerary" segment holding the untrimmed text if and only if fewer than two non-blank pieces remain |
| DayParser.ParseDaysPerPiece | components/ItineraryDisplay.tsx:23-29 | otherwise there is one segment per non-blank piece, in order |
| DayParser.NoLaterHeaderFallsBack | components/ItineraryDisplay.tsx:17-21 | a text with no header after index 0 falls back to the single "Full Itinerary" segment |
| DayParser.SplitInTwo | components/ItineraryDisplay.tsx:17-18 | exactly one header after index 0 splits the text into the part before it and the part from it |
| DayParser.IntroAndOneDay | components/ItineraryDisplay.tsx:17-29 | one header after a non-blank introduction yields two segments: the introduction and the day |
| DayParser.KeepTwo | components/ItineraryDisplay.tsx:18 | two non-blank pieces both survive the blank-piece filter |
| DayParser.TwoPieceDays | components/ItineraryDisplay.tsx:18-29 | two kept pieces give two segments, one from each, in order |
| DayParser.HeaderStartsWithHash | components/ItineraryDisplay.tsx:17 | a header starts with `#` at its index |
| DayParser.HeaderPositionsAreHeaders | components/ItineraryDisplay.tsx:17 | every listed header position is in range and matches the pattern |
| DayParser.StartsNonBlank | components/ItineraryDisplay.tsx:18 | a piece that begins with the header markup survives the blank-piece filter |
| DayParser.FirstLine | components/ItineraryDisplay.tsx:25-26 | the first line has no newline and is a prefix of the piece |
| DayParser.LinesOfPiece | components/ItineraryDisplay.tsx:25-27 | the first split line is the first line, and the other lines joined with newlines are the text after the first newline |
| DayParser.SliceLacks | components/ItineraryDisplay.tsx:26 | a slice holds no character that the string lacks |
| DayParser.TrimLacks | components/ItineraryDisplay.tsx:26 | trimming adds no character |
| DayParser.StripLacks | components/ItineraryDisplay.tsx:26 | removing the `##\s*` markup adds no character |
| DayParser.TitleHasNoNewline | components/ItineraryDisplay.tsx:26 | a title made from a newline-free line has no newline |
| DayParser.SegmentOfPiece | components/ItineraryDisplay.tsx:25-28 | the title is the trimmed first line without its `##\s*` markup and has no newline; the content is the trimmed text after the first newline |
| DayParser.TrimEndKeeps | components/ItineraryDisplay.tsx:26 | `trimEnd` keeps everything up to the last non-whitespace character |
| DayParser.TitleStartsWithDay | components/ItineraryDisplay.tsx:26 | a first line of markup followed by "day" gives a title that starts with "day" in some ASCII case |
| DayParser.TrimKeepsDay | components/ItineraryDisplay.tsx:26 | trimming a text that starts with "day" keeps that start |
| DayParser.FirstLineKeepsHeader | components/ItineraryDisplay.tsx:25-26 | when no newline comes before the word, the first line carries the same header markup and word |
| DayParser.HeaderTitle | components/ItineraryDisplay.tsx:23-28 | a piece whose first line holds the header gives a title that starts with the word "Day", so the title is never empty |
| DayParser.WellFormedDays | components/ItineraryDisplay.tsx:12-30 | a text with at most whitespace before its first header and N ≥ 2 headers in all keeps exactly the pieces of the split from its first header on and gives exactly N segments, the i-th made from the i-th kept piece; every kept piece starts with a header; every segment whose piece has its header's "##" and "day" on one line has a non-empty title that starts with "day" in some letter case |
| DayParser.LeadDropped | components/ItineraryDisplay.tsx:17-18 | a whitespace-only lead before the first header is cut off as its own piece and dropped by the blank filter, so the kept pieces and the header count are those of the text from its first header |
| DayParser.LeadPositions | components/ItineraryDisplay.tsx:17 | proof step for DayParser.LeadDropped: no header lies before the first one, so the text and its part from the first header hold equally many |
| DayParser.LeadSplit | components/ItineraryDisplay.tsx:17 | proof step for DayParser.LeadDropped: a text with a lead before its first header splits into the lead and the split of the rest |
| DayParser.BlankLeadFiltered | components/ItineraryDisplay.tsx:18 | proof step for DayParser.LeadDropped: an all-whitespace piece in front is removed by the blank filter |
| DayParser.SameDays | components/ItineraryDisplay.tsx:18-29 | proof step for DayParser.WellFormedDays: with two or more kept pieces the days depend only on the kept pieces |
| DayParser.HeadedDays | components/ItineraryDisplay.tsx:12-30 | a text that starts with a header and has N ≥ 2 headers keeps all N pieces of its split and gives one segment per piece, in order, each piece starting with a header, with the title property of WellFormedDays |
| DayParser.TitlesOfPieces | components/ItineraryDisplay.tsx:23-28 | segments made from pieces whose header sits on the first line all have titles that start with "day" in some letter case |
| DayParser.KeepAll | components/ItineraryDisplay.tsx:18 | pieces that all start with a header all survive the blank-piece filter |
| DayParser.KeptPieceDays | components/ItineraryDisplay.tsx:18-29 | when every piece is kept and there are two or more, there is one segment per piece, in order |
| DayParser.FirstLineOf | components/ItineraryDisplay.tsx:25 | the first line of `a + "\n" + b`, for a newline-free `a`, is `a` |
| DayParser.PromptHeaderAt | services/geminiService.ts:20 | "## Day " followed by a digit matches the parser's header pattern |
| DayParser.StripPromptHeader | components/ItineraryDisplay.tsx:26 | removing `##\s*` from "## Day n…" leaves "Day n…" |
| DayParser.NoNewlineInPromptHeader | services/geminiService.ts:20 | a header line in the requested format has no newline |
| DayParser.PromptHeaderMatches | services/geminiService.ts:20 | a header in the format the prompt asks for is matched by the parser and gives the trimmed title "Day n…" |
| DayParser.BrokenHeaderEmptyTitle | components/ItineraryDisplay.tsx:17-28 | a header whose `##` ends its line ("##\nDay n…") is still a header, since `\s*` takes the newline, but its piece does not hold the header on its first line and its title is empty |
| DayParser.BrokenHeaderAt | components/ItineraryDisplay.tsx:17 | proof step for DayParser.BrokenHeaderEmptyTitle: "##\nDay n…" matches the header pattern, with the newline before "day" |
| DayParser.BrokenHeaderTitle | components/ItineraryDisplay.tsx:23-28 | proof step for DayParser.BrokenHeaderEmptyTitle: the first line of "##\nDay n…" is "##", so the title is empty |
| DayParser.BareMarkupTitle | components/ItineraryDisplay.tsx:26-27 | proof step for DayParser.BrokenHeaderTitle: a line that is only "##" gives the empty title |
| ItineraryDisplay.ClassifyLinePrecedence | components/ItineraryDisplay.tsx:107-116 | heading if and only if the line starts with `###`; list item if and only if not that and it starts with `-`/`*`; break if and only if neither and it is all whitespace; paragraph if and only if none of these. A heading keeps all text after `###`; a paragraph is the line unchanged |
| ItineraryDisplay.HeadingText | components/ItineraryDisplay.tsx:107-108 | a `###` line is a heading whose text is everything after the marker, including a leading space |
| ItineraryDisplay.ListItemText | components/ItineraryDisplay.tsx:110-111 | a bullet line is a list item that drops the marker plus one whitespace character when one follows, and is the whole line otherwise |
| ItineraryDisplay.BreakOrParagraph | components/ItineraryDisplay.tsx:113-116 | past the first two tests, a break if and only if the line is all whitespace, else a paragraph holding the line |
| ItineraryDisplay.RenderContent | components/ItineraryDisplay.tsx:106 | one block per `'\n'`-separated line, each the classification of that line, in order |
| ItineraryDisplay.RenderCoversContent | components/ItineraryDisplay.tsx:106 | there is at least one block, and the rendered lines joined with newlines are the whole content |
| ItineraryDisplay.ChooseImageFirstMatch | components/ItineraryDisplay.tsx:35-43 | each image is chosen if and only if its keyword group is mentioned case-insensitively and no earlier group is, in the order tokyo, kyoto, osaka, food/sushi/market, hike/mountain/nature, else default |
| ItineraryDisplay.SidebarLabel | components/ItineraryDisplay.tsx:76 | the label is a colon-free prefix of the title: the whole title, or the part before its first colon |
| ItineraryDisplay.SidebarSubtitleIsSecondField | components/ItineraryDisplay.tsx:78 | the subtitle is the text between the first and second colon, or the whole title when that text is empty or the title has no colon |
| ItineraryDisplay.WebLinks | components/ItineraryDisplay.tsx:125-137 | one link per chunk that carries `web` |
| ItineraryDisplay.WebLinksConcat | components/ItineraryDisplay.tsx:125-137 | links of a concatenation are the concatenated links, so the chunks' order is kept |
| ItineraryDisplay.WebLinksAreFilteredChunks | components/ItineraryDisplay.tsx:125-137 | the links are exactly the references of the chunks with `web`, one for one and in order |
| ItineraryDisplay.LinksCons | components/ItineraryDisplay.tsx:125-137 | a chunk in front keeps the links matched one for one with the kept chunks |
| ItineraryDisplay.SourcesSection | components/ItineraryDisplay.tsx:121-138 | the section appears if and only if there is at least one chunk, and then lists the chunks' links |
| ItineraryDisplay.DayNavigator.constructor | components/ItineraryDisplay.tsx:12-32 | mounting parses the text and starts on day 0, which is in range |
| ItineraryDisplay.DayNavigator.SelectDay | components/ItineraryDisplay.tsx:65-68 | selecting a button's index makes it the active day and keeps it in range |
| ItineraryDisplay.DayNavigator.ActiveDay | components/ItineraryDisplay.tsx:92 | reading `days[activeDay]` is safe and gives a parsed day |
| ItineraryDisplay.DayNavigator.ActivePanel | components/ItineraryDisplay.tsx:90-117 | the panel shows the active day's image, its title and the classification of its content |
| ItineraryForm.Toggle | components/ItineraryForm.tsx:14-20 | after a toggle, the selection contains the id if and only if it did not before |
| ItineraryForm.ToggleAbsentAppends | components/ItineraryForm.tsx:18 | an absent id is appended at the end, and the earlier elements are unchanged |
| ItineraryForm.TogglePresentRemoves | components/ItineraryForm.tsx:16-17 | a present id is removed with all its occurrences; every other element stays; the removal acts on each part of the list separately, so order is kept |
| ItineraryForm.CountComplement | components/ItineraryForm.tsx:17 | the elements kept and the occurrences removed account for the whole list |
| ItineraryForm.ToggleTwiceRestores | components/ItineraryForm.tsx:14-20 | toggling an absent id twice gives back the original selection |
| ItineraryForm.ToggleTwiceMovesToEnd | components/ItineraryForm.tsx:14-20 | toggling a present id twice does not restore the order: the id moves to the end |
| ItineraryForm.ToggleKeepsNoDup | components/ItineraryForm.tsx:14-20 | a duplicate-free selection stays duplicate-free |
| ItineraryForm.NoSelectionCap | components/ItineraryForm.tsx:80-88 | nothing enforces the "Pick up to 3" label: four interest buttons in turn select four ids |
| ItineraryForm.FormState.constructor | components/ItineraryForm.tsx:10-12 | the form starts on Spring, Balanced and no interests |
| ItineraryForm.FormState.SetSeason | components/ItineraryForm.tsx:38 | sets the season and nothing else |
| ItineraryForm.FormState.SetPace | components/ItineraryForm.tsx:63 | sets the pace and nothing else |
| ItineraryForm.FormState.ToggleInterest | components/ItineraryForm.tsx:14-20 | the selection becomes the toggle of the old one; season and pace are unchanged; no duplicates appear |
| ItineraryForm.FormState.Submit | components/ItineraryForm.tsx:22-25 | the submitted preferences are exactly the current season, pace and interests |
| GeminiService.ConcatContainsPart | services/geminiService.ts:11-29 | every piece of the prompt template occurs in the prompt |
| GeminiService.ContainsTrans | services/geminiService.ts:17 | proof step for GeminiService.PromptMentionsPreferences: substring containment is transitive |
| GeminiService.PromptMentionsPreferences | services/geminiService.ts:15-17 | the prompt contains the season's value, the pace's value, the interests joined by ", " in order, and each interest |
| GeminiService.PromptAsksForDayHeaders | services/geminiService.ts:20 | the prompt requests headers of the form "## Day X: [Location] - [Title]" |
| GeminiService.PromptSplit | services/geminiService.ts:11-17 | the prompt is the fixed head, the season's value, the pace line, the pace's value and the rest, in that order |
| GeminiService.CancelPrefix | services/geminiService.ts:11-17 | proof step for GeminiService.PromptDeterminesSeasonAndPace: equal texts with the same prefix have equal remainders |
| GeminiService.SeasonByPrefix | types.ts:1-6 | the season values are told apart by their first two characters |
| GeminiService.PaceByPrefix | types.ts:8-12 | the pace values are told apart by their first character |
| GeminiService.PromptDeterminesSeasonAndPace | services/geminiService.ts:11-17 | two preferences with the same prompt have the same season and pace |
| GeminiService.ServiceRequest | services/geminiService.ts:32-40 | the request carries the key, the model "gemini-2.5-flash", the prompt, the search tool and the system instruction |
| GeminiService.ResultText | services/geminiService.ts:45 | the text is never empty: the response's text when non-empty, otherwise "No itinerary generated." |
| GeminiService.RawGroundingChunks | services/geminiService.ts:42 | when every level of `candidates[0].groundingMetadata.groundingChunks` is there, the chunk list found there is returned as it is (an empty list included); when any level is missing the result is `[]` |
| GeminiService.NormalizeChunks | services/geminiService.ts:46-48 | no more chunks than the input, and every output chunk carries `web` |
| GeminiService.NormalizeKeepsWebChunks | services/geminiService.ts:46-48 | the output is exactly the input chunks with `web`, in order, with `uri` and `title` unchanged |
| GeminiService.NormalizeIdempotent | services/geminiService.ts:46-48 | normalising a normalised list changes nothing |
| GeminiService.GenerateItinerary | services/geminiService.ts:4-54 | a missing or empty key fails before the call; a thrown error is rethrown unchanged; a success has a non-empty text and only chunks with `web` |
| GeminiService.MissingKeyNeverCalls | services/geminiService.ts:5-7 | with a missing key the outcome does not depend on the client, and the error message is the fixed one |
| GeminiService.OnlyTheRequestMatters | services/geminiService.ts:9-40 | with a key, the outcome depends on the client only through its answer to the one request built from the key and the preferences |
| GeminiService.SuccessContents | services/geminiService.ts:42-49 | a success holds the defaulted text and the raw chunks filtered on `web` |
| App.ExactlyOneView | App.tsx:52-79 | exactly one section is shown unless loading while holding data; the form (with the error as banner) if and only if no data and not loading, the spinner if and only if loading, the itinerary if and only if data |
| App.FormAndDisplayExclusive | App.tsx:52-79 | when the itinerary is shown, the form is not, and the itinerary is the held data |
| App.AppState.constructor | App.tsx:10-12 | not loading, no data, no error |
| App.AppState.BeginGenerate | App.tsx:15-17 | loading, error cleared, data cleared |
| App.AppState.CompleteSuccess | App.tsx:20-21 | data becomes the result, loading ends, no error |
| App.AppState.CompleteFailure | App.tsx:22-27 | the error becomes the fixed message, loading ends, data stays empty |
| App.AppState.HandleGenerate | App.tsx:14-28 | afterwards loading is off; on success the data is the service's result and there is no error; on any failure there is no data and the fixed message is shown |
| App.AppState.HandleReset | App.tsx:30-33 | data and error are cleared; loading is left as it was |
| App.AppState.Render | App.tsx:52-79 | in every reachable state exactly one section is shown |
| App.MissingKeyShowsBanner | App.tsx:14-28 | generating with a missing key ends on the form with the failure banner, whatever the client would answer |

## Left out

- JSX markup, CSS classes, `Hero.tsx` and the footer: they hold no logic. The labels and icons of the seasons, paces and interests are display data; only the interest ids are kept.
- The Gemini SDK and its network call: the client is a function parameter from the request to a response or a thrown error. A thrown error is kept as its message string.
- The read of `process.env.API_KEY`: it is an optional key parameter.
- `console.error` logging: a side effect with no bearing on the results.
- `async`/`await`, React's batching of state updates and `useMemo`/`useCallback`. Each handler step is one atomic transition.
  - `App.AppState.HandleGenerate` therefore runs its three steps without the await in between, so a `handleReset` from the navigation bar while a request is in flight is only covered by calling the separate steps (`BeginGenerate`, `HandleReset`, `CompleteSuccess`/`CompleteFailure`).
  - `App.AppState.CompleteSuccess` and `App.AppState.CompleteFailure` require the loading flag, because they only run after `BeginGenerate`.
- Text.Lower: folds only ASCII `A`–`Z`. `toLowerCase` also folds non-ASCII letters, such as the Kelvin sign to `k` and U+0130 to `i` plus a combining dot, which the image keywords could then match.
- UTF-16: a JavaScript string is a sequence of UTF-16 code units, while a Dafny `char` is a Unicode scalar value. A character outside the Basic Multilingual Plane is one element here but two units in the code, and a lone surrogate cannot be written at all. No proved property depends on this, because every character the code tests for (the letters and digits of its patterns and keywords, and the whitespace set) lies in the Basic Multilingual Plane, where one unit is one character.
- Regular expressions in general: only three patterns are written out, by hand: the day-header pattern, the bullet pattern `^[-*]\s`, and the title-markup pattern `/^##\s*/` (`StripHeaderMarkup`). The `i` flag without `u` folds only ASCII for the letters of "day", so the header matcher is exact.
- `useMemo` keyed on `data.text` (components/ItineraryDisplay.tsx:12-30): `DayNavigator` parses its text once, when it is built, and never sees the text change. The code never changes the text under a mounted view either. The page mounts the itinerary view only while `itineraryData` is set (App.tsx:79-84), and `handleGenerate` clears `itineraryData` (App.tsx:17) before it sets a new one, so every itinerary gets a freshly mounted view whose `activeDay` starts at 0. In the model, `App.AppState.CompleteSuccess` requires the loading flag, and `Valid` then means no itinerary is held; `App.AppState.HandleReset` clears it. A re-parse under a stale `activeDay`, which could go out of range, is therefore not modelled.
- ItineraryDisplay.DayNavigator.SelectDay: requires an index of `days`, because the only caller is the timeline button list built by `days.map`.
