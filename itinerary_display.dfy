/** The itinerary view: per-line classification of a day's content into
    display blocks, the keyword-based choice of a day image, the sidebar
    labels cut from a day title, the sources list, and the `activeDay` state
    that selects which parsed day is shown. */
module ItineraryDisplay {
  import opened Wrappers
  import opened Text
  import opened Seqs
  import opened Types
  import opened DayParser

  /** What one line of a day's content renders as. */
  datatype Block = Heading(text: string) | ListItem(text: string) | Break | Paragraph(text: string)

  // `line.replace(/^[-*]\s/, '')`: a leading marker and one whitespace
  // character go together; a marker alone stays.
  function StripBullet(line: string): string
  {
    if |line| >= 2 && (line[0] == '-' || line[0] == '*') && IsWs(line[1]) then line[2..] else line
  }

  /** `line.startsWith('-') || line.startsWith('*')` */
  predicate HasBulletMarker(line: string)
  {
    |line| > 0 && (line[0] == '-' || line[0] == '*')
  }

  /** The first test that holds decides the block: `###` first, then a bullet
      marker, then a blank line, else a paragraph. */
  function ClassifyLine(line: string): Block
  {
    if StartsWith(line, "###") then Heading(ReplaceFirst(line, "###", ""))
    else if HasBulletMarker(line) then ListItem(StripBullet(line))
    else if Trim(line) == "" then Break
    else Paragraph(line)
  }

  /** A heading keeps everything after the first `###`, including a leading
      space. */
  lemma {:induction false} HeadingText(line: string)
    requires StartsWith(line, "###")
    ensures ClassifyLine(line).Heading? && "###" + ClassifyLine(line).text == line
  {
    ReplacePrefix(line, "###");
  }

  /** A list item drops the marker and one whitespace character when one
      follows it, and is the line itself otherwise. */
  lemma {:induction false} ListItemText(line: string)
    requires !StartsWith(line, "###") && HasBulletMarker(line)
    ensures ClassifyLine(line).ListItem?
    ensures if |line| >= 2 && IsWs(line[1]) then line[..2] + ClassifyLine(line).text == line
            else ClassifyLine(line).text == line
  {
    if |line| >= 2 && IsWs(line[1]) {
      assert line[..2] + line[2..] == line;
    }
  }

  /** Past the first two tests, a line is a break exactly when it is all
      whitespace, and a paragraph holding the whole line otherwise. */
  lemma {:induction false} BreakOrParagraph(line: string)
    requires !StartsWith(line, "###") && !HasBulletMarker(line)
    ensures ClassifyLine(line).Break? <==> AllWs(line)
    ensures ClassifyLine(line).Paragraph? <==> !AllWs(line)
    ensures ClassifyLine(line).Paragraph? ==> ClassifyLine(line).text == line
  {
    TrimBlank(line);
  }

  /** The four kinds with their precedence, as conditions on the line. */
  lemma {:induction false} ClassifyLinePrecedence(line: string)
    ensures ClassifyLine(line).Heading? <==> StartsWith(line, "###")
    ensures ClassifyLine(line).ListItem? <==> !StartsWith(line, "###") && HasBulletMarker(line)
    ensures ClassifyLine(line).Break? <==> !StartsWith(line, "###") && !HasBulletMarker(line) && AllWs(line)
    ensures ClassifyLine(line).Paragraph? <==> !StartsWith(line, "###") && !HasBulletMarker(line) && !AllWs(line)
    ensures ClassifyLine(line).Heading? ==> "###" + ClassifyLine(line).text == line
    ensures ClassifyLine(line).Paragraph? ==> ClassifyLine(line).text == line
  {
    if StartsWith(line, "###") {
      HeadingText(line);
    } else if HasBulletMarker(line) {
      ListItemText(line);
    } else {
      BreakOrParagraph(line);
    }
  }

  /** `content.split('\n').map(...)`: one block per line, in order. */
  function RenderContent(content: string): (blocks: seq<Block>)
    ensures |blocks| == |SplitOn(content, '\n')|
    ensures forall i :: 0 <= i < |blocks| ==> blocks[i] == ClassifyLine(SplitOn(content, '\n')[i])
  {
    var lines := SplitOn(content, '\n');
    seq(|lines|, i requires 0 <= i < |lines| => ClassifyLine(lines[i]))
  }

  /** The lines the blocks come from are exactly the content's lines: joined
      with newlines they give the content back. */
  lemma {:induction false} RenderCoversContent(content: string)
    ensures |RenderContent(content)| >= 1
    ensures Join(SplitOn(content, '\n'), "\n") == content
  {
    JoinSplit(content, '\n');
  }

  /** The keys of the image table. */
  datatype ImageTag = Tokyo | Kyoto | Osaka | Food | Nature | Default

  function ImageUrl(tag: ImageTag): string
  {
    match tag
    case Default => "https://picsum.photos/seed/japan/1200/600"
    case Tokyo => "https://picsum.photos/seed/tokyo_night/800/600"
    case Kyoto => "https://picsum.photos/seed/kyoto_temple/800/600"
    case Osaka => "https://picsum.photos/seed/osaka_food/800/600"
    case Nature => "https://picsum.photos/seed/japan_nature/800/600"
    case Food => "https://picsum.photos/seed/sushi/800/600"
  }

  /** The lower-cased text contains `word` somewhere. */
  ghost predicate Mentions(text: string, word: string)
  {
    exists i :: 0 <= i <= |Lower(text)| && OccursAt(Lower(text), word, i)
  }

  /** `getDayImage`'s if-chain on the lower-cased text (`.includes`). */
  function ChooseImage(text: string): (tag: ImageTag)
  {
    var lower := Lower(text);
    if Contains(lower, "tokyo") then Tokyo
    else if Contains(lower, "kyoto") then Kyoto
    else if Contains(lower, "osaka") then Osaka
    else if Contains(lower, "food") || Contains(lower, "sushi") || Contains(lower, "market") then Food
    else if Contains(lower, "hike") || Contains(lower, "mountain") || Contains(lower, "nature") then Nature
    else Default
  }

  /** The first keyword group, in the fixed order, that the text mentions
      (case-insensitively) decides the image; a later group counts only
      when no earlier one is mentioned. */
  lemma ChooseImageFirstMatch(text: string)
    ensures ChooseImage(text) == Tokyo <==> Mentions(text, "tokyo")
    ensures ChooseImage(text) == Kyoto <==> !Mentions(text, "tokyo") && Mentions(text, "kyoto")
    ensures ChooseImage(text) == Osaka <==> !Mentions(text, "tokyo") && !Mentions(text, "kyoto") && Mentions(text, "osaka")
    ensures ChooseImage(text) == Food <==>
      !Mentions(text, "tokyo") && !Mentions(text, "kyoto") && !Mentions(text, "osaka") &&
      (Mentions(text, "food") || Mentions(text, "sushi") || Mentions(text, "market"))
    ensures ChooseImage(text) == Nature <==>
      !Mentions(text, "tokyo") && !Mentions(text, "kyoto") && !Mentions(text, "osaka") &&
      !(Mentions(text, "food") || Mentions(text, "sushi") || Mentions(text, "market")) &&
      (Mentions(text, "hike") || Mentions(text, "mountain") || Mentions(text, "nature"))
    ensures ChooseImage(text) == Default <==>
      !Mentions(text, "tokyo") && !Mentions(text, "kyoto") && !Mentions(text, "osaka") &&
      !(Mentions(text, "food") || Mentions(text, "sushi") || Mentions(text, "market")) &&
      !(Mentions(text, "hike") || Mentions(text, "mountain") || Mentions(text, "nature"))
  {
    var lower := Lower(text);
    ContainsIff(lower, "tokyo");
    ContainsIff(lower, "kyoto");
    ContainsIff(lower, "osaka");
    ContainsIff(lower, "food");
    ContainsIff(lower, "sushi");
    ContainsIff(lower, "market");
    ContainsIff(lower, "hike");
    ContainsIff(lower, "mountain");
    ContainsIff(lower, "nature");
  }

  /** The hero image of a day is chosen from its title and content
      concatenated with nothing in between. */
  function DayImage(day: DaySegment): string
  {
    ImageUrl(ChooseImage(day.title + day.content))
  }

  /** `title.split(':')[0]`: the title up to its first colon. */
  function SidebarLabel(title: string): (head: string)
    ensures ':' !in head && StartsWith(title, head)
    ensures head == title || (|head| < |title| && title[|head|] == ':')
  {
    var pieces := SplitOn(title, ':');
    if ':' in title then
      var k := IndexOf(title, ':');
      assert pieces[0] == title[..k];
      pieces[0]
    else pieces[0]
  }

  /** `title.split(':')[1] || title`: the text between the first and the
      second colon, or the whole title when that is empty or there is no colon. */
  function SidebarSubtitle(title: string): string
  {
    var pieces := SplitOn(title, ':');
    if |pieces| >= 2 && pieces[1] != "" then pieces[1] else title
  }

  lemma {:induction false} SidebarSubtitleIsSecondField(title: string)
    ensures ':' !in title ==> SidebarSubtitle(title) == title
    ensures ':' in title ==>
      var rest := title[IndexOf(title, ':') + 1..];
      SidebarSubtitle(title) == (if SidebarLabel(rest) != "" then SidebarLabel(rest) else title)
  {
    if ':' in title {
      var k := IndexOf(title, ':');
      var rest := title[k + 1..];
      assert SplitOn(title, ':')[1] == SplitOn(rest, ':')[0];
    }
  }

  /** The links of the sources section: one per chunk that carries a web
      reference, in the chunks' order. */
  function WebLinks(chunks: seq<GroundingChunk>): (links: seq<WebRef>)
    ensures |links| == Count(chunks, HasWeb)
  {
    if chunks == [] then []
    else (if chunks[0].web.Some? then [chunks[0].web.value] else []) + WebLinks(chunks[1..])
  }

  lemma {:induction false} WebLinksConcat(a: seq<GroundingChunk>, b: seq<GroundingChunk>)
    ensures WebLinks(a + b) == WebLinks(a) + WebLinks(b)
  {
    if a == [] {
      assert a + b == b;
    } else {
      assert (a + b)[1..] == a[1..] + b;
      WebLinksConcat(a[1..], b);
    }
  }

  /** The links are the web references of the chunks kept by the filter on
      `web`, one for one and in order. */
  lemma {:induction false} WebLinksAreFilteredChunks(chunks: seq<GroundingChunk>)
    ensures |WebLinks(chunks)| == |Filter(chunks, HasWeb)|
    ensures forall i :: 0 <= i < |WebLinks(chunks)| ==> Filter(chunks, HasWeb)[i].web == Some(WebLinks(chunks)[i])
  {
    FilterLength(chunks, HasWeb);
    if chunks != [] {
      var rest := chunks[1..];
      WebLinksAreFilteredChunks(rest);
      assert WebLinks(chunks) == (if chunks[0].web.Some? then [chunks[0].web.value] else []) + WebLinks(rest);
      assert Filter(chunks, HasWeb) == (if HasWeb(chunks[0]) then [chunks[0]] else []) + Filter(rest, HasWeb);
      LinksCons(chunks[0], WebLinks(rest), Filter(rest, HasWeb));
    }
  }

  lemma {:induction false} LinksCons(c: GroundingChunk, links: seq<WebRef>, kept: seq<GroundingChunk>)
    requires |links| == |kept| && forall i :: 0 <= i < |links| ==> kept[i].web == Some(links[i])
    ensures var links' := (if c.web.Some? then [c.web.value] else []) + links;
      var kept' := (if HasWeb(c) then [c] else []) + kept;
      |links'| == |kept'| && forall i :: 0 <= i < |links'| ==> kept'[i].web == Some(links'[i])
  {
  }

  /** The sources section: absent unless there is at least one chunk; then
      the links of the chunks that carry `web`. */
  function SourcesSection(chunks: Option<seq<GroundingChunk>>): (section: Option<seq<WebRef>>)
    ensures section.Some? <==> chunks.Some? && |chunks.value| > 0
    ensures section.Some? ==> section.value == WebLinks(chunks.value)
  {
    if chunks.Some? && |chunks.value| > 0 then Some(WebLinks(chunks.value)) else None
  }

  /** The mounted view: the parsed days of the itinerary it was given and the
      index of the day on show. */
  class DayNavigator {
    const data: GeneratedItinerary
    const days: seq<DaySegment>
    var activeDay: nat

    ghost predicate Valid()
      reads this
    {
      days == ParseDays(data.text) && activeDay < |days|
    }

    /** Mounting parses the text and starts on the first day. */
    constructor (data: GeneratedItinerary)
      ensures Valid()
      ensures this.data == data && activeDay == 0
    {
      this.data := data;
      days := ParseDays(data.text);
      activeDay := 0;
    }

    /** `setActiveDay(idx)` from a timeline button; the buttons come from
        `days.map`, so `idx` is an index of `days`. */
    method SelectDay(idx: nat)
      requires Valid() && idx < |days|
      modifies this
      ensures Valid() && activeDay == idx
    {
      activeDay := idx;
    }

    /** `days[activeDay]`, which the invariant keeps in range. */
    method ActiveDay() returns (day: DaySegment)
      requires Valid()
      ensures day in days && day == days[activeDay]
    {
      day := days[activeDay];
    }

    /** What the main panel shows: the day's image, its title and its blocks. */
    method ActivePanel() returns (image: string, title: string, blocks: seq<Block>)
      requires Valid()
      ensures image == DayImage(days[activeDay]) && title == days[activeDay].title
      ensures blocks == RenderContent(days[activeDay].content)
    {
      var day := days[activeDay];
      image := DayImage(day);
      title := day.title;
      blocks := RenderContent(day.content);
    }
  }
}
