/**
 * The three-step wizard of App.tsx as pure transitions over a snapshot of its state
 * cells. Each handler is one atomic step: the awaited AI call is an Outcome argument,
 * and the state is what the handler leaves once its `finally` has run.
 */
module Wizard {
  import opened Types
  import Text

  /** The ids of the step bar: search, configuration, publication. */
  const StepIds: seq<int> := [1, 2, 3]

  /** The component's state cells. */
  datatype State = State(
    currentStep: int,
    searchQuery: string,
    videos: seq<Video>,
    selectedVideo: Option<Video>,
    isSearching: bool,
    isTranscribing: bool,
    isGenerating: bool,
    article: Option<GeneratedArticle>,
    copySuccess: bool,
    config: ArticleConfig)

  /**
   * What holds between handlers: the step is one of the step ids; from step 2 on a video
   * with a transcription is selected; at step 3 that transcription is non-empty and an
   * article is present; no call is in flight; the keyword list is well formed.
   */
  predicate Valid(s: State) {
    s.currentStep in StepIds
    && (s.currentStep >= 2 ==> s.selectedVideo.Some? && s.selectedVideo.value.transcription.Some?)
    && (s.currentStep == 3 ==> CanGenerate(s.selectedVideo) && s.article.Some?)
    && !s.isSearching && !s.isTranscribing && !s.isGenerating
    && KeywordsWellFormed(s.config.keywords)
  }

  /** What every keyword list the input can produce looks like: non-empty, each keyword trimmed and comma-free. */
  predicate KeywordsWellFormed(ks: seq<string>) {
    |ks| >= 1 && forall k :: 0 <= k < |ks| ==> Text.IsTrimmed(ks[k]) && ',' !in ks[k]
  }

  /** In every valid state the keyword input, showing `keywords.join(', ')`, parses back to the keywords. */
  lemma KeywordsShownRoundTrip(s: State)
    requires Valid(s)
    ensures Text.ParseKeywords(Text.Join(s.config.keywords, ", ")) == s.config.keywords
  {
    Text.KeywordsDisplayRoundTrip(s.config.keywords);
  }

  /** The state the component mounts with. */
  function Initial(): (s: State)
    ensures Valid(s) && s.currentStep == 1
    ensures s.selectedVideo.None? && s.article.None? && s.videos == []
  {
    State(
      1, "como fazer espetinho de carne", [], None, false, false, false, None, false,
      ArticleConfig(
        Guide, ["espetinho de carne", "como fazer espetinho", "churrasco caseiro"], Medium,
        true, true, true, false))
  }

  /** `!searchQuery.trim()`: the query is empty or all whitespace. */
  predicate IsBlank(query: string) {
    Text.Trim(query) == []
  }

  /** The query sent to the search call: none for a blank query, else the query untrimmed. */
  function SearchRequest(s: State): (request: Option<string>)
    ensures request.None? <==> forall i :: 0 <= i < |s.searchQuery| ==> Text.IsWhitespace(s.searchQuery[i])
    ensures request.Some? ==> request.value == s.searchQuery
  {
    Text.TrimEmpty(s.searchQuery);
    if IsBlank(s.searchQuery) then None else Some(s.searchQuery)
  }

  /**
   * handleSearch. A blank query changes nothing. Otherwise the results replace the list
   * and the wizard is at step 1; a failed call leaves list and step as they were.
   */
  function Search(s: State, results: Outcome<seq<Video>>): (t: State)
    ensures IsBlank(s.searchQuery) ==> t == s
    ensures !IsBlank(s.searchQuery) ==> !t.isSearching
    ensures !IsBlank(s.searchQuery) && results.Ok? ==> t.videos == results.value && t.currentStep == 1
    ensures results.Err? ==> t.videos == s.videos && t.currentStep == s.currentStep
    ensures t.(videos := s.videos, currentStep := s.currentStep, isSearching := s.isSearching) == s
    ensures Valid(s) ==> Valid(t)
  {
    if IsBlank(s.searchQuery) then s
    else
      match results
      case Ok(found) => s.(videos := found, currentStep := 1, isSearching := false)
      case Err => s.(isSearching := false)
  }

  /**
   * handleSelectVideo. The chosen video is selected. On success it gains exactly the
   * returned transcription and the wizard is at step 2; on failure it is selected as
   * chosen and the wizard is back at step 1.
   */
  function SelectVideo(s: State, video: Video, transcription: Outcome<string>): (t: State)
    ensures t.selectedVideo.Some? && !t.isTranscribing
    ensures transcription.Ok? ==>
      t.currentStep == 2
      && t.selectedVideo.value.transcription == Some(transcription.value)
      && t.selectedVideo.value.(transcription := video.transcription) == video
    ensures transcription.Err? ==> t.currentStep == 1 && t.selectedVideo == Some(video)
    ensures t.(selectedVideo := s.selectedVideo, currentStep := s.currentStep, isTranscribing := s.isTranscribing) == s
    ensures Valid(s) ==> Valid(t)
  {
    match transcription
    case Ok(text) =>
      s.(selectedVideo := Some(video.(transcription := Some(text))), currentStep := 2, isTranscribing := false)
    case Err =>
      s.(selectedVideo := Some(video), currentStep := 1, isTranscribing := false)
  }

  /** `selectedVideo && selectedVideo.transcription`: a video with a non-empty transcription. */
  predicate CanGenerate(selected: Option<Video>) {
    selected.Some? && selected.value.transcription.Some? && selected.value.transcription.value != []
  }

  /** The video and options sent to the generation call, when it is made at all. */
  function GenerateRequest(s: State): (request: Option<(Video, ArticleConfig)>)
    ensures request.Some? <==> CanGenerate(s.selectedVideo)
    ensures request.Some? ==> request.value.0 == s.selectedVideo.value && request.value.1 == s.config
  {
    if CanGenerate(s.selectedVideo) then Some((s.selectedVideo.value, s.config)) else None
  }

  /**
   * handleGenerateArticle. Without a selected video with a non-empty transcription nothing
   * changes. Otherwise, on success the article is shown at step 3; on failure the wizard is
   * back at step 2 and the previous article stays.
   */
  function GenerateArticle(s: State, generated: Outcome<GeneratedArticle>): (t: State)
    ensures !CanGenerate(s.selectedVideo) ==> t == s
    ensures CanGenerate(s.selectedVideo) ==> !t.isGenerating
    ensures CanGenerate(s.selectedVideo) && generated.Ok? ==> t.currentStep == 3 && t.article == Some(generated.value)
    ensures CanGenerate(s.selectedVideo) && generated.Err? ==> t.currentStep == 2 && t.article == s.article
    ensures t.(article := s.article, currentStep := s.currentStep, isGenerating := s.isGenerating) == s
    ensures Valid(s) ==> Valid(t)
  {
    if !CanGenerate(s.selectedVideo) then s
    else
      match generated
      case Ok(a) => s.(article := Some(a), currentStep := 3, isGenerating := false)
      case Err => s.(currentStep := 2, isGenerating := false)
  }

  /** What handleCopy writes to the clipboard: the article's content with its tags stripped. */
  function ClipboardText(s: State): (text: Option<string>)
    ensures text.Some? <==> s.article.Some?
    ensures text.Some? ==>
      Text.TagFree(text.value) && |text.value| <= |s.article.value.content|
      && (Text.TagFree(s.article.value.content) ==> text.value == s.article.value.content)
  {
    if s.article.Some? then
      Text.StripTagsTagFree(s.article.value.content);
      Text.StripTagsFixedPoint(s.article.value.content);
      Some(Text.StripTags(s.article.value.content))
    else None
  }

  /** handleCopy: with an article the "copied" indicator is on; without one nothing changes. */
  function Copy(s: State): (t: State)
    ensures s.article.None? ==> t == s
    ensures s.article.Some? ==> t.copySuccess
    ensures t.(copySuccess := s.copySuccess) == s
    ensures Valid(s) ==> Valid(t)
  {
    if s.article.Some? then s.(copySuccess := true) else s
  }

  /**
   * reset: back to step 1 with no video list, no selected video and no article; the query,
   * the options, the "copied" indicator and the loading flags stay.
   */
  function Reset(s: State): (t: State)
    ensures t.currentStep == 1 && t.videos == [] && t.selectedVideo.None? && t.article.None?
    ensures t.searchQuery == s.searchQuery && t.config == s.config && t.copySuccess == s.copySuccess
    ensures t.isSearching == s.isSearching && t.isTranscribing == s.isTranscribing && t.isGenerating == s.isGenerating
    ensures Valid(s) ==> Valid(t)
  {
    s.(currentStep := 1, selectedVideo := None, article := None, videos := [])
  }

  /** Resetting twice is resetting once. */
  lemma ResetIdempotent(s: State)
    ensures Reset(Reset(s)) == Reset(s)
  {
  }

  /** The search input's onChange: only the query changes. */
  function EditQuery(s: State, query: string): (t: State)
    ensures t.searchQuery == query && t.(searchQuery := s.searchQuery) == s
    ensures Valid(s) ==> Valid(t)
  {
    s.(searchQuery := query)
  }

  /** An article-style button: only the article type changes. */
  function ChooseType(s: State, kind: ArticleType): (t: State)
    ensures t.config.articleType == kind
    ensures t.config.(articleType := s.config.articleType) == s.config
    ensures t.(config := s.config) == s
    ensures Valid(s) ==> Valid(t)
  {
    s.(config := s.config.(articleType := kind))
  }

  /** The keyword input's onChange: only the keywords change, to the parsed text. */
  function EditKeywords(s: State, text: string): (t: State)
    ensures t.config.keywords == Text.ParseKeywords(text)
    ensures |t.config.keywords| == multiset(text)[','] + 1
    ensures t.config.(keywords := s.config.keywords) == s.config
    ensures t.(config := s.config) == s
    ensures Valid(s) ==> Valid(t)
  {
    s.(config := s.config.(keywords := Text.ParseKeywords(text)))
  }

  /** The four optional-section checkboxes. */
  datatype Section = FAQ | Tips | Recipes | Equipment

  /** Whether `config` asks for `section`. */
  function Includes(config: ArticleConfig, section: Section): bool {
    match section
    case FAQ => config.includeFAQ
    case Tips => config.includeTips
    case Recipes => config.includeRecipes
    case Equipment => config.includeEquipment
  }

  /** A checkbox's onChange: that section's flag becomes `checked`, nothing else changes. */
  function ToggleSection(s: State, section: Section, checked: bool): (t: State)
    ensures Includes(t.config, section) == checked
    ensures forall other: Section :: other != section ==> Includes(t.config, other) == Includes(s.config, other)
    ensures t.config.articleType == s.config.articleType && t.config.keywords == s.config.keywords
    ensures t.config.length == s.config.length
    ensures t.(config := s.config) == s
    ensures Valid(s) ==> Valid(t)
  {
    var c := s.config;
    var c' := match section
      case FAQ => c.(includeFAQ := checked)
      case Tips => c.(includeTips := checked)
      case Recipes => c.(includeRecipes := checked)
      case Equipment => c.(includeEquipment := checked);
    s.(config := c')
  }

  /** A user action, with the outcome of the AI call it awaits, if any. */
  datatype Event =
    | SearchClicked(results: Outcome<seq<Video>>)
    | VideoClicked(video: Video, transcription: Outcome<string>)
    | GenerateClicked(generated: Outcome<GeneratedArticle>)
    | CopyClicked
    | ResetClicked
    | QueryTyped(query: string)
    | TypeChosen(kind: ArticleType)
    | KeywordsTyped(text: string)
    | SectionToggled(section: Section, checked: bool)

  /** The handler an action runs. */
  function Step(s: State, e: Event): (t: State)
    ensures s.currentStep in StepIds ==> t.currentStep in StepIds
    ensures Valid(s) ==> Valid(t)
  {
    match e
    case SearchClicked(results) => Search(s, results)
    case VideoClicked(video, transcription) => SelectVideo(s, video, transcription)
    case GenerateClicked(generated) => GenerateArticle(s, generated)
    case CopyClicked => Copy(s)
    case ResetClicked => Reset(s)
    case QueryTyped(query) => EditQuery(s, query)
    case TypeChosen(kind) => ChooseType(s, kind)
    case KeywordsTyped(text) => EditKeywords(s, text)
    case SectionToggled(section, checked) => ToggleSection(s, section, checked)
  }

  /** The state after a sequence of actions, one after another. */
  function Run(s: State, events: seq<Event>): State
    decreases |events|
  {
    if events == [] then s else Run(Step(s, events[0]), events[1..])
  }

  /** Every sequence of actions keeps the wizard's invariant. */
  lemma {:induction false} RunPreservesValid(s: State, events: seq<Event>)
    requires Valid(s)
    ensures Valid(Run(s, events))
    decreases |events|
  {
    if events != [] {
      RunPreservesValid(Step(s, events[0]), events[1..]);
    }
  }

  /** Every state reachable from the mounted one satisfies the invariant; in particular its step is 1, 2 or 3. */
  lemma Reachable(events: seq<Event>)
    ensures Valid(Run(Initial(), events))
    ensures Run(Initial(), events).currentStep in StepIds
  {
    RunPreservesValid(Initial(), events);
  }
}
