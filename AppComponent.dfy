/**
 * The App component of App.tsx as an object: its state cells are fields, and each handler
 * is a method that updates them in the order the handler calls their setters. Every
 * method leaves the state its Wizard transition gives.
 */
module AppComponent {
  import opened Types
  import Text
  import Wizard

  class App {
    var currentStep: int
    var searchQuery: string
    var videos: seq<Video>
    var selectedVideo: Option<Video>
    var isSearching: bool
    var isTranscribing: bool
    var isGenerating: bool
    var article: Option<GeneratedArticle>
    var copySuccess: bool
    var config: ArticleConfig

    /** The current values of all state cells. */
    function State(): Wizard.State
      reads this
    {
      Wizard.State(
        currentStep, searchQuery, videos, selectedVideo, isSearching, isTranscribing,
        isGenerating, article, copySuccess, config)
    }

    /** The wizard's invariant holds of the current state. */
    predicate Valid()
      reads this
    {
      Wizard.Valid(State())
    }

    /** Mounting: every cell holds its initial value. */
    constructor ()
      ensures State() == Wizard.Initial() && Valid()
    {
      var init := Wizard.Initial();
      currentStep := init.currentStep;
      searchQuery := init.searchQuery;
      videos := init.videos;
      selectedVideo := init.selectedVideo;
      isSearching := init.isSearching;
      isTranscribing := init.isTranscribing;
      isGenerating := init.isGenerating;
      article := init.article;
      copySuccess := init.copySuccess;
      config := init.config;
    }

    /** handleSearch; `request` is the query the search call is made with, if it is made. */
    method HandleSearch(results: Outcome<seq<Video>>) returns (request: Option<string>)
      modifies this
      ensures request == Wizard.SearchRequest(old(State()))
      ensures State() == Wizard.Search(old(State()), results)
      ensures old(Valid()) ==> Valid()
    {
      if Wizard.IsBlank(searchQuery) {
        return None;
      }
      isSearching := true;
      request := Some(searchQuery);
      match results {
        case Ok(found) =>
          videos := found;
          currentStep := 1;
        case Err =>
      }
      isSearching := false;
    }

    /** handleSelectVideo. */
    method HandleSelectVideo(video: Video, transcription: Outcome<string>)
      modifies this
      ensures State() == Wizard.SelectVideo(old(State()), video, transcription)
      ensures old(Valid()) ==> Valid()
    {
      selectedVideo := Some(video);
      isTranscribing := true;
      currentStep := 2;
      match transcription {
        case Ok(text) =>
          selectedVideo := match selectedVideo
            case Some(prev) => Some(prev.(transcription := Some(text)))
            case None => None;
        case Err =>
          currentStep := 1;
      }
      isTranscribing := false;
    }

    /** handleGenerateArticle; `request` is the video and options the call is made with, if it is made. */
    method HandleGenerateArticle(generated: Outcome<GeneratedArticle>)
      returns (request: Option<(Video, ArticleConfig)>)
      modifies this
      ensures request == Wizard.GenerateRequest(old(State()))
      ensures State() == Wizard.GenerateArticle(old(State()), generated)
      ensures old(Valid()) ==> Valid()
    {
      if !Wizard.CanGenerate(selectedVideo) {
        return None;
      }
      isGenerating := true;
      currentStep := 3;
      request := Some((selectedVideo.value, config));
      match generated {
        case Ok(a) =>
          article := Some(a);
        case Err =>
          currentStep := 2;
      }
      isGenerating := false;
    }

    /** handleCopy; `clipboard` is the text written to the clipboard, if any. */
    method HandleCopy() returns (clipboard: Option<string>)
      modifies this
      ensures clipboard == Wizard.ClipboardText(old(State()))
      ensures State() == Wizard.Copy(old(State()))
      ensures old(Valid()) ==> Valid()
    {
      clipboard := None;
      if article.Some? {
        var text := Text.StripTags(article.value.content);
        clipboard := Some(text);
        copySuccess := true;
      }
    }

    /** reset. */
    method Reset()
      modifies this
      ensures State() == Wizard.Reset(old(State()))
      ensures old(Valid()) ==> Valid()
    {
      currentStep := 1;
      selectedVideo := None;
      article := None;
      videos := [];
    }

    /** The search input's onChange. */
    method EditQuery(query: string)
      modifies this
      ensures State() == Wizard.EditQuery(old(State()), query)
      ensures old(Valid()) ==> Valid()
    {
      searchQuery := query;
    }

    /** An article-style button's onClick. */
    method ChooseType(kind: ArticleType)
      modifies this
      ensures State() == Wizard.ChooseType(old(State()), kind)
      ensures old(Valid()) ==> Valid()
    {
      config := config.(articleType := kind);
    }

    /** The keyword input's onChange. */
    method EditKeywords(text: string)
      modifies this
      ensures State() == Wizard.EditKeywords(old(State()), text)
      ensures old(Valid()) ==> Valid()
    {
      config := config.(keywords := Text.ParseKeywords(text));
    }

    /** A section checkbox's onChange. */
    method ToggleSection(section: Wizard.Section, checked: bool)
      modifies this
      ensures State() == Wizard.ToggleSection(old(State()), section, checked)
      ensures old(Valid()) ==> Valid()
    {
      match section {
        case FAQ => config := config.(includeFAQ := checked);
        case Tips => config := config.(includeTips := checked);
        case Recipes => config := config.(includeRecipes := checked);
        case Equipment => config := config.(includeEquipment := checked);
      }
    }
  }
}
