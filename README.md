# Article wizard: a Dafny model

The application is a single-page front end. It takes the user through three steps:
1. Search for videos on a topic.
2. Pick a video, which fetches an AI-written transcription of it.
3. Set the article options and generate an SEO article from the transcription.

The generated article can then be copied to the clipboard as plain text. Every search
result, transcription and article comes from a generative-AI service. The application's
own logic is the wizard's state handling and two small string operations. This project
models both and proves properties of them.

- `Types.dfy` (module `Types`): the records of `types.ts`, and `Outcome`, which is what
  an awaited service call delivers: `Ok(value)` or `Err` (a thrown error).
- `Text.dfy` (module `Text`): these JavaScript operations, on Dafny strings:
  - `String.prototype.trim`, with ECMAScript's whitespace and line-terminator set;
  - `split` on one character, and `join`;
  - the keyword parser `text.split(',').map(k => k.trim())`;
  - the tag stripper `content.replace(/<[^>]*>/g, '')`.

  The proofs show that stripping leaves no tag, leaves a string unchanged exactly when it
  holds no tag, and is idempotent. They show that split and join are inverses. They show
  that a keyword list shown with `join(', ')` and parsed back comes out unchanged.
- `Wizard.dfy` (module `Wizard`): the component's state cells as a `State` value. Each
  handler is a pure transition function. The invariant `Valid` holds after every
  sequence of handler runs, each run complete before the next one starts, because every
  handler preserves it (`Step`, `RunPreservesValid`, `Reachable`). `Valid` says:
  - the step is 1, 2 or 3;
  - from step 2 on, a video with a transcription is selected;
  - at step 3, the transcription is non-empty and an article is present;
  - no call is in flight;
  - the keyword list is non-empty, and every keyword is trimmed and has no comma.
- `AppComponent.dfy` (module `AppComponent`): class `App`. Its fields are the state
  cells, and its methods are the handlers. Each method assigns the cells in the order
  the handler calls their setters. Its `ensures` ties the new state to the `Wizard`
  transition of the old state, including what the call is sent and what goes to the
  clipboard.

Each network call is a parameter of the handler that awaits it. The parameter holds the
call's outcome. The model runs each handler as one step, from its start to the end of
its `finally` block.

The model follows the code in three details where a reader might expect otherwise:
- A failed search leaves the previous video list in place. It does not empty it.
- `reset` clears only the step, the selected video, the article and the video list. The
  query, the options, the "copied" indicator and the loading flags keep their values.
- A successful search returns to step 1 but keeps the selected video and the article.

## Model

| member | source | states |
|---|---|---|
| `Text.Trim` | App.tsx:266 | the result is the slice of the input after its leading whitespace; what follows the slice is whitespace; neither end of the result is whitespace; a trimmed input is returned unchanged |
| `Text.TrimEmpty` | App.tsx:33 | `trim()` gives the empty (falsy) string exactly when the query is all whitespace |
| `Text.TrimLeadingSpace` | App.tsx:265-266 | the space that `join(', ')` puts before a trimmed keyword is trimmed away again |
| `Text.Split` | App.tsx:266 | `split(',')` gives one more piece than the text has commas, and no piece holds a comma |
| `Text.JoinSplit` | App.tsx:266 | joining the pieces of a split with the separator gives back the original text |
| `Text.SplitJoin` | App.tsx:265-266 | splitting a join of a non-empty list of separator-free pieces gives back the list |
| `Text.ParseKeywords` | App.tsx:266 | the keyword list has exactly one more element than the text has commas; every keyword is trimmed and holds no comma |
| `Text.ParseKeywordsPieces` | App.tsx:266 | keyword k is piece k of the comma split, trimmed |
| `Text.KeywordsDisplayRoundTrip` | App.tsx:265-266 | a non-empty list of trimmed, comma-free keywords, shown as `join(', ')` and parsed back, is unchanged |
| `Text.StripTags` | App.tsx:94 | the result is never longer than the input, and every character in it comes from the input |
| `Text.StripTagsKeep` | App.tsx:94 | a character other than '<' at the front is kept, and the scan goes on after it |
| `Text.StripTagsDrop` | App.tsx:94 | a '<', anything without '>', then '>' is deleted as one match, even when it holds further '<' |
| `Text.StripTagsTagFree` | App.tsx:94 | the stripped text holds no '<' with a '>' anywhere after it |
| `Text.TagFreeUnchanged` | App.tsx:94 | a string with no tag is left unchanged |
| `Text.StripTagsShortens` | App.tsx:94 | a string that holds a tag gets strictly shorter |
| `Text.StripTagsFixedPoint` | App.tsx:94 | stripping leaves a string unchanged if and only if the string holds no tag |
| `Text.StripTagsIdempotent` | App.tsx:94 | stripping twice gives the same text as stripping once |
| `Text.NoOpenBracketUnchanged` | App.tsx:94 | a text with no '<' is left unchanged |
| `Text.StripTagsNestedOpen` | App.tsx:94 | `"<a<b>"` vanishes entirely: the match runs from the first '<' to the first '>' |
| `Text.StripTagsClosing` | App.tsx:94 | a closing tag alone vanishes |
| `Text.StripTagsTextBeforeTag` | App.tsx:94 | text in front of a closing tag is kept |
| `Wizard.KeywordsShownRoundTrip` | App.tsx:265-266 | in every valid state, the keyword input's text `keywords.join(', ')` parses back to exactly the keywords |
| `Wizard.Initial` | App.tsx:8-30 | the mounted state is at step 1 with no videos, no selected video and no article, and satisfies the invariant |
| `Wizard.SearchRequest` | App.tsx:32-36 | no search call is made exactly when the query is all whitespace; otherwise the call gets the untrimmed query |
| `Wizard.Search` | App.tsx:32-45 | a blank query changes nothing; a successful search replaces the video list with the results and sets step 1; a failed search leaves the list and the step; afterwards the wizard is not searching; no other cell changes; the invariant is kept |
| `Wizard.SelectVideo` | App.tsx:47-67 | the chosen video is selected and the wizard is not transcribing afterwards; on success the step is 2 and the video gains exactly the returned transcription, every other field unchanged; on failure the step is back to 1 and the video is selected as chosen; no other cell changes; the invariant is kept |
| `Wizard.GenerateRequest` | App.tsx:69-76 | the generation call is made exactly when a video with a non-empty transcription is selected, with that video and the current options |
| `Wizard.GenerateArticle` | App.tsx:69-90 | a no-op without a selected video with a non-empty transcription; otherwise the article is set at step 3 on success, or the step is back to 2 with the old article on failure; the wizard is not generating afterwards; no other cell changes; the invariant is kept |
| `Wizard.ClipboardText` | App.tsx:92-95 | text goes to the clipboard exactly when there is an article; that text holds no tag, is no longer than the content, and is the content itself when the content holds no tag |
| `Wizard.Copy` | App.tsx:92-99 | without an article nothing changes; with one, only the "copied" indicator changes, and it turns on |
| `Wizard.Reset` | App.tsx:101-107 | step 1, with no video list, no selected video and no article; the query, the options, the "copied" indicator and the loading flags are kept; the invariant is kept |
| `Wizard.ResetIdempotent` | App.tsx:101-105 | resetting twice is the same as resetting once |
| `Wizard.EditQuery` | App.tsx:169 | only the search query changes |
| `Wizard.ChooseType` | App.tsx:246-249 | only the article type of the options changes |
| `Wizard.EditKeywords` | App.tsx:266 | only the keywords change; they become the parsed text, one more than the text has commas |
| `Wizard.ToggleSection` | App.tsx:279-289 | the toggled section flag becomes the checkbox's value; every other option is unchanged; nothing else changes |
| `Wizard.Step` | App.tsx:109-113 | every handler keeps the step among the ids 1, 2, 3, and keeps the invariant |
| `Wizard.RunPreservesValid` | App.tsx:8-107 | any sequence of user actions, each with any call outcome, keeps the invariant |
| `Wizard.Reachable` | App.tsx:8-113 | every state reachable from the mounted one satisfies the invariant, so its step is 1, 2 or 3 |
| `AppComponent.App.constructor` | App.tsx:8-30 | every state cell holds its initial value |
| `AppComponent.App.HandleSearch` | App.tsx:32-45 | the new state is `Wizard.Search` of the old one, and the returned request is the query the call is made with, if it is made |
| `AppComponent.App.HandleSelectVideo` | App.tsx:47-67 | the new state is `Wizard.SelectVideo` of the old one; the transcription is merged into the selected video as an updater over its current value |
| `AppComponent.App.HandleGenerateArticle` | App.tsx:69-90 | the new state is `Wizard.GenerateArticle` of the old one, and the returned request is the video and options the call is made with, if it is made |
| `AppComponent.App.HandleCopy` | App.tsx:92-99 | the new state is `Wizard.Copy` of the old one; the returned text is what is written to the clipboard, which is the stripped content |
| `AppComponent.App.Reset` | App.tsx:101-107 | the new state is `Wizard.Reset` of the old one |
| `AppComponent.App.EditQuery` | App.tsx:169 | the new state is `Wizard.EditQuery` of the old one |
| `AppComponent.App.ChooseType` | App.tsx:249 | the new state is `Wizard.ChooseType` of the old one |
| `AppComponent.App.EditKeywords` | App.tsx:266 | the new state is `Wizard.EditKeywords` of the old one |
| `AppComponent.App.ToggleSection` | App.tsx:289 | the new state is `Wizard.ToggleSection` of the old one |

## Left out

- Rendering: the JSX, the styling, the icons and the inline style block. This includes
  the SEO-score ring's floating-point arithmetic and the raw-HTML injection of the
  article. None of it changes state.
- The UI gating of actions. The step-1 section ignores clicks away from step 1, buttons
  are disabled while loading, and the step-2 and step-3 sections are hidden before their
  step. The invariant is proved for every order of actions, so it also holds for the
  orders the UI allows.
- The time while a call is in flight. A handler runs as one step. The model therefore
  never shows a loading flag set to true, the step advanced before its call returns, or
  one handler interleaved with another. The invariant `Valid` is a property of these
  complete runs only. The app itself can leave it. For example, the navbar reset button
  is never disabled (App.tsx:121, App.tsx:139). Reset pressed while a generation call is
  pending, followed by a failure of that call, ends at step 2 with no selected video.
- Strings containing a lone surrogate. A JavaScript string is a sequence of UTF-16 code
  units, and a Dafny `string` is a sequence of Unicode scalar values. A string with an
  unpaired surrogate, which `JSON.parse` of a service response can produce, has no
  counterpart in the model.
- Scrolling and timers (`scrollIntoView`, `window.scrollTo`, the `setTimeout` calls).
  The 2-second reset of the "copied" indicator is also left out, so the indicator simply
  turns on.
- Foreign browser calls: the clipboard write is modelled as the text it writes;
  `console.error` and `alert` are left out.
- The AI service client (services/geminiService.ts). Its three calls are arbitrary
  `Ok`/`Err` outcomes. A failed JSON parse during search becomes `Ok([])`. The fallback
  text that keeps a transcription non-empty is not assumed.
- The article's numeric fields are JavaScript numbers (floating point). The model keeps
  them as `int`, because nothing in the application computes with them.
- The article-style buttons offer guide, tutorial, list and comparison. `ChooseType`
  accepts every `ArticleType`, including the `News` that no button offers. No control
  changes the article length.
