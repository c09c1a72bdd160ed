# WebBuilder: a verified model of the `App` component

WebBuilder is a single React component, `App` in `src/App.jsx`. The user
describes a website. The component wraps that description in a fixed prompt
template and sends it to a language model. It then extracts the first fenced
code block from the reply and shows the resulting HTML. The HTML appears in
an editor, in an inline preview frame, or in a full-screen overlay at one of
three viewport widths. The code can be downloaded as a file.

This project models the logic under the JSX and proves what it does:

- `jsstring.dfy` (module `JsString`) has the two pieces of JavaScript string
  behaviour the component relies on: `String.prototype.trim` and the regular
  expression class `\w`. `trim` removes ECMAScript WhiteSpace and
  LineTerminator characters.
- `extractor.dfy` (module `Extractor`) has `extractCode`, modelled twice:
  - Declaratively, as the set of matches of
    ```` /```(?:\w+)?\n?([\s\S]*?)```/ ```` together with the order in which
    a backtracking matcher tries them. That order is leftmost fence first,
    then the longest (greedy) opener, then the nearest (lazy) closing fence.
  - As a hand-written scanner, proved to return exactly the match JavaScript
    reports.
- `prompt.dfy` (module `PromptComposer`) has the template literal of
  `getResponse` and its inverse. The instruction text is written as its four
  paragraphs of lines. It is the text of src/App.jsx:68-96, with the
  typographic apostrophe as `\U{2019}`. Long lines are split into pieces.
  The properties are proved for a template over any instruction text.
  `Compose` and `PromptOf` apply them to the component's own text.
- `preview.dfy` (module `Preview`) has what is shown for a state:
  - the inline view ternary;
  - the full-screen overlay and its width ternary;
  - the send button condition;
  - the file Download saves, given as (filename, MIME type, content).
- `appstate.dfy` (module `AppState`) has the six `useState` fields as one
  value. Each event handler is a function from the old state to the new one.
  `Run` applies a sequence of events. Lemmas cover single events, whole
  generation cycles and arbitrary event sequences.
- `app.dfy` (module `WebBuilder`) has class `App`, which holds the six
  fields. Each handler is a method that updates them in place and is proved
  against the state function of `AppState`. `getResponse` is split at its
  `await`: `StartResponse` is the guard and `setLoading(true)`, and
  `CompleteResponse` handles the reply. The model call happens between them.
- `option.dfy` (module `Options`) has the optional-value datatype.

## Behaviour of the code worth noting

- Code view takes precedence over the loader. `isShowCode` is checked before
  `loading` (src/App.jsx:182, src/App.jsx:190), so the editor stays up
  while a request is loading (`AppState.CodeViewHidesLoader`).
- The empty-prompt guard is the exact comparison `prompt === ""`
  (src/App.jsx:62). A prompt of spaces only is sent
  (`AppState.NonEmptyPromptStartsLoading`).
- The send icon is not rendered while `prompt === ""` (src/App.jsx:133), and
  it is the only caller of `getResponse`. So the guard at src/App.jsx:62
  cannot be reached from the page. `AppState.EmptyPromptIsNoOp` models the
  function as written, and `Run` allows `SendClicked` with an empty prompt.
  This over-approximation is harmless, because that event changes nothing.
- `getResponse` has no `try`/`catch`. A rejected call skips `setCode` and
  `setLoading(false)`, so the code is unchanged and `loading` stays true
  (`AppState.RejectedCycle`).
- The send button is hidden only while the prompt is empty
  (src/App.jsx:133). Nothing prevents a second request while one is loading
  (`AppState.SendWhileLoading`).

## Model

| member | source | states |
|---|---|---|
| JsString.TrimStartDropsLeadingWhitespace | src/App.jsx:48 | removing leading whitespace leaves a suffix of the input; everything dropped is whitespace; the rest does not start with whitespace |
| JsString.TrimEndDropsTrailingWhitespace | src/App.jsx:48 | removing trailing whitespace leaves a prefix of the input; everything dropped is whitespace; the rest does not end with whitespace |
| JsString.Trim | src/App.jsx:48 | `trim` never returns a string with whitespace at either end, and never a longer one |
| JsString.TrimIsSlice | src/App.jsx:48 | what `trim` returns is a contiguous slice of the input with only whitespace before and after it |
| JsString.TrimKeepsTrimmed | src/App.jsx:48 | a string without whitespace at its ends is returned unchanged by `trim` |
| JsString.TrimIdempotent | src/App.jsx:48 | trimming twice is trimming once |
| Extractor.FindFenceFindsFirst | src/App.jsx:47 | the scanner's fence search returns a fence with no fence between the start position and it, or reports that there is none |
| Extractor.WordEndIsLongestRun | src/App.jsx:47 | the tag scan takes every `\w` character up to the first other one (the greedy `(?:\w+)?`) |
| Extractor.OpenerEndSkipsOpener | src/App.jsx:47 | the text skipped after the opening fence matches `(?:\w+)?\n?` and holds no backtick |
| Extractor.OpenerEndIsLongest | src/App.jsx:47 | no opener that matches after a fence is longer than the scanner's, as the greedy quantifiers require |
| Extractor.FirstBlockFindsFirstFences | src/App.jsx:47 | the scanner's block opens at the first fence and closes at the first fence after the opener; it finds no block exactly when no fence is followed by a non-overlapping fence |
| Extractor.FirstBlockIsRegexMatch | src/App.jsx:47 | the scanner's block is a match of the regular expression and precedes every other match in the backtracking order; it finds none exactly when the expression has no match |
| Extractor.RegexMatchesIffClosedFence | src/App.jsx:47-48 | the expression matches exactly when some fence is followed later by a non-overlapping one; an unterminated fence is no match |
| Extractor.ExtractCode | src/App.jsx:46-49 | the extracted code never has whitespace at either end |
| Extractor.ExtractCodeOfRegexMatch | src/App.jsx:47-48 | when the expression matches, the result is the trimmed capture group of the match JavaScript reports |
| Extractor.ExtractCodeFallback | src/App.jsx:48 | when the expression does not match, the result is the trimmed reply |
| Extractor.ExtractCodeIdempotentWithoutFences | src/App.jsx:47-48 | on text without fences the result is the trimmed text, and extracting again changes nothing |
| Extractor.ExtractCodeStable | src/App.jsx:47-48 | whenever the result holds no complete fenced block, extracting it again returns it unchanged |
| Extractor.ExtractCodeOfFencedBlock | src/App.jsx:47-48 | round trip: prose, then "```" + tag + line feed + document + "```", then anything, gives back the trimmed document, provided the prose and the document hold no fence |
| Extractor.ExtractCodeIgnoresTrailingText | src/App.jsx:47-48 | text appended after a complete block, including further blocks, does not change the result |
| PromptComposer.DescriptionIn | src/App.jsx:68-98 | a request yields a description exactly when it starts with the preamble (instructions, blank line, `Website prompt: `), and is then that preamble followed by the description |
| PromptComposer.DescriptionInRequestFor | src/App.jsx:68-98 | decomposing a composed request gives back the description verbatim |
| PromptComposer.RequestForDescriptionIn | src/App.jsx:68-98 | every request that yields a description is the composition of that description |
| PromptComposer.RequestForInjective | src/App.jsx:68-98 | two requests over the same instructions are equal exactly when their descriptions are |
| PromptComposer.RequestForShape | src/App.jsx:68-98 | every request starts with the same preamble whatever the description; the preamble ends with the label `Website prompt: `; the description is the suffix, verbatim |
| PromptComposer.PromptOfCompose | src/App.jsx:68-98 | with the component's own instruction text, the description is recovered from the request verbatim |
| Preview.FullScreenWidth | src/App.jsx:261-266 | the frame is `100%` wide exactly for `desktop`, `768px` exactly for `tablet`, and `375px` for every other mode |
| Preview.InlineViewOf | src/App.jsx:182-206 | exactly one view is chosen: the editor iff code view is on, the loader iff code view is off and loading, the frame otherwise; editor and frame show the current code |
| Preview.OverlayOf | src/App.jsx:210-276 | the overlay is open exactly when `isInNewTab` is set, and then renders the current code at the width of the selected mode |
| Preview.SendButtonShown | src/App.jsx:133 | the send button is shown exactly when the prompt is not empty |
| Preview.DownloadOf | src/App.jsx:51-53 | Download saves `webBuilderCode.html` as `text/plain` with exactly the code as content |
| AppState.ModeName | src/App.jsx:222-240 | every viewport button stores one of `desktop`, `tablet`, `mobile` |
| AppState.EmptyPromptIsNoOp | src/App.jsx:62-64 | with the exact empty prompt no field changes and only the notice is produced; nothing is sent |
| AppState.NonEmptyPromptStartsLoading | src/App.jsx:62-67 | any other prompt, spaces only included, sets `loading`, changes no other field and dispatches that prompt |
| AppState.ResolvedCycle | src/App.jsx:100-106 | a send followed by a reply sets the code to what `extractCode` finds in the reply and ends loading, leaving every other field as it was |
| AppState.RejectedCycle | src/App.jsx:100-106 | a send followed by a rejection leaves the code unchanged and `loading` true, so with code view off the loader stays up |
| AppState.SendWhileLoading | src/App.jsx:133 | while a request is loading the send button is still shown, and a second send dispatches again |
| AppState.CodeViewHidesLoader | src/App.jsx:182-190 | with code view on the editor is shown even while loading |
| AppState.ToggleCodeTwiceRestores | src/App.jsx:171 | the Show Code click flips only `isShowCode`, and two clicks restore the state |
| AppState.OverlayControlsAreIndependent | src/App.jsx:157-250 | opening the overlay (line 157) or closing it (line 250) changes only `isInNewTab`; a viewport button (lines 222-240) changes only `previewMode` and gives the overlay that button's width; neither changes the inline view |
| AppState.DownloadAfterEdit | src/App.jsx:184 | after an edit through the editor, Download saves exactly the edited text |
| AppState.RunKeepsKnownMode | src/App.jsx:222-240 | after any sequence of events `previewMode` is still one of the three button values |
| AppState.RunCodeComesFromAWrite | src/App.jsx:104 | after any sequence of events the code is the original one, or exactly what one editor change or one extracted reply wrote |
| AppState.RunWithoutWritesKeepsCode | src/App.jsx:104 | events that write no code leave the code as it was |
| WebBuilder.App.constructor | src/App.jsx:20-42 | the initial state: empty prompt, the placeholder document, nothing loading, preview shown, overlay closed, desktop mode |
| WebBuilder.App.OnPromptChange | src/App.jsx:128 | typing replaces the prompt and nothing else |
| WebBuilder.App.StartResponse | src/App.jsx:62-67 | the fields change as `AppState.Send` says and the outcome is the notice or the dispatch of the prompt |
| WebBuilder.App.CompleteResponse | src/App.jsx:100-106 | a reply sets the code to its extracted code and ends loading; a rejection changes nothing |
| WebBuilder.App.OnEditorChange | src/App.jsx:184 | an editor change replaces the code and nothing else |
| WebBuilder.App.OnShowCodeClick | src/App.jsx:171 | the Show Code click flips `isShowCode` and nothing else |
| WebBuilder.App.OnOpenInNewTab | src/App.jsx:157 | Open in new tab sets `isInNewTab` and nothing else |
| WebBuilder.App.OnCloseFullScreen | src/App.jsx:250 | the close button clears `isInNewTab` and nothing else |
| WebBuilder.App.OnViewportClick | src/App.jsx:222-240 | a viewport button stores its mode and nothing else |
| WebBuilder.App.DownloadCode | src/App.jsx:51-58 | Download returns the file `DownloadOf` gives for the current code, whose content is exactly that code, and changes no field |
| WebBuilder.App.InlineView | src/App.jsx:182-206 | the inline view of the object is the one its state determines |
| WebBuilder.App.FullScreen | src/App.jsx:210-276 | the overlay of the object is the one its state determines |
| WebBuilder.GenerateAndInspect | src/App.jsx:62-106 | a generation cycle with a reply, two Show Code clicks, Open in new tab and the tablet button: the code is the extracted code, loading has ended, code view is as before, the overlay shows that code at `768px`, and Download saves exactly it |

## Left out

- The Gemini client, the API key and the call `ai.models.generateContent`
  (src/App.jsx:14-15, src/App.jsx:44, src/App.jsx:100-103) are a network
  call into a foreign library. The reply is a parameter, `Reply`: a text or
  a rejection. The model identifier passed to the call is not modelled.
- The asynchronous interleaving of `getResponse` is not modelled. It is two
  sequential steps, and neither the event traces nor the class require a
  reply to follow a dispatch.
- The `toast` notification (src/App.jsx:63) is the outcome
  `EmptyPromptNotice`; its message text is not modelled.
- The Monaco editor and the `FadeLoader` spinner are third-party widgets.
  The view names only which of editor, loader or frame is shown, and what
  the editor and the frame display.
- The JSX markup, icons, CSS classes, the `active` highlight of the selected
  viewport button, the overlay's margin and its width transition are
  presentation only.
- `Blob`, `URL.createObjectURL`, the anchor element and its click
  (src/App.jsx:53-58) are browser file I/O. Download is the file it would
  save.
- `console.log` (src/App.jsx:105) is output only.
- JavaScript strings are UTF-16 code unit sequences; the model uses Dafny
  characters. The fences, `\w` and every character `trim` removes are single
  code units, so the two views agree except on unpaired surrogates, which
  are not modelled.
- WebBuilder.App.StartResponse: the outcome carries the dispatched
  description, not the request text. The text the model receives is
  `PromptComposer.Compose` of it, and `PromptComposer.PromptOfCompose` states
  what it carries.
- PromptComposer.RequestForShape, PromptComposer.RequestForInjective and
  PromptComposer.RequestForDescriptionIn are proved for a template over any
  instruction text. `Compose` is that template over the component's own
  text, so they hold for it. Only `PromptOfCompose` is restated for the
  concrete text, because the 2,300-character literal makes each such
  restatement costly to verify.
