/** The `App` component (src/App.jsx:19-279) as an object: its six state
    fields are updated in place by one method per event handler.
    `getResponse` is split at its `await` into `StartResponse` and
    `CompleteResponse`; the call to the model happens between the two. */
module WebBuilder {
  import opened Extractor
  import opened Preview
  import opened AppState

  class App {
    var prompt: string
    var code: string
    var loading: bool
    var isShowCode: bool
    var isInNewTab: bool
    var previewMode: string

    /** The fields as one state value. */
    function State(): AppState.State
      reads this
    {
      AppState.State(prompt, code, loading, isShowCode, isInNewTab, previewMode)
    }

    /** The `useState` initial values (src/App.jsx:20-42). */
    constructor ()
      ensures State() == Initial
    {
      prompt := "";
      isShowCode := false;
      isInNewTab := false;
      loading := false;
      previewMode := Desktop;
      code := InitialCode;
    }

    /** The textarea's change handler (src/App.jsx:128). */
    method OnPromptChange(text: string)
      modifies this
      ensures State() == SetPrompt(old(State()), text)
      ensures prompt == text
    {
      prompt := text;
    }

    /** The start of `getResponse` (src/App.jsx:62-99): with the exact empty
        prompt, the empty-prompt notice and no state change; otherwise
        `loading` is set and the prompt is dispatched, the model receiving
        `PromptComposer.Compose(prompt)`. */
    method StartResponse() returns (outcome: SendOutcome)
      modifies this
      ensures State() == Send(old(State()))
      ensures outcome == SendOutcomeOf(old(State()))
    {
      if prompt == "" {
        outcome := EmptyPromptNotice;
        return;
      }
      loading := true;
      outcome := Dispatched(prompt);
    }

    /** The end of `getResponse` (src/App.jsx:100-106): a reply sets the code
        to what `extractCode` finds in it, then ends loading; a rejection
        leaves every field as it was. */
    method CompleteResponse(reply: Reply)
      modifies this
      ensures State() == Complete(old(State()), reply)
      ensures reply.Resolved? ==> code == ExtractCode(reply.text) && !loading
      ensures reply.Rejected? ==> code == old(code) && loading == old(loading)
    {
      match reply
      case Resolved(text) =>
        code := ExtractCode(text);
        loading := false;
      case Rejected =>
    }

    /** The editor's change handler (src/App.jsx:184). */
    method OnEditorChange(text: string)
      modifies this
      ensures State() == EditCode(old(State()), text)
      ensures code == text
    {
      code := text;
    }

    /** The Show Code / Hide Code button (src/App.jsx:171). */
    method OnShowCodeClick()
      modifies this
      ensures State() == ToggleCode(old(State()))
      ensures isShowCode == !old(isShowCode)
    {
      isShowCode := !isShowCode;
    }

    /** Open in new tab (src/App.jsx:157). */
    method OnOpenInNewTab()
      modifies this
      ensures State() == SetFullScreen(old(State()), true)
    {
      isInNewTab := true;
    }

    /** The overlay's close button (src/App.jsx:250). */
    method OnCloseFullScreen()
      modifies this
      ensures State() == SetFullScreen(old(State()), false)
    {
      isInNewTab := false;
    }

    /** The desktop, tablet and mobile buttons (src/App.jsx:222,
        src/App.jsx:231, src/App.jsx:240). */
    method OnViewportClick(v: Viewport)
      modifies this
      ensures State() == SelectViewport(old(State()), v)
      ensures previewMode == ModeName(v)
    {
      previewMode := ModeName(v);
    }

    /** `downloadCode` (src/App.jsx:51-58): the file it saves holds the
        current code; no field changes. */
    method DownloadCode() returns (file: DownloadFile)
      ensures file == DownloadOf(code)
      ensures file.content == code
    {
      file := DownloadOf(code);
    }

    /** What the inline preview area shows (src/App.jsx:182-206). */
    function InlineView(): (view: InlineView)
      reads this
      ensures view == ViewOf(State())
    {
      InlineViewOf(code, loading, isShowCode)
    }

    /** What the full-screen overlay shows (src/App.jsx:210-276). */
    function FullScreen(): (overlay: Overlay)
      reads this
      ensures overlay == OverlayOfState(State())
    {
      OverlayOf(code, isInNewTab, previewMode)
    }
  }

  /** A client of `App`: the usual generation cycle and the two toggles. */
  method GenerateAndInspect(app: App, description: string, replyText: string)
      returns (file: DownloadFile)
    requires description != ""
    modifies app
    ensures app.code == ExtractCode(replyText)
    ensures !app.loading && app.isShowCode == old(app.isShowCode)
    ensures app.isInNewTab && app.previewMode == Tablet
    ensures app.FullScreen() == Open("768px", ExtractCode(replyText))
    ensures file == DownloadFile("webBuilderCode.html", "text/plain", ExtractCode(replyText))
  {
    app.OnPromptChange(description);
    var outcome := app.StartResponse();
    assert outcome == Dispatched(description);
    app.CompleteResponse(Resolved(replyText));
    app.OnShowCodeClick();
    app.OnShowCodeClick();
    app.OnOpenInNewTab();
    app.OnViewportClick(TabletButton);
    file := app.DownloadCode();
  }
}
