/** The component's state (the six `useState` fields of src/App.jsx:20-42)
    as one value, each event handler as a function from the old state to the
    new one, and what holds across any sequence of events. */
module AppState {
  import opened Extractor
  import opened Preview

  /** The six state fields of the component. */
  datatype State = State(
    prompt: string,
    code: string,
    loading: bool,
    isShowCode: bool,
    isInNewTab: bool,
    previewMode: string)

  /** The placeholder document the code starts as (src/App.jsx:25-42). */
  const InitialCode: string :=
    "\n"
    + "<!DOCTYPE html>\n"
    + "<html lang=\"en\">\n"
    + "<head>\n"
    + "  <meta charset=\"UTF-8\">\n"
    + "  <meta name=\"viewport\" content=\"width=device-width, initial-scale=1.0\">\n"
    + "  <title>Document</title>\n"
    + "  <script src=\"https://cdn.tailwindcss.com\"></script>\n"
    + "</head>\n"
    + "<body class=\"bg-gray-50\">\n"
    + "  <div class=\"max-w-6xl mx-auto px-6 py-6\">\n"
    + "    <h1 class=\"text-[30px] font-[700]\">Welcome to WebBuilder</h1>\n"
    + "  </div>\n"
    + "</body>\n"
    + "\n"
    + "    "

  /** The state on first render: empty prompt, placeholder code, nothing
      loading, preview shown, overlay closed, desktop viewport. */
  const Initial: State := State("", InitialCode, false, false, false, Desktop)

  /** The three viewport buttons of the overlay. */
  datatype Viewport = DesktopButton | TabletButton | MobileButton

  /** The string each viewport button stores. */
  function ModeName(v: Viewport): (mode: string)
    ensures mode == Desktop || mode == Tablet || mode == Mobile
  {
    match v
    case DesktopButton => Desktop
    case TabletButton => Tablet
    case MobileButton => Mobile
  }

  /** What the generation call delivered: a reply text, or a rejection. */
  datatype Reply = Resolved(text: string) | Rejected

  /** What the start of `getResponse` does besides changing state: show the
      empty-prompt notice, or send the model the request
      `PromptComposer.Compose(description)`. */
  datatype SendOutcome = EmptyPromptNotice | Dispatched(description: string)

  /** The textarea's change handler (src/App.jsx:128). */
  function SetPrompt(s: State, text: string): State {
    s.(prompt := text)
  }

  /** The start of `getResponse` (src/App.jsx:62-67): nothing happens for
      the exact empty prompt; otherwise `loading` becomes true. */
  function Send(s: State): State {
    if s.prompt == "" then s else s.(loading := true)
  }

  /** What the start of `getResponse` emits (src/App.jsx:62-64, 68-99): the
      notice for the exact empty prompt, otherwise a request for the prompt. */
  function SendOutcomeOf(s: State): SendOutcome {
    if s.prompt == "" then EmptyPromptNotice else Dispatched(s.prompt)
  }

  /** The end of `getResponse` (src/App.jsx:104-106): a reply replaces the
      code by what `extractCode` finds in it and ends loading. A rejection
      throws out of the function, so nothing after the call runs. */
  function Complete(s: State, reply: Reply): State {
    match reply
    case Resolved(text) => s.(code := ExtractCode(text), loading := false)
    case Rejected => s
  }

  /** The editor's change handler (src/App.jsx:184). */
  function EditCode(s: State, text: string): State {
    s.(code := text)
  }

  /** The Show Code / Hide Code button (src/App.jsx:171). */
  function ToggleCode(s: State): State {
    s.(isShowCode := !s.isShowCode)
  }

  /** Open in new tab (src/App.jsx:157) and the overlay's close button
      (src/App.jsx:250). */
  function SetFullScreen(s: State, open: bool): State {
    s.(isInNewTab := open)
  }

  /** The viewport buttons (src/App.jsx:222, src/App.jsx:231, src/App.jsx:240). */
  function SelectViewport(s: State, v: Viewport): State {
    s.(previewMode := ModeName(v))
  }

  /** The inline view for a state. */
  function ViewOf(s: State): InlineView {
    InlineViewOf(s.code, s.loading, s.isShowCode)
  }

  /** The full-screen overlay for a state. */
  function OverlayOfState(s: State): Overlay {
    OverlayOf(s.code, s.isInNewTab, s.previewMode)
  }

  /** A send with the exact empty prompt changes no field and sends nothing. */
  lemma EmptyPromptIsNoOp(s: State)
    requires s.prompt == ""
    ensures Send(s) == s
    ensures SendOutcomeOf(s) == EmptyPromptNotice
  {
  }

  /** A send with any other prompt, even one of spaces only, sets `loading`,
      changes nothing else, and dispatches that prompt. */
  lemma NonEmptyPromptStartsLoading(s: State)
    requires s.prompt != ""
    ensures Send(s).loading
    ensures Send(s).(loading := s.loading) == s
    ensures SendOutcomeOf(s) == Dispatched(s.prompt)
  {
  }

  /** A whole generation cycle with a reply: the code becomes what
      `extractCode` finds in the reply, loading ends, and the prompt, the
      toggles and the viewport are as before. */
  lemma ResolvedCycle(s: State, text: string)
    requires s.prompt != ""
    ensures Complete(Send(s), Resolved(text)).code == ExtractCode(text)
    ensures !Complete(Send(s), Resolved(text)).loading
    ensures Complete(Send(s), Resolved(text)).(code := s.code, loading := s.loading) == s
  {
  }

  /** A whole generation cycle with a rejection: the code is unchanged and
      loading stays on, so with code view off the loader stays up. */
  lemma RejectedCycle(s: State)
    requires s.prompt != ""
    ensures Complete(Send(s), Rejected).code == s.code
    ensures Complete(Send(s), Rejected).loading
    ensures !s.isShowCode ==> ViewOf(Complete(Send(s), Rejected)) == Loader
  {
  }

  /** Nothing stops a second request while one is loading: the send button
      is still shown and a second send dispatches again. */
  lemma SendWhileLoading(s: State)
    requires s.loading && s.prompt != ""
    ensures SendButtonShown(s.prompt)
    ensures SendOutcomeOf(s) == Dispatched(s.prompt)
    ensures Send(s) == s
  {
  }

  /** Code view takes precedence over the loader. */
  lemma CodeViewHidesLoader(s: State)
    requires s.isShowCode && s.loading
    ensures ViewOf(s) == CodeEditor(s.code)
  {
  }

  /** Two clicks on Show Code restore the state; one click changes only the toggle. */
  lemma ToggleCodeTwiceRestores(s: State)
    ensures ToggleCode(ToggleCode(s)) == s
    ensures ToggleCode(s).isShowCode != s.isShowCode
    ensures ToggleCode(s).(isShowCode := s.isShowCode) == s
  {
  }

  /** Opening or closing the overlay changes only `isInNewTab`; the
      viewport buttons change only `previewMode`, and the overlay then has
      the width of the button pressed. */
  lemma OverlayControlsAreIndependent(s: State, open: bool, v: Viewport)
    ensures SetFullScreen(s, open).(isInNewTab := s.isInNewTab) == s
    ensures SelectViewport(s, v).(previewMode := s.previewMode) == s
    ensures OverlayOfState(SetFullScreen(SelectViewport(s, v), true))
            == Open(FullScreenWidth(ModeName(v)), s.code)
    ensures ViewOf(SelectViewport(s, v)) == ViewOf(s)
    ensures ViewOf(SetFullScreen(s, open)) == ViewOf(s)
  {
  }

  /** Download after an edit saves the edited text. */
  lemma DownloadAfterEdit(s: State, text: string)
    ensures DownloadOf(EditCode(s, text).code) == DownloadFile(DownloadName, DownloadType, text)
  {
  }

  /** The events the component reacts to. */
  datatype Event =
    | PromptChanged(text: string)
    | SendClicked
    | ReplyArrived(reply: Reply)
    | EditorChanged(text: string)
    | ShowCodeClicked
    | FullScreenSet(open: bool)
    | ViewportClicked(viewport: Viewport)

  /** One event applied to a state. */
  function Step(s: State, e: Event): State {
    match e
    case PromptChanged(text) => SetPrompt(s, text)
    case SendClicked => Send(s)
    case ReplyArrived(reply) => Complete(s, reply)
    case EditorChanged(text) => EditCode(s, text)
    case ShowCodeClicked => ToggleCode(s)
    case FullScreenSet(open) => SetFullScreen(s, open)
    case ViewportClicked(v) => SelectViewport(s, v)
  }

  /** A sequence of events applied in order. */
  function Run(s: State, events: seq<Event>): State
    decreases |events|
  {
    if events == [] then s else Run(Step(s, events[0]), events[1..])
  }

  /** `previewMode` is one of the three button values. */
  predicate KnownMode(mode: string) {
    mode == Desktop || mode == Tablet || mode == Mobile
  }

  /** Every sequence of events from a state with a known viewport ends in a
      state with a known viewport. */
  lemma {:induction false} RunKeepsKnownMode(s: State, events: seq<Event>)
    requires KnownMode(s.previewMode)
    ensures KnownMode(Run(s, events).previewMode)
    decreases |events|
  {
    if events != [] {
      RunKeepsKnownMode(Step(s, events[0]), events[1..]);
    }
  }

  /** The event writes `c` as the new code: an editor change to `c`, or a
      reply whose extracted code is `c`. */
  predicate WritesCode(e: Event, c: string) {
    match e
    case EditorChanged(text) => text == c
    case ReplyArrived(Resolved(text)) => ExtractCode(text) == c
    case _ => false
  }

  /** The code is only ever replaced whole: after any sequence of events it
      is the code before, or exactly what one of the events wrote. */
  lemma {:induction false} RunCodeComesFromAWrite(s: State, events: seq<Event>)
    ensures Run(s, events).code == s.code
            || exists i :: 0 <= i < |events| && WritesCode(events[i], Run(s, events).code)
    decreases |events|
  {
    if events != [] {
      var t := Step(s, events[0]);
      var c := Run(s, events).code;
      RunCodeComesFromAWrite(t, events[1..]);
      if c == t.code {
        if c != s.code {
          assert WritesCode(events[0], c);
        }
      } else {
        var i :| 0 <= i < |events[1..]| && WritesCode(events[1..][i], c);
        assert WritesCode(events[i + 1], c);
      }
    }
  }

  /** Events that write no code leave the code as it was. */
  lemma RunWithoutWritesKeepsCode(s: State, events: seq<Event>)
    requires forall i, c :: 0 <= i < |events| ==> !WritesCode(events[i], c)
    ensures Run(s, events).code == s.code
  {
    RunCodeComesFromAWrite(s, events);
  }
}
