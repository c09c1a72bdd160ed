/** What the component shows for a given state, and what Download produces:
    the inline preview area (src/App.jsx:182-206), the full-screen overlay
    (src/App.jsx:210-276), the send button (src/App.jsx:133) and the
    downloaded file (src/App.jsx:51-53). All are pure functions of the state
    fields. */
module Preview {

  /** The values the viewport buttons store in `previewMode`
      (src/App.jsx:222, src/App.jsx:231, src/App.jsx:240). */
  const Desktop: string := "desktop"
  const Tablet: string := "tablet"
  const Mobile: string := "mobile"

  /** The width of the full-screen frame: the whole container on desktop,
      768 pixels on tablet, and 375 pixels for every other mode. */
  function FullScreenWidth(previewMode: string): (width: string)
    ensures width == "100%" <==> previewMode == Desktop
    ensures width == "768px" <==> previewMode == Tablet
    ensures width == "375px" <==> previewMode != Desktop && previewMode != Tablet
  {
    if previewMode == Desktop then "100%"
    else if previewMode == Tablet then "768px"
    else "375px"
  }

  /** The three mutually exclusive contents of the inline preview area. */
  datatype InlineView =
    | CodeEditor(text: string)       // the editor, showing the code
    | Loader                         // the "Generating your website..." spinner
    | LiveFrame(document: string)    // the iframe rendering the code

  /** The inline view: the editor whenever code view is on, else the loader
      while a request is loading, else the rendered document. Whatever is
      shown is the current code. */
  function InlineViewOf(code: string, loading: bool, isShowCode: bool): (view: InlineView)
    ensures view.CodeEditor? <==> isShowCode
    ensures view.Loader? <==> !isShowCode && loading
    ensures view.LiveFrame? <==> !isShowCode && !loading
    ensures view.CodeEditor? ==> view.text == code
    ensures view.LiveFrame? ==> view.document == code
  {
    if isShowCode then CodeEditor(code)
    else if loading then Loader
    else LiveFrame(code)
  }

  /** The full-screen overlay: absent, or a frame of some width rendering a document. */
  datatype Overlay = Closed | Open(width: string, document: string)

  /** The overlay is shown exactly when `isInNewTab` is set; it renders the
      current code at the width of the selected viewport. */
  function OverlayOf(code: string, isInNewTab: bool, previewMode: string): (overlay: Overlay)
    ensures overlay.Open? <==> isInNewTab
    ensures overlay.Open? ==> overlay.document == code
    ensures overlay.Open? ==> overlay.width == FullScreenWidth(previewMode)
  {
    if isInNewTab then Open(FullScreenWidth(previewMode), code) else Closed
  }

  /** The send button is shown whenever the prompt is not the empty string. */
  function SendButtonShown(prompt: string): (shown: bool)
    ensures shown <==> |prompt| > 0
  {
    prompt != ""
  }

  /** The file Download saves. */
  datatype DownloadFile = DownloadFile(filename: string, mimeType: string, content: string)

  const DownloadName: string := "webBuilderCode.html"
  const DownloadType: string := "text/plain"

  /** Download saves the code, unchanged, as `webBuilderCode.html` with MIME
      type `text/plain`. */
  function DownloadOf(code: string): (file: DownloadFile)
    ensures file.filename == DownloadName && file.mimeType == DownloadType
    ensures file.content == code
  {
    DownloadFile(DownloadName, DownloadType, code)
  }
}
