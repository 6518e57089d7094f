/**
  The code editor: the buffer and its language, the language menu, the reset
  button, the simulated one-second run, and the draggable output terminal.
  Each handler is a function from the editor state to the next state, plus
  the value it passes to the page's `onCodeChange` or `onRun` callback.
 */
module CodeEditor {
  import opened Wrappers
  import opened MockData

  /** What `onRun` receives: the buffer and language as they were at the click. */
  datatype RunRequest = RunRequest(code: string, language: Language)

  /**
    `pending` is the run whose timer has not fired yet; the editor shows
    "Running..." exactly while there is one.
   */
  datatype Editor = Editor(
    language: Language,
    code: string,
    menuOpen: bool,
    pending: Option<RunRequest>,
    terminalHeight: int,
    resizing: bool)

  /** A handler's new state and what it reported through `onCodeChange`. */
  datatype Change = Change(editor: Editor, notified: string)

  const DefaultTerminalHeight: int := 250
  const MinTerminalHeight: int := 100
  /** Pixels the terminal must leave for the editor above it. */
  const EditorReserve: int := 100

  predicate IsRunning(e: Editor)
  {
    e.pending.Some?
  }

  /**
    The state on mount. The language prop defaults to Python, and an absent or
    empty `initialCode` falls back to the language's template.
   */
  function Mount(initialCode: Option<string>, language: Option<Language>): (e: Editor)
    ensures e.language == (if language.Some? then language.value else Python)
    ensures initialCode.Some? && initialCode.value != "" ==> e.code == initialCode.value
    ensures initialCode.None? || initialCode.value == "" ==> e.code == CodeTemplate(e.language)
    ensures e.code != ""
    ensures !IsRunning(e) && !e.menuOpen && !e.resizing
    ensures e.terminalHeight == DefaultTerminalHeight
  {
    var lang := if language.Some? then language.value else Python;
    var code := if initialCode.Some? && initialCode.value != "" then initialCode.value else CodeTemplate(lang);
    Editor(lang, code, false, None, DefaultTerminalHeight, false)
  }

  /**
    The effect that re-runs when the language or the `initialCode` prop
    changes: an absent or empty prop puts the template back, a non-empty one
    is ignored (the buffer is not replaced by it).
   */
  function SyncInitialCode(e: Editor, initialCode: Option<string>): (r: Editor)
    ensures initialCode.None? || initialCode.value == "" ==> r == e.(code := CodeTemplate(e.language))
    ensures initialCode.Some? && initialCode.value != "" ==> r == e
  {
    if initialCode.None? || initialCode.value == "" then e.(code := CodeTemplate(e.language)) else e
  }

  /** A keystroke: an undefined value from the editor widget counts as "". */
  function Edit(e: Editor, value: Option<string>): (c: Change)
    ensures c.editor == e.(code := c.notified)
    ensures c.notified == (if value.Some? then value.value else "")
  {
    var code := if value.Some? then value.value else "";
    Change(e.(code := code), code)
  }

  /** The language button opens or closes the menu. */
  function ToggleMenu(e: Editor): (r: Editor)
    ensures r.menuOpen != e.menuOpen
    ensures r.(menuOpen := e.menuOpen) == e
  {
    e.(menuOpen := !e.menuOpen)
  }

  /** Choosing a language loads its template, reports it, and closes the menu. */
  function SelectLanguage(e: Editor, lang: Language): (c: Change)
    ensures c.editor == e.(language := lang, code := CodeTemplate(lang), menuOpen := false)
    ensures c.notified == CodeTemplate(lang) && c.notified != ""
  {
    var template := CodeTemplate(lang);
    Change(e.(language := lang, code := template, menuOpen := false), template)
  }

  /** The reset button: the current language's template, reported to the page. */
  function Reset(e: Editor): (c: Change)
    ensures c.editor == e.(code := CodeTemplate(e.language))
    ensures c.notified == CodeTemplate(e.language)
  {
    var template := CodeTemplate(e.language);
    Change(e.(code := template), template)
  }

  /** The run button is disabled while a run is pending, so a click then does nothing. */
  function ClickRun(e: Editor): (r: Editor)
    ensures IsRunning(r)
    ensures IsRunning(e) ==> r == e
    ensures !IsRunning(e) ==> r == e.(pending := Some(RunRequest(e.code, e.language)))
  {
    if IsRunning(e) then e else e.(pending := Some(RunRequest(e.code, e.language)))
  }

  datatype Finished = Finished(editor: Editor, delivered: Option<RunRequest>)

  /** The one-second timer fires: the captured request goes to `onRun` and the button re-enables. */
  function FinishRun(e: Editor): (f: Finished)
    ensures f.delivered == e.pending
    ensures f.editor == e.(pending := None)
    ensures !IsRunning(f.editor)
  {
    Finished(e.(pending := None), e.pending)
  }

  /** Pressing on the terminal's drag handle. */
  function StartResize(e: Editor): (r: Editor)
    ensures r.resizing
    ensures r.(resizing := e.resizing) == e
  {
    e.(resizing := true)
  }

  /** The height a drag to `clientY` asks for: the distance up from the container's bottom. */
  function DraggedHeight(containerBottom: int, clientY: int): int
  {
    containerBottom - clientY
  }

  /**
    A mouse move, heard only while resizing. The new height is taken only if
    it leaves the terminal at least 100 pixels tall and the editor at least 100
    pixels above it; otherwise the height stays as it was.
   */
  function MouseMove(e: Editor, containerBottom: int, clientY: int, containerHeight: int): (r: Editor)
    ensures r.terminalHeight == DraggedHeight(containerBottom, clientY) <==>
      (e.resizing && MinTerminalHeight <= DraggedHeight(containerBottom, clientY) <= containerHeight - EditorReserve)
      || e.terminalHeight == DraggedHeight(containerBottom, clientY)
    ensures r.terminalHeight != e.terminalHeight ==>
      e.resizing && MinTerminalHeight <= r.terminalHeight <= containerHeight - EditorReserve
    ensures r == e.(terminalHeight := r.terminalHeight)
  {
    var h := DraggedHeight(containerBottom, clientY);
    if e.resizing && MinTerminalHeight <= h <= containerHeight - EditorReserve then e.(terminalHeight := h) else e
  }

  /** Releasing the mouse ends the drag. */
  function MouseUp(e: Editor): (r: Editor)
    ensures !r.resizing
    ensures r.(resizing := e.resizing) == e
  {
    e.(resizing := false)
  }

  /** The page hears exactly the buffer and language at the click, when the timer fires. */
  lemma RunDeliversClickedCode(e: Editor)
    requires !IsRunning(e)
    ensures FinishRun(ClickRun(e)).delivered == Some(RunRequest(e.code, e.language))
    ensures FinishRun(ClickRun(e)).editor == e
  {
  }

  /**
    Typing while the run is pending changes the buffer but not what is
    delivered: the handler captured the code when it was clicked.
   */
  lemma EditsDuringRunAreNotRun(e: Editor, value: Option<string>)
    requires !IsRunning(e)
    ensures var typed := Edit(ClickRun(e), value).editor;
      && FinishRun(typed).delivered == Some(RunRequest(e.code, e.language))
      && FinishRun(typed).editor.code == (if value.Some? then value.value else "")
  {
  }

  /** A second click while the first run is pending starts nothing: one run, one delivery. */
  lemma DoubleClickRunsOnce(e: Editor)
    ensures ClickRun(ClickRun(e)) == ClickRun(e)
    ensures FinishRun(FinishRun(ClickRun(e)).editor).delivered == None
  {
  }

  /** Reset right after choosing a language is a no-op, and so is a second reset. */
  lemma ResetAfterSelectIsNoOp(e: Editor, lang: Language)
    ensures Reset(SelectLanguage(e, lang).editor).editor == SelectLanguage(e, lang).editor
    ensures Reset(Reset(e).editor) == Reset(e)
  {
  }

  /**
    Erasing the whole buffer reports "" to the page, which passes it back as
    `initialCode`; the effect then puts the template back in the editor while
    the page keeps "".
   */
  lemma ClearingRestoresTemplate(e: Editor)
    ensures var cleared := Edit(e, Some(""));
      && cleared.notified == ""
      && SyncInitialCode(cleared.editor, Some(cleared.notified)).code == CodeTemplate(e.language)
  {
  }

  /**
    The terminal height stays within bounds across a drag: starting from a
    height in range, any mouse move keeps it at least 100 and at most the
    container height less 100.
   */
  lemma {:induction false} DragKeepsHeightInRange(e: Editor, bottom: int, ys: seq<int>, containerHeight: int)
    requires MinTerminalHeight <= e.terminalHeight <= containerHeight - EditorReserve
    ensures var r := Drag(e, bottom, ys, containerHeight);
      MinTerminalHeight <= r.terminalHeight <= containerHeight - EditorReserve
    decreases |ys|
  {
    if ys != [] {
      var r := MouseMove(e, bottom, ys[0], containerHeight);
      DragKeepsHeightInRange(r, bottom, ys[1..], containerHeight);
    }
  }

  /** A sequence of mouse moves at the given `clientY` positions. */
  function Drag(e: Editor, bottom: int, ys: seq<int>, containerHeight: int): Editor
    decreases |ys|
  {
    if ys == [] then e else Drag(MouseMove(e, bottom, ys[0], containerHeight), bottom, ys[1..], containerHeight)
  }

  /** Without a press on the handle, mouse moves never change the height. */
  lemma {:induction false} NoDragWithoutPress(e: Editor, bottom: int, ys: seq<int>, containerHeight: int)
    requires !e.resizing
    ensures Drag(e, bottom, ys, containerHeight) == e
    decreases |ys|
  {
    if ys != [] {
      NoDragWithoutPress(MouseMove(e, bottom, ys[0], containerHeight), bottom, ys[1..], containerHeight);
    }
  }

  /**
    Two clicks on the language button leave the menu as it was, and choosing a
    language always leaves it closed.
   */
  lemma MenuToggles(e: Editor, lang: Language)
    ensures ToggleMenu(e).menuOpen != e.menuOpen
    ensures ToggleMenu(ToggleMenu(e)) == e
    ensures !SelectLanguage(ToggleMenu(e), lang).editor.menuOpen
  {
  }

  /**
    Press, moves, release: the moves before the release can change only the
    height, and moves after the release change nothing.
   */
  lemma PressDragRelease(e: Editor, bottom: int, before: seq<int>, after: seq<int>, containerHeight: int)
    ensures var dragged := Drag(StartResize(e), bottom, before, containerHeight);
      && dragged == e.(resizing := true, terminalHeight := dragged.terminalHeight)
      && Drag(MouseUp(dragged), bottom, after, containerHeight) == MouseUp(dragged)
      && !MouseUp(dragged).resizing
  {
    DragOnlyMovesHeight(StartResize(e), bottom, before, containerHeight);
    NoDragWithoutPress(MouseUp(Drag(StartResize(e), bottom, before, containerHeight)), bottom, after, containerHeight);
  }

  /** Mouse moves change nothing but the terminal height. */
  lemma {:induction false} DragOnlyMovesHeight(e: Editor, bottom: int, ys: seq<int>, containerHeight: int)
    ensures Drag(e, bottom, ys, containerHeight) == e.(terminalHeight := Drag(e, bottom, ys, containerHeight).terminalHeight)
    decreases |ys|
  {
    if ys != [] {
      DragOnlyMovesHeight(MouseMove(e, bottom, ys[0], containerHeight), bottom, ys[1..], containerHeight);
    }
  }
}
