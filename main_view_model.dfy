/** The application shell's view-model: the global input mode, tool,
    theme, open library and notebook, sidebar and ribbon state, and the
    handler that turns triggered binding actions into mode changes. Every
    notification it raises (`PropertyChanged` with the property name, and
    the typed `InputModeChanged`, `ThemeChanged`, `NotebookChanged` and
    `NavigationRequested` events) is appended to one log. */
module Shell {
  import opened Common
  import opened Models
  import Bindings

  /** The ribbon modes this view-model uses (the `Hidden` variant). */
  datatype RibbonMode = Full | TabsOnly | Hidden

  datatype Notification =
    | PropertyChanged(propertyName: string)
    | InputModeChanged(mode: InputMode)
    | ThemeChanged(theme: string)
    | NotebookChanged(notebook: Option<Notebook>)
    | NavigationRequested(target: string)

  /** The enum member names, as `Enum.TryParse` reads them. */
  function ToolModeName(m: ToolMode): string
  {
    match m
    case Selection => "Selection"
    case Pen => "Pen"
    case Highlighter => "Highlighter"
    case Eraser => "Eraser"
    case Shape => "Shape"
    case Text => "Text"
    case Lasso => "Lasso"
    case Ruler => "Ruler"
  }

  /** `Enum.TryParse<ToolMode>` restricted to the exact member names. */
  function ParseToolMode(s: string): (r: Option<ToolMode>)
    ensures r.Some? ==> ToolModeName(r.value) == s
    ensures r.None? ==> forall m: ToolMode :: ToolModeName(m) != s
  {
    if s == "Selection" then Some(Selection)
    else if s == "Pen" then Some(Pen)
    else if s == "Highlighter" then Some(Highlighter)
    else if s == "Eraser" then Some(Eraser)
    else if s == "Shape" then Some(Shape)
    else if s == "Text" then Some(Text)
    else if s == "Lasso" then Some(Lasso)
    else if s == "Ruler" then Some(Ruler)
    else None
  }

  /** Every tool's name parses back to that tool. */
  lemma ToolModeNameRoundTrip(m: ToolMode)
    ensures ParseToolMode(ToolModeName(m)) == Some(m)
  {
  }

  /** The `ToggleEraser` action: Eraser goes back to Pen, anything else to Eraser. */
  function ToggledEraser(m: ToolMode): (r: ToolMode)
    ensures r == Eraser <==> m != Eraser
    ensures r != Eraser ==> r == Pen
  {
    if m == Eraser then Pen else Eraser
  }

  /** Toggling twice returns to the Pen, not to the tool that was active:
      it is the identity only from Pen or Eraser. */
  lemma ToggleEraserTwice(m: ToolMode)
    ensures ToggledEraser(ToggledEraser(m)) == (if m == Eraser then Eraser else Pen)
    ensures ToggledEraser(ToggledEraser(m)) == m <==> m == Pen || m == Eraser
  {
  }

  /** The `SetInputMode` action: flips between the two modes. */
  function ToggledInputMode(m: InputMode): (r: InputMode)
    ensures r != m
  {
    if m == KeyboardMouse then GraphicsTablet else KeyboardMouse
  }

  /** `OnActionTriggered` as a function of the input and tool modes. */
  function ActionEffect(inputMode: InputMode, toolMode: ToolMode, action: string,
                        parameters: map<string, string>): (r: (InputMode, ToolMode))
    ensures action == Bindings.SetInputMode ==> r == (ToggledInputMode(inputMode), toolMode)
    ensures action == Bindings.ToggleEraser ==> r == (inputMode, ToggledEraser(toolMode))
    ensures action == Bindings.SetToolMode ==>
      r.0 == inputMode &&
      (if "mode" in parameters && ParseToolMode(parameters["mode"]).Some?
       then r.1 == ParseToolMode(parameters["mode"]).value else r.1 == toolMode)
    ensures action != Bindings.SetInputMode && action != Bindings.ToggleEraser && action != Bindings.SetToolMode ==>
      r == (inputMode, toolMode)
  {
    if action == Bindings.SetInputMode then (ToggledInputMode(inputMode), toolMode)
    else if action == Bindings.SetToolMode then
      (if "mode" in parameters then
         match ParseToolMode(parameters["mode"])
         case Some(t) => (inputMode, t)
         case None => (inputMode, toolMode)
       else (inputMode, toolMode))
    else if action == Bindings.ToggleEraser then (inputMode, ToggledEraser(toolMode))
    else (inputMode, toolMode)
  }

  /** A SetToolMode action names the tool by its enum name: naming any
      tool selects exactly it, whatever was active. */
  lemma SetToolModeSelects(inputMode: InputMode, toolMode: ToolMode, target: ToolMode, parameters: map<string, string>)
    ensures ActionEffect(inputMode, toolMode, Bindings.SetToolMode,
                         parameters["mode" := ToolModeName(target)]) == (inputMode, target)
  {
    ToolModeNameRoundTrip(target);
  }

  /** `CycleRibbonModeCommand`: Full, TabsOnly, Hidden, Full. */
  function NextRibbonMode(m: RibbonMode): (r: RibbonMode)
    ensures r != m
  {
    match m
    case Full => TabsOnly
    case TabsOnly => Hidden
    case Hidden => Full
  }

  /** Three steps of the cycle are the identity. */
  lemma RibbonCycleThree(m: RibbonMode)
    ensures NextRibbonMode(NextRibbonMode(NextRibbonMode(m))) == m
    ensures NextRibbonMode(NextRibbonMode(m)) != m
  {
  }

  /** `ToggleTheme`: Light goes to Dark, anything else to Light. */
  function ToggledTheme(t: string): (r: string)
    ensures r == "Dark" <==> t == "Light"
    ensures r != "Dark" ==> r == "Light"
  {
    if t == "Light" then "Dark" else "Light"
  }

  /** Toggling twice restores Light and Dark; any other theme is treated
      as not-Light, so two toggles take it to Dark. */
  lemma ThemeToggleTwice(t: string)
    ensures ToggledTheme(ToggledTheme(t)) == (if t == "Light" then "Light" else "Dark")
    ensures t == "Light" || t == "Dark" ==> ToggledTheme(ToggledTheme(t)) == t
  {
  }

  /** `IsEditorActive`: the editor is shown exactly while a notebook is open. */
  function EditorActive(notebook: Option<Notebook>): (r: bool)
    ensures r <==> notebook != None
  {
    notebook.Some?
  }

  /** `IsBookTextVisible`: only in the editor, and there only with the
      sidebar expanded. */
  function BookTextVisible(notebook: Option<Notebook>, sidebarExpanded: bool): (r: bool)
    ensures r ==> EditorActive(notebook)
    ensures EditorActive(notebook) ==> (r <==> sidebarExpanded)
  {
    EditorActive(notebook) && sidebarExpanded
  }

  /** `IsRibbonVisible`: only in the editor, and there in every ribbon mode
      but Hidden. */
  function RibbonVisible(notebook: Option<Notebook>, mode: RibbonMode): (r: bool)
    ensures r ==> EditorActive(notebook)
    ensures EditorActive(notebook) ==> (r <==> mode != Hidden)
  {
    EditorActive(notebook) && mode != Hidden
  }

  /** Without an open notebook neither the ribbon nor the book text shows,
      whatever the ribbon mode and sidebar; with one, the ribbon hides only
      in Hidden mode, and only a full cycle of three brings it back. */
  lemma VisibilityFlags(notebook: Option<Notebook>, mode: RibbonMode, sidebar: bool)
    ensures notebook.None? ==> !RibbonVisible(notebook, mode) && !BookTextVisible(notebook, sidebar)
    ensures notebook.Some? ==> (RibbonVisible(notebook, mode) <==> mode != Hidden)
    ensures notebook.Some? ==> (BookTextVisible(notebook, sidebar) <==> sidebar)
    ensures notebook.Some? && mode == Hidden ==>
      RibbonVisible(notebook, NextRibbonMode(mode)) && RibbonVisible(notebook, NextRibbonMode(NextRibbonMode(mode)))
  {
  }

  class MainViewModel {
    var inputMode: InputMode
    var toolMode: ToolMode
    var theme: string
    var library: Option<Library>
    var notebook: Option<Notebook>
    var sidebarExpanded: bool
    var ribbonMode: RibbonMode
    /** Every notification raised since construction, in order. */
    var log: seq<Notification>

    /** The defaults the constructor sets (its own notifications reach no
        subscriber yet). The binding manager it creates, its load of the
        bindings, which can throw, and the subscription to its actions are
        not part of this model. */
    constructor ()
      ensures inputMode == KeyboardMouse && toolMode == Pen && theme == "Light"
      ensures library.None? && notebook.None? && sidebarExpanded && ribbonMode == Full
      ensures log == []
    {
      inputMode, toolMode, theme := KeyboardMouse, Pen, "Light";
      library, notebook := None, None;
      sidebarExpanded, ribbonMode := true, Full;
      log := [];
    }

    method SetInputMode(v: InputMode)
      modifies this
      ensures inputMode == v
      ensures v == old(inputMode) ==> log == old(log)
      ensures v != old(inputMode) ==> log == old(log) + [PropertyChanged("CurrentInputMode"), InputModeChanged(v)]
      ensures toolMode == old(toolMode) && theme == old(theme) && library == old(library)
      ensures notebook == old(notebook) && sidebarExpanded == old(sidebarExpanded) && ribbonMode == old(ribbonMode)
    {
      if inputMode != v {
        inputMode := v;
        log := log + [PropertyChanged("CurrentInputMode"), InputModeChanged(v)];
      }
    }

    method SetToolMode(v: ToolMode)
      modifies this
      ensures toolMode == v
      ensures v == old(toolMode) ==> log == old(log)
      ensures v != old(toolMode) ==> log == old(log) + [PropertyChanged("CurrentToolMode")]
      ensures inputMode == old(inputMode) && theme == old(theme) && library == old(library)
      ensures notebook == old(notebook) && sidebarExpanded == old(sidebarExpanded) && ribbonMode == old(ribbonMode)
    {
      if toolMode != v {
        toolMode := v;
        log := log + [PropertyChanged("CurrentToolMode")];
      }
    }

    method SetTheme(v: string)
      modifies this
      ensures theme == v
      ensures v == old(theme) ==> log == old(log)
      ensures v != old(theme) ==> log == old(log) + [PropertyChanged("CurrentTheme"), ThemeChanged(v)]
      ensures inputMode == old(inputMode) && toolMode == old(toolMode) && library == old(library)
      ensures notebook == old(notebook) && sidebarExpanded == old(sidebarExpanded) && ribbonMode == old(ribbonMode)
    {
      if theme != v {
        theme := v;
        log := log + [PropertyChanged("CurrentTheme"), ThemeChanged(v)];
      }
    }

    /** Unguarded: notifies even when the library is the same. */
    method SetLibrary(v: Option<Library>)
      modifies this
      ensures library == v && log == old(log) + [PropertyChanged("CurrentLibrary")]
      ensures inputMode == old(inputMode) && toolMode == old(toolMode) && theme == old(theme)
      ensures notebook == old(notebook) && sidebarExpanded == old(sidebarExpanded) && ribbonMode == old(ribbonMode)
    {
      library := v;
      log := log + [PropertyChanged("CurrentLibrary")];
    }

    /** Unguarded: notifies the notebook and the three flags derived from it. */
    method SetNotebook(v: Option<Notebook>)
      modifies this
      ensures notebook == v
      ensures log == old(log) + [PropertyChanged("CurrentNotebook"), PropertyChanged("IsEditorActive"),
                                 PropertyChanged("IsRibbonVisible"), PropertyChanged("IsBookTextVisible"),
                                 NotebookChanged(v)]
      ensures inputMode == old(inputMode) && toolMode == old(toolMode) && theme == old(theme)
      ensures library == old(library) && sidebarExpanded == old(sidebarExpanded) && ribbonMode == old(ribbonMode)
    {
      notebook := v;
      log := log + [PropertyChanged("CurrentNotebook"), PropertyChanged("IsEditorActive"),
                    PropertyChanged("IsRibbonVisible"), PropertyChanged("IsBookTextVisible"),
                    NotebookChanged(v)];
    }

    method SetSidebarExpanded(v: bool)
      modifies this
      ensures sidebarExpanded == v
      ensures log == old(log) + [PropertyChanged("IsSidebarExpanded"), PropertyChanged("IsBookTextVisible")]
      ensures inputMode == old(inputMode) && toolMode == old(toolMode) && theme == old(theme)
      ensures library == old(library) && notebook == old(notebook) && ribbonMode == old(ribbonMode)
    {
      sidebarExpanded := v;
      log := log + [PropertyChanged("IsSidebarExpanded"), PropertyChanged("IsBookTextVisible")];
    }

    method SetRibbonMode(v: RibbonMode)
      modifies this
      ensures ribbonMode == v
      ensures log == old(log) + [PropertyChanged("RibbonMode"), PropertyChanged("IsRibbonVisible"),
                                 PropertyChanged("IsRibbonFull"), PropertyChanged("IsRibbonTabsOnly")]
      ensures inputMode == old(inputMode) && toolMode == old(toolMode) && theme == old(theme)
      ensures library == old(library) && notebook == old(notebook) && sidebarExpanded == old(sidebarExpanded)
    {
      ribbonMode := v;
      log := log + [PropertyChanged("RibbonMode"), PropertyChanged("IsRibbonVisible"),
                    PropertyChanged("IsRibbonFull"), PropertyChanged("IsRibbonTabsOnly")];
    }

    /** The binding actions the shell understands; any other leaves every
        field and the log as they were. A changed mode raises what its
        setter raises; an action changes at most one of the two modes. */
    method OnActionTriggered(action: string, parameters: map<string, string>)
      modifies this
      ensures (inputMode, toolMode) == ActionEffect(old(inputMode), old(toolMode), action, parameters)
      ensures theme == old(theme) && library == old(library) && notebook == old(notebook)
      ensures sidebarExpanded == old(sidebarExpanded) && ribbonMode == old(ribbonMode)
      ensures inputMode == old(inputMode) || toolMode == old(toolMode)
      ensures inputMode != old(inputMode) ==>
                log == old(log) + [PropertyChanged("CurrentInputMode"), InputModeChanged(inputMode)]
      ensures toolMode != old(toolMode) ==> log == old(log) + [PropertyChanged("CurrentToolMode")]
      ensures (inputMode, toolMode) == (old(inputMode), old(toolMode)) ==> log == old(log)
    {
      if action == Bindings.SetInputMode {
        SetInputMode(if inputMode == KeyboardMouse then GraphicsTablet else KeyboardMouse);
      } else if action == Bindings.SetToolMode {
        if "mode" in parameters {
          var parsed := ParseToolMode(parameters["mode"]);
          if parsed.Some? {
            SetToolMode(parsed.value);
          }
        }
      } else if action == Bindings.ToggleEraser {
        SetToolMode(if toolMode == Eraser then Pen else Eraser);
      }
    }

    method ToggleSidebar()
      modifies this
      ensures sidebarExpanded == !old(sidebarExpanded)
      ensures BookTextVisible(notebook, sidebarExpanded) <==> notebook.Some? && !old(sidebarExpanded)
      ensures log == old(log) + [PropertyChanged("IsSidebarExpanded"), PropertyChanged("IsBookTextVisible")]
      ensures inputMode == old(inputMode) && toolMode == old(toolMode) && theme == old(theme)
      ensures library == old(library) && notebook == old(notebook) && ribbonMode == old(ribbonMode)
    {
      SetSidebarExpanded(!sidebarExpanded);
    }

    method ToggleTheme()
      modifies this
      ensures theme == ToggledTheme(old(theme))
      ensures log == old(log) + [PropertyChanged("CurrentTheme"), ThemeChanged(theme)]
      ensures inputMode == old(inputMode) && toolMode == old(toolMode) && library == old(library)
      ensures notebook == old(notebook) && sidebarExpanded == old(sidebarExpanded) && ribbonMode == old(ribbonMode)
    {
      SetTheme(if theme == "Light" then "Dark" else "Light");
    }

    method CycleRibbonMode()
      modifies this
      ensures ribbonMode == NextRibbonMode(old(ribbonMode))
      ensures log == old(log) + [PropertyChanged("RibbonMode"), PropertyChanged("IsRibbonVisible"),
                                 PropertyChanged("IsRibbonFull"), PropertyChanged("IsRibbonTabsOnly")]
      ensures inputMode == old(inputMode) && toolMode == old(toolMode) && theme == old(theme)
      ensures library == old(library) && notebook == old(notebook) && sidebarExpanded == old(sidebarExpanded)
    {
      match ribbonMode
      case Full => SetRibbonMode(TabsOnly);
      case TabsOnly => SetRibbonMode(Hidden);
      case Hidden => SetRibbonMode(Full);
    }

    /** Back to the library list: closes the notebook and the library. */
    method NavigateToLibraryRoot()
      modifies this
      ensures notebook.None? && library.None?
      ensures log == old(log) + [PropertyChanged("CurrentNotebook"), PropertyChanged("IsEditorActive"),
                                 PropertyChanged("IsRibbonVisible"), PropertyChanged("IsBookTextVisible"),
                                 NotebookChanged(None), PropertyChanged("CurrentLibrary"),
                                 NavigationRequested("LibraryView")]
      ensures inputMode == old(inputMode) && toolMode == old(toolMode) && theme == old(theme)
      ensures sidebarExpanded == old(sidebarExpanded) && ribbonMode == old(ribbonMode)
    {
      SetNotebook(None);
      SetLibrary(None);
      log := log + [NavigationRequested("LibraryView")];
    }

    /** Back to the notebook list of the current library (both commands
        that do this behave identically). */
    method NavigateToNotebookList()
      modifies this
      ensures notebook.None? && library == old(library)
      ensures log == old(log) + [PropertyChanged("CurrentNotebook"), PropertyChanged("IsEditorActive"),
                                 PropertyChanged("IsRibbonVisible"), PropertyChanged("IsBookTextVisible"),
                                 NotebookChanged(None), NavigationRequested("NotebookList")]
      ensures inputMode == old(inputMode) && toolMode == old(toolMode) && theme == old(theme)
      ensures sidebarExpanded == old(sidebarExpanded) && ribbonMode == old(ribbonMode)
    {
      SetNotebook(None);
      log := log + [NavigationRequested("NotebookList")];
    }
  }
}
