/** The shared front-end state object and its setters. */
module AppState {
  import opened Wrappers
  import opened JsText

  /** One entry of the running conversation: `{type, content, timestamp}`. */
  datatype Entry = Entry(kind: JsString, content: JsString, timestamp: JsString)

  /** The identity of a DOM element the state refers to. */
  datatype ElementRef = ElementRef(handle: nat)

  /** A JavaScript value stored under a preference key (only integral numbers
      occur). */
  datatype JsValue = JsStr(s: JsString) | JsNum(n: int) | JsBool(b: bool)

  /** A plain JavaScript object used as a preference record. */
  type Preferences = map<JsString, JsValue>

  datatype State = State(
    availableModels: seq<JsString>,
    currentConversation: seq<Entry>,
    isGenerating: bool,
    currentResponse: JsString,
    currentAssistantMessage: Option<ElementRef>,
    currentZoom: real,
    activeDropdown: Option<ElementRef>,
    editorPreferences: Preferences)

  const ThemeKey: JsString := Lit("theme")
  const FontSizeKey: JsString := Lit("fontSize")
  const AutoSaveKey: JsString := Lit("autoSave")

  /** The state at start-up. */
  const Initial: State := State(
    [], [], false, [], None, 1.0, None,
    map[ThemeKey := JsStr(Lit("default")), FontSizeKey := JsNum(16), AutoSaveKey := JsBool(false)])

  /** `updateGenerationState(isGenerating, response, message)`; an omitted
      `response` (None) defaults to the empty string and an omitted or null
      `message` (None) to null. */
  function UpdateGenerationState(st: State, isGenerating: bool, response: Option<JsString>,
                                 message: Option<ElementRef>): (r: State)
    ensures r.isGenerating == isGenerating
    ensures r.currentResponse == (if response.Some? then response.value else [])
    ensures r.currentAssistantMessage == message
    ensures r.availableModels == st.availableModels && r.currentConversation == st.currentConversation
    ensures r.currentZoom == st.currentZoom && r.activeDropdown == st.activeDropdown
    ensures r.editorPreferences == st.editorPreferences
  {
    st.(isGenerating := isGenerating, currentResponse := response.GetOr([]),
        currentAssistantMessage := message)
  }

  /** `addToConversation(type, content)`; the clock's ISO text is a parameter. */
  function AddToConversation(st: State, kind: JsString, content: JsString, now: JsString): (r: State)
    ensures |r.currentConversation| == |st.currentConversation| + 1
    ensures r.currentConversation[..|st.currentConversation|] == st.currentConversation
    ensures r.currentConversation[|st.currentConversation|] == Entry(kind, content, now)
    ensures r.(currentConversation := st.currentConversation) == st
  {
    st.(currentConversation := st.currentConversation + [Entry(kind, content, now)])
  }

  /** `clearConversation()`. */
  function ClearConversation(st: State): (r: State)
    ensures r.currentConversation == []
    ensures r.(currentConversation := st.currentConversation) == st
  {
    st.(currentConversation := [])
  }

  /** Clearing forgets everything added before. */
  lemma ClearAfterAdd(st: State, kind: JsString, content: JsString, now: JsString)
    ensures ClearConversation(AddToConversation(st, kind, content, now)) == ClearConversation(st)
  {
  }

  /** Entries added one by one after a clear are exactly the conversation. */
  lemma AddAfterClear(st: State, kind: JsString, content: JsString, now: JsString)
    ensures AddToConversation(ClearConversation(st), kind, content, now).currentConversation
            == [Entry(kind, content, now)]
  {
  }

  /** `setActiveDropdown(dropdown)`. */
  function SetActiveDropdown(st: State, dropdown: ElementRef): (r: State)
    ensures r.activeDropdown == Some(dropdown)
    ensures r.(activeDropdown := st.activeDropdown) == st
  {
    st.(activeDropdown := Some(dropdown))
  }

  /** `clearActiveDropdown()`. */
  function ClearActiveDropdown(st: State): (r: State)
    ensures r.activeDropdown.None?
    ensures r.(activeDropdown := st.activeDropdown) == st
  {
    st.(activeDropdown := None)
  }

  /** Clearing the active dropdown undoes setting it. */
  lemma ClearUndoesSet(st: State, dropdown: ElementRef)
    requires st.activeDropdown.None?
    ensures ClearActiveDropdown(SetActiveDropdown(st, dropdown)) == st
  {
  }

  /** `Object.assign(prefs, newPrefs)`: the keys of `newPrefs` overwrite,
      every other key keeps its value. */
  function Assign(prefs: Preferences, newPrefs: Preferences): (r: Preferences)
    ensures r.Keys == prefs.Keys + newPrefs.Keys
    ensures forall k | k in newPrefs :: r[k] == newPrefs[k]
    ensures forall k | k in prefs && k !in newPrefs :: r[k] == prefs[k]
  {
    prefs + newPrefs
  }

  /** `updatePreferences(newPrefs)`. */
  function UpdatePreferences(st: State, newPrefs: Preferences): (r: State)
    ensures r.editorPreferences.Keys == st.editorPreferences.Keys + newPrefs.Keys
    ensures forall k | k in newPrefs :: r.editorPreferences[k] == newPrefs[k]
    ensures forall k | k in st.editorPreferences && k !in newPrefs ::
              r.editorPreferences[k] == st.editorPreferences[k]
    ensures r.(editorPreferences := st.editorPreferences) == st
  {
    st.(editorPreferences := Assign(st.editorPreferences, newPrefs))
  }

  /** Two updates in a row are one update with the later values winning. */
  lemma UpdatePreferencesCompose(st: State, a: Preferences, b: Preferences)
    ensures UpdatePreferences(UpdatePreferences(st, a), b) == UpdatePreferences(st, Assign(a, b))
  {
    var left := UpdatePreferences(UpdatePreferences(st, a), b).editorPreferences;
    var right := UpdatePreferences(st, Assign(a, b)).editorPreferences;
    assert left == right;
  }

  /** Applying the same update twice is applying it once. */
  lemma UpdatePreferencesIdempotent(st: State, a: Preferences)
    ensures UpdatePreferences(UpdatePreferences(st, a), a) == UpdatePreferences(st, a)
  {
    UpdatePreferencesCompose(st, a, a);
    assert Assign(a, a) == a;
  }
}
