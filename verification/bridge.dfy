/** The command bridge between the front end and the Rust commands: what a
    value looks like on each side, and where the two sides agree or do not. */
module Bridge {
  import opened Wrappers
  import opened JsText
  import Seqs
  import RustText
  import Backend
  import AppState
  import Conversations

  // ---------------------------------------------------------------------
  // Titles and token estimates computed on both sides
  // ---------------------------------------------------------------------

  /** Below 0x80 the two whitespace predicates agree. */
  lemma WhitespaceAgreesOnAscii(c: char, u: CodeUnit)
    requires c as int < 0x80 && u as int == c as int
    ensures RustText.IsWhitespace(c) == JsText.IsWhitespace(u)
  {
  }

  /** A slice of ASCII text is ASCII. */
  lemma AsciiSlice(s: string, lo: nat, hi: nat)
    requires IsAscii(s) && lo <= hi <= |s|
    ensures IsAscii(s[lo..hi])
  {
    assert forall i | 0 <= i < hi - lo :: s[lo..hi][i] == s[lo + i];
  }

  /** On ASCII text the whitespace positions of both encodings coincide. */
  lemma WhitespaceMasksAgree(s: string)
    requires IsAscii(s)
    ensures |Utf16(s)| == |s|
    ensures forall i | 0 <= i < |s| :: RustText.IsWhitespace(s[i]) == JsText.IsWhitespace(Utf16(s)[i])
  {
    Utf16Ascii(s);
    forall i | 0 <= i < |s| ensures RustText.IsWhitespace(s[i]) == JsText.IsWhitespace(Utf16(s)[i]) {
      WhitespaceAgreesOnAscii(s[i], Utf16(s)[i]);
    }
  }

  /** On ASCII text the two `trim`s remove the same characters. */
  lemma TrimAgreesOnAscii(s: string)
    requires IsAscii(s)
    ensures IsAscii(RustText.Trim(s))
    ensures Utf16(RustText.Trim(s)) == JsText.Trim(Utf16(s))
  {
    var u := Utf16(s);
    WhitespaceMasksAgree(s);
    Seqs.TrimCorresponds(s, u, RustText.IsWhitespace, JsText.IsWhitespace);
    var t := Seqs.Trim(s, RustText.IsWhitespace);
    var jt := Seqs.Trim(u, JsText.IsWhitespace);
    var k := Seqs.TrimOffset(s, RustText.IsWhitespace);
    SliceEncodings(s, k, k + |t|);
  }

  /** Slicing commutes with encoding on ASCII text. */
  lemma SliceEncodings(s: string, lo: nat, hi: nat)
    requires IsAscii(s) && lo <= hi <= |s|
    ensures IsAscii(s[lo..hi])
    ensures Utf16(s[lo..hi]) == Utf16(s)[lo..hi]
  {
    var t := s[lo..hi];
    AsciiSlice(s, lo, hi);
    var u, v := Utf16(s), Utf16(t);
    Utf16Ascii(s);
    Utf16Ascii(t);
    assert |v| == hi - lo == |u[lo..hi]|;
    forall i | 0 <= i < hi - lo ensures v[i] == u[lo..hi][i] {
      assert t[i] == s[lo + i];
      assert v[i] as int == t[i] as int && u[lo + i] as int == s[lo + i] as int;
    }
    assert v == u[lo..hi];
  }

  /** On ASCII text that is too long, the backend cuts after 50 characters
      without panicking. */
  lemma BackendCutOnAscii(t: string)
    requires IsAscii(t) && |t| > 50
    ensures Backend.Ellipsize(t, 50) == Ok(t[..50] + Backend.Ellipsis)
  {
    RustText.ByteLenAscii(t);
    AsciiSlice(t, 0, 50);
    assert t[0..50] == t[..50];
    RustText.ByteLenAscii(t[..50]);
    assert RustText.IsCharBoundary(t, 50);
    var r := Backend.Ellipsize(t, 50).value;
    var j := |r| - 3;
    AsciiSlice(t, 0, j);
    assert t[0..j] == t[..j];
    RustText.ByteLenAscii(t[..j]);
  }

  /** On ASCII text that is too long, both sides cut after 50 characters. */
  lemma CutAgreesOnAscii(t: string)
    requires IsAscii(t) && |t| > 50
    ensures Backend.Ellipsize(t, 50).Ok?
    ensures Utf16(Backend.Ellipsize(t, 50).value) == Conversations.Ellipsize(Utf16(t), 50)
  {
    BackendCutOnAscii(t);
    FrontEndCutOnAscii(t);
  }

  /** The two ellipses encode to the same code units. */
  lemma EllipsesAgree()
    ensures Utf16(Backend.Ellipsis) == Conversations.Ellipsis
  {
    assert Utf16(Backend.Ellipsis) == [0x2E, 0x2E, 0x2E] == Conversations.Ellipsis;
  }

  /** The front end's cut of the encoded text is the encoding of the first
      50 characters followed by the ellipsis. */
  lemma FrontEndCutOnAscii(t: string)
    requires IsAscii(t) && |t| > 50
    ensures Utf16(t[..50] + Backend.Ellipsis) == Conversations.Ellipsize(Utf16(t), 50)
  {
    SliceEncodings(t, 0, 50);
    assert t[0..50] == t[..50];
    Utf16Append(t[..50], Backend.Ellipsis);
    EllipsesAgree();
    Utf16Ascii(t);
    var u := Utf16(t);
    var js := Conversations.Ellipsize(u, 50);
    assert js == js[..50] + js[50..];
    assert u[0..50] == u[..50];
  }

  /** On ASCII text the title the front end sends and the title the backend
      derives are the same text, and the backend does not panic. */
  lemma TitlesAgreeOnAscii(s: string)
    requires IsAscii(s)
    ensures Backend.GenerateTitle(s).Ok?
    ensures Utf16(Backend.GenerateTitle(s).value) == Conversations.Ellipsize(JsText.Trim(Utf16(s)), 50)
  {
    TrimAgreesOnAscii(s);
    var t := RustText.Trim(s);
    RustText.ByteLenAscii(t);
    Utf16Ascii(t);
    if |t| > 50 {
      CutAgreesOnAscii(t);
    }
  }

  /** Past the first 49 ASCII characters, a two-byte character makes the
      backend's title panic while the front end keeps the text whole. */
  lemma TitlesDivergeOnAccent()
    ensures var s := seq(49, _ => 'a') + "é";
            Backend.GenerateTitle(s).Err?
            && Conversations.Ellipsize(JsText.Trim(Utf16(s)), 50) == JsText.Trim(Utf16(s))
  {
    Backend.TitlePanicsInsideCharacter();
    var s := seq(49, _ => 'a') + "é";
    assert forall i | 0 <= i < |s| :: s[i] as int < 0x1_0000;
    Utf16LengthBmp(s);
  }

  /** On ASCII text the per-message token estimates agree. */
  lemma TokenEstimatesAgreeOnAscii(s: string)
    requires IsAscii(s)
    ensures Conversations.EstimateTokens(Utf16(s)) == Backend.EstimateTokenCount(s)
  {
    Utf16Ascii(s);
    RustText.ByteLenAscii(s);
  }

  /** On ASCII chats the front end's conversation estimate equals the
      backend's total over the same messages. */
  lemma {:induction false} TokenCountsAgreeOnAscii(entries: seq<AppState.Entry>, messages: seq<Backend.Message>)
    requires |entries| == |messages|
    requires forall i | 0 <= i < |messages| ::
               IsAscii(messages[i].content) && entries[i].content == Utf16(messages[i].content)
    ensures Conversations.EstimateTokenCount(entries) == Backend.TotalTokens(messages)
  {
    if entries != [] {
      TokenEstimatesAgreeOnAscii(messages[0].content);
      TokenCountsAgreeOnAscii(entries[1..], messages[1..]);
    }
  }

  /** The front end counts UTF-16 code units and the backend UTF-8 bytes:
      "éééé" is one token in the front end and two in the backend. */
  lemma TokenEstimatesDiverge()
    ensures Conversations.EstimateTokens(Utf16("éééé")) == 1
    ensures Backend.EstimateTokenCount("éééé") == 2
  {
    assert Utf16("éééé") == [0xE9, 0xE9, 0xE9, 0xE9];
  }

  // ---------------------------------------------------------------------
  // Editor preferences across the bridge
  // ---------------------------------------------------------------------

  /** The range of Rust's `i64`, which `font_size` is decoded into. */
  const I64Min: int := -0x8000_0000_0000_0000
  const I64Max: int := 0x7FFF_FFFF_FFFF_FFFF

  /** The field names serde uses for `EditorPreferences`: the Rust field
      names, since the struct carries no rename attribute. */
  const SnakeFontSizeKey: JsString := Lit("font_size")
  const SnakeAutoSaveKey: JsString := Lit("auto_save")

  /** The five object keys in play are pairwise distinct. */
  lemma KeysDistinct()
    ensures |AppState.ThemeKey| == 5 && |AppState.FontSizeKey| == 8 && |AppState.AutoSaveKey| == 8
    ensures |SnakeFontSizeKey| == 9 && |SnakeAutoSaveKey| == 9
    ensures AppState.FontSizeKey != AppState.AutoSaveKey && SnakeFontSizeKey != SnakeAutoSaveKey
  {
    assert AppState.FontSizeKey[0] as int == 'f' as int && AppState.AutoSaveKey[0] as int == 'a' as int;
    assert SnakeFontSizeKey[0] as int == 'f' as int && SnakeAutoSaveKey[0] as int == 'a' as int;
  }

  /** Why serde rejects an object as `EditorPreferences`. */
  datatype DecodeError = MissingField(field: JsString) | InvalidType(field: JsString)

  /** An `EditorPreferences` value as a JavaScript object with the given
      field names. */
  function ToJs(p: Backend.EditorPreferences, fontKey: JsString, autoKey: JsString): (r: AppState.Preferences)
    requires fontKey != AppState.ThemeKey && autoKey != AppState.ThemeKey && fontKey != autoKey
    ensures r.Keys == {AppState.ThemeKey, fontKey, autoKey}
    ensures r[AppState.ThemeKey] == AppState.JsStr(Utf16(p.theme))
    ensures r[fontKey] == AppState.JsNum(p.fontSize) && r[autoKey] == AppState.JsBool(p.autoSave)
  {
    map[AppState.ThemeKey := AppState.JsStr(Utf16(p.theme)),
        fontKey := AppState.JsNum(p.fontSize),
        autoKey := AppState.JsBool(p.autoSave)]
  }

  /** Reading an `EditorPreferences` out of a JavaScript object with the
      given field names; other keys are ignored. */
  function FromJs(obj: AppState.Preferences, fontKey: JsString, autoKey: JsString)
    : (r: Result<Backend.EditorPreferences, DecodeError>)
    ensures r.Ok? ==> fontKey in obj && obj[fontKey] == AppState.JsNum(r.value.fontSize)
    ensures r.Ok? ==> autoKey in obj && obj[autoKey] == AppState.JsBool(r.value.autoSave)
    ensures r.Ok? ==> AppState.ThemeKey in obj && obj[AppState.ThemeKey] == AppState.JsStr(Utf16(r.value.theme))
    ensures r.Ok? ==> I64Min <= r.value.fontSize <= I64Max
    ensures fontKey !in obj ==> r.Err?
  {
    if AppState.ThemeKey !in obj then Err(MissingField(AppState.ThemeKey))
    else if fontKey !in obj then Err(MissingField(fontKey))
    else if autoKey !in obj then Err(MissingField(autoKey))
    else match (obj[AppState.ThemeKey], obj[fontKey], obj[autoKey])
      case (JsStr(t), JsNum(n), JsBool(b)) =>
        if !(I64Min <= n <= I64Max) then Err(InvalidType(fontKey))
        else (match FromUtf16(t)
          case None => Err(InvalidType(AppState.ThemeKey))
          case Some(theme) =>
            Utf16RoundTripInverse(t, theme);
            Ok(Backend.EditorPreferences(theme, n, b)))
      case (JsStr(_), JsNum(_), _) => Err(InvalidType(autoKey))
      case (JsStr(_), _, _) => Err(InvalidType(fontKey))
      case _ => Err(InvalidType(AppState.ThemeKey))
  }

  /** A decodable code-unit sequence is the encoding of what it decodes to. */
  lemma {:induction false} Utf16RoundTripInverse(u: JsString, s: string)
    requires FromUtf16(u) == Some(s)
    ensures Utf16(s) == u
    decreases |u|
  {
    if u != [] {
      if IsHighSurrogate(u[0]) {
        var rest := FromUtf16(u[2..]).value;
        Utf16RoundTripInverse(u[2..], rest);
        var c := 0x1_0000 + (u[0] as int - 0xD800) * 0x400 + (u[1] as int - 0xDC00);
        assert s == [c as char] + rest;
        assert s[1..] == rest;
        assert (c - 0x1_0000) / 0x400 == u[0] as int - 0xD800;
        assert (c - 0x1_0000) % 0x400 == u[1] as int - 0xDC00;
        assert u == u[..2] + u[2..];
      } else {
        var rest := FromUtf16(u[1..]).value;
        Utf16RoundTripInverse(u[1..], rest);
        assert s[1..] == rest;
        assert u == [u[0]] + u[1..];
      }
    }
  }

  /** `load_editor_preferences`' result as the front end receives it. */
  function Serialize(p: Backend.EditorPreferences): (r: AppState.Preferences)
    ensures r.Keys == {AppState.ThemeKey, SnakeFontSizeKey, SnakeAutoSaveKey}
    ensures AppState.FontSizeKey !in r && AppState.AutoSaveKey !in r
  {
    KeysDistinct();
    ToJs(p, SnakeFontSizeKey, SnakeAutoSaveKey)
  }

  /** `save_editor_preferences`' argument as the backend decodes it. */
  function Deserialize(obj: AppState.Preferences): (r: Result<Backend.EditorPreferences, DecodeError>)
    ensures SnakeFontSizeKey !in obj ==> r.Err?
  {
    FromJs(obj, SnakeFontSizeKey, SnakeAutoSaveKey)
  }

  /** `loadEditorPreferences()`: the loaded object merged into the state. */
  function LoadIntoState(st: AppState.State, p: Backend.EditorPreferences): (r: AppState.State)
    ensures r.editorPreferences.Keys == st.editorPreferences.Keys + Serialize(p).Keys
    ensures forall k | k in Serialize(p) :: r.editorPreferences[k] == Serialize(p)[k]
    ensures forall k | k in st.editorPreferences && k !in Serialize(p) ::
              r.editorPreferences[k] == st.editorPreferences[k]
    ensures r.(editorPreferences := st.editorPreferences) == st
  {
    AppState.UpdatePreferences(st, Serialize(p))
  }

  /** Loading never changes the `fontSize` or `autoSave` the front end
      applies: the loaded values arrive under other keys. */
  lemma LoadedPreferencesNotApplied(st: AppState.State, p: Backend.EditorPreferences)
    requires AppState.FontSizeKey in st.editorPreferences && AppState.AutoSaveKey in st.editorPreferences
    ensures LoadIntoState(st, p).editorPreferences[AppState.FontSizeKey]
            == st.editorPreferences[AppState.FontSizeKey]
    ensures LoadIntoState(st, p).editorPreferences[AppState.AutoSaveKey]
            == st.editorPreferences[AppState.AutoSaveKey]
  {
  }

  /** Saving the start-up preferences fails: they have no `font_size`. The
      state keeps them only when the load at start-up failed; otherwise the
      loaded snake_case keys are merged in (`SaveAfterLoadIgnoresEdits`). */
  lemma InitialPreferencesRejected()
    ensures Deserialize(AppState.Initial.editorPreferences).Err?
  {
    KeysDistinct();
    assert SnakeFontSizeKey !in AppState.Initial.editorPreferences;
  }

  /** After a load, a save writes back the loaded values whatever the user
      has since set `fontSize` and `autoSave` to. */
  lemma SaveAfterLoadIgnoresEdits(st: AppState.State, p: Backend.EditorPreferences, fontSize: int, autoSave: bool)
    requires I64Min <= p.fontSize <= I64Max
    ensures var loaded := LoadIntoState(st, p).editorPreferences;
            var edited := loaded[AppState.FontSizeKey := AppState.JsNum(fontSize)]
                                [AppState.AutoSaveKey := AppState.JsBool(autoSave)];
            Deserialize(edited) == Ok(p)
  {
    Utf16RoundTrip(p.theme);
    KeysDistinct();
  }

  /** The same preferences with the object keys the front end uses: the
      evidently intended bridge. */
  function SerializeFixed(p: Backend.EditorPreferences): (r: AppState.Preferences)
    ensures r.Keys == {AppState.ThemeKey, AppState.FontSizeKey, AppState.AutoSaveKey}
  {
    KeysDistinct();
    ToJs(p, AppState.FontSizeKey, AppState.AutoSaveKey)
  }

  function DeserializeFixed(obj: AppState.Preferences): (r: Result<Backend.EditorPreferences, DecodeError>)
    ensures r.Ok? ==> AppState.FontSizeKey in obj && obj[AppState.FontSizeKey] == AppState.JsNum(r.value.fontSize)
    ensures r.Ok? ==> AppState.AutoSaveKey in obj && obj[AppState.AutoSaveKey] == AppState.JsBool(r.value.autoSave)
  {
    FromJs(obj, AppState.FontSizeKey, AppState.AutoSaveKey)
  }

  function LoadIntoStateFixed(st: AppState.State, p: Backend.EditorPreferences): (r: AppState.State)
    ensures AppState.FontSizeKey in r.editorPreferences && AppState.AutoSaveKey in r.editorPreferences
    ensures r.editorPreferences[AppState.FontSizeKey] == AppState.JsNum(p.fontSize)
    ensures r.editorPreferences[AppState.AutoSaveKey] == AppState.JsBool(p.autoSave)
    ensures r.(editorPreferences := st.editorPreferences) == st
  {
    AppState.UpdatePreferences(st, SerializeFixed(p))
  }

  /** With the fixed keys a save carries exactly what the user set. */
  lemma FixedSaveCarriesEdits(st: AppState.State, p: Backend.EditorPreferences, fontSize: int, autoSave: bool)
    requires I64Min <= fontSize <= I64Max
    ensures var loaded := LoadIntoStateFixed(st, p).editorPreferences;
            var edited := loaded[AppState.FontSizeKey := AppState.JsNum(fontSize)]
                                [AppState.AutoSaveKey := AppState.JsBool(autoSave)];
            DeserializeFixed(edited) == Ok(p.(fontSize := fontSize, autoSave := autoSave))
  {
    Utf16RoundTrip(p.theme);
    KeysDistinct();
  }

  /** With the fixed keys, storing, loading and saving again keeps the row:
      the whole preference cycle is the identity. */
  lemma FixedPreferenceCycle(store: Backend.PreferenceStore, st: AppState.State, p: Backend.EditorPreferences)
    requires I64Min <= p.fontSize <= I64Max
    ensures var loaded := Backend.LoadPreferences(Backend.SavePreferences(store, p));
            DeserializeFixed(LoadIntoStateFixed(st, loaded).editorPreferences) == Ok(p)
  {
    Backend.PreferencesRoundTrip(store, p);
    FixedSaveCarriesEdits(st, p, p.fontSize, p.autoSave);
    var loaded := LoadIntoStateFixed(st, p).editorPreferences;
    assert loaded[AppState.FontSizeKey := AppState.JsNum(p.fontSize)]
                 [AppState.AutoSaveKey := AppState.JsBool(p.autoSave)] == loaded;
  }

  /** The start-up preferences are accepted by the fixed bridge. */
  lemma FixedAcceptsInitial()
    ensures DeserializeFixed(AppState.Initial.editorPreferences) == Ok(Backend.EditorPreferences("default", 16, false))
  {
    LitIsUtf16("default");
    Utf16RoundTrip("default");
    KeysDistinct();
  }
}
