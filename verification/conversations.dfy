/** The front-end conversation manager: the conversation list, the current
    conversation id, and the text helpers it renders with. Backend calls are
    replaced by their outcomes, passed in as parameters. */
module Conversations {
  import opened Wrappers
  import opened JsText
  import Seqs
  import AppState

  // ---------------------------------------------------------------------
  // escapeHtml
  // ---------------------------------------------------------------------

  const Ampersand: CodeUnit := 0x26
  const LessThan: CodeUnit := 0x3C
  const GreaterThan: CodeUnit := 0x3E
  const DoubleQuote: CodeUnit := 0x22
  const SingleQuote: CodeUnit := 0x27

  /** `s.replace(/c/g, replacement)` for a one-character pattern `c`. */
  function ReplaceAll(s: JsString, c: CodeUnit, replacement: JsString): (r: JsString)
    ensures c !in s ==> r == s
  {
    if s == [] then []
    else (if s[0] == c then replacement else [s[0]]) + ReplaceAll(s[1..], c, replacement)
  }

  /** Replacement works piece by piece. */
  lemma {:induction false} ReplaceAllAppend(a: JsString, b: JsString, c: CodeUnit, replacement: JsString)
    ensures ReplaceAll(a + b, c, replacement) == ReplaceAll(a, c, replacement) + ReplaceAll(b, c, replacement)
  {
    if a == [] {
      assert a + b == b;
    } else {
      assert (a + b)[1..] == a[1..] + b;
      ReplaceAllAppend(a[1..], b, c, replacement);
    }
  }

  const AmpEntity: JsString := [0x26, 0x61, 0x6D, 0x70, 0x3B]            // &amp;
  const LtEntity: JsString := [0x26, 0x6C, 0x74, 0x3B]                   // &lt;
  const GtEntity: JsString := [0x26, 0x67, 0x74, 0x3B]                   // &gt;
  const QuotEntity: JsString := [0x26, 0x71, 0x75, 0x6F, 0x74, 0x3B]     // &quot;
  const AposEntity: JsString := [0x26, 0x23, 0x30, 0x33, 0x39, 0x3B]     // &#039;

  /** The body of `escapeHtml(s)`: five global replacements, `&` first. */
  function ReplaceChain(s: JsString): JsString {
    var s1 := ReplaceAll(s, Ampersand, AmpEntity);
    var s2 := ReplaceAll(s1, LessThan, LtEntity);
    var s3 := ReplaceAll(s2, GreaterThan, GtEntity);
    var s4 := ReplaceAll(s3, DoubleQuote, QuotEntity);
    ReplaceAll(s4, SingleQuote, AposEntity)
  }

  /** `escapeHtml(s)`: every code unit replaced by its entity, because no
      replacement in the chain rewrites an entity an earlier one produced. */
  function EscapeHtml(s: JsString): (r: JsString)
    ensures r == EscapeEach(s)
  {
    EscapeHtmlPerCharacter(s);
    ReplaceChain(s)
  }

  /** The code units that would start or end markup or an attribute value. */
  predicate IsMarkup(u: CodeUnit) {
    u == LessThan || u == GreaterThan || u == DoubleQuote || u == SingleQuote
  }

  /** The entity that stands for one code unit in HTML text. */
  function EscapeUnit(u: CodeUnit): (r: JsString)
    ensures forall i | 0 <= i < |r| :: !IsMarkup(r[i])
    ensures !IsMarkup(u) && u != Ampersand ==> r == [u]
  {
    if u == Ampersand then AmpEntity
    else if u == LessThan then LtEntity
    else if u == GreaterThan then GtEntity
    else if u == DoubleQuote then QuotEntity
    else if u == SingleQuote then AposEntity
    else [u]
  }

  /** The reference escape: each code unit replaced by its entity. */
  function EscapeEach(s: JsString): JsString {
    if s == [] then [] else EscapeUnit(s[0]) + EscapeEach(s[1..])
  }

  /** The chain of replacements works piece by piece. */
  lemma ReplaceChainAppend(a: JsString, b: JsString)
    ensures ReplaceChain(a + b) == ReplaceChain(a) + ReplaceChain(b)
  {
    var a1, b1 := ReplaceAll(a, Ampersand, AmpEntity), ReplaceAll(b, Ampersand, AmpEntity);
    var a2, b2 := ReplaceAll(a1, LessThan, LtEntity), ReplaceAll(b1, LessThan, LtEntity);
    var a3, b3 := ReplaceAll(a2, GreaterThan, GtEntity), ReplaceAll(b2, GreaterThan, GtEntity);
    var a4, b4 := ReplaceAll(a3, DoubleQuote, QuotEntity), ReplaceAll(b3, DoubleQuote, QuotEntity);
    ReplaceAllAppend(a, b, Ampersand, AmpEntity);
    ReplaceAllAppend(a1, b1, LessThan, LtEntity);
    ReplaceAllAppend(a2, b2, GreaterThan, GtEntity);
    ReplaceAllAppend(a3, b3, DoubleQuote, QuotEntity);
    ReplaceAllAppend(a4, b4, SingleQuote, AposEntity);
  }

  /** Replacing in a one-unit string. */
  lemma ReplaceAllUnit(u: CodeUnit, c: CodeUnit, replacement: JsString)
    ensures ReplaceAll([u], c, replacement) == if u == c then replacement else [u]
  {
    assert [u][1..] == [];
  }

  /** Text with no markup characters passes the last four replacements
      unchanged. */
  lemma MarkupFreeUntouched(s: JsString)
    requires forall i | 0 <= i < |s| :: !IsMarkup(s[i])
    ensures ReplaceAll(ReplaceAll(ReplaceAll(ReplaceAll(s, LessThan, LtEntity), GreaterThan, GtEntity),
                                  DoubleQuote, QuotEntity), SingleQuote, AposEntity) == s
  {
    assert LessThan !in s && GreaterThan !in s && DoubleQuote !in s && SingleQuote !in s;
  }

  /** On a single code unit the chain of replacements yields its entity:
      no later replacement touches an entity an earlier one produced. */
  lemma ReplaceChainUnit(u: CodeUnit)
    ensures ReplaceChain([u]) == EscapeUnit(u)
  {
    ReplaceAllUnit(u, Ampersand, AmpEntity);
    if u == Ampersand {
      MarkupFreeUntouched(AmpEntity);
    } else {
      ReplaceAllUnit(u, LessThan, LtEntity);
      if u == LessThan {
        assert GreaterThan !in LtEntity && DoubleQuote !in LtEntity && SingleQuote !in LtEntity;
      } else {
        ReplaceAllUnit(u, GreaterThan, GtEntity);
        if u == GreaterThan {
          assert DoubleQuote !in GtEntity && SingleQuote !in GtEntity;
        } else {
          ReplaceAllUnit(u, DoubleQuote, QuotEntity);
          if u == DoubleQuote {
            assert SingleQuote !in QuotEntity;
          } else {
            ReplaceAllUnit(u, SingleQuote, AposEntity);
          }
        }
      }
    }
  }

  /** The chained replacements equal the per-character entity map. */
  lemma {:induction false} EscapeHtmlPerCharacter(s: JsString)
    ensures ReplaceChain(s) == EscapeEach(s)
  {
    if s != [] {
      assert s == [s[0]] + s[1..];
      ReplaceChainAppend([s[0]], s[1..]);
      ReplaceChainUnit(s[0]);
      EscapeHtmlPerCharacter(s[1..]);
    }
  }

  /** Escaped text contains no raw `<`, `>`, `"` or `'`. */
  lemma EscapeHtmlNoMarkup(s: JsString)
    ensures forall i | 0 <= i < |EscapeHtml(s)| :: !IsMarkup(EscapeHtml(s)[i])
  {
    EscapeEachNoMarkup(s);
  }

  lemma {:induction false} EscapeEachNoMarkup(s: JsString)
    ensures forall i | 0 <= i < |EscapeEach(s)| :: !IsMarkup(EscapeEach(s)[i])
  {
    if s != [] {
      EscapeEachNoMarkup(s[1..]);
    }
  }

  /** Text without `&` and markup characters is left as it is. */
  lemma {:induction false} EscapeHtmlPlain(s: JsString)
    requires forall i | 0 <= i < |s| :: !IsMarkup(s[i]) && s[i] != Ampersand
    ensures EscapeHtml(s) == s
  {
  }

  // ---------------------------------------------------------------------
  // Titles, token estimates and list previews
  // ---------------------------------------------------------------------

  const Ellipsis: JsString := Lit("...")

  /** `s.length > max ? s.substring(0, max) + '...' : s`, the truncation
      `generateTitle` (50) and the list preview (60) share. */
  function Ellipsize(s: JsString, max: nat): (r: JsString)
    ensures |s| <= max ==> r == s
    ensures |s| > max ==> |r| == max + 3 && r[..max] == s[..max] && r[max..] == Ellipsis
    ensures |r| <= max + 3
  {
    if |s| > max then Seqs.Take(s, max) + Ellipsis else s
  }

  const UserKind: JsString := Lit("user")
  const SystemKind: JsString := Lit("system")
  const NewConversationTitle: JsString := Lit("New Conversation")

  /** The index of the first user entry (`find(msg => msg.type === 'user')`). */
  function FirstUser(entries: seq<AppState.Entry>): (r: Option<nat>)
    ensures r.Some? ==> r.value < |entries| && entries[r.value].kind == UserKind
    ensures r.Some? ==> forall j | 0 <= j < r.value :: entries[j].kind != UserKind
    ensures r.None? ==> forall j | 0 <= j < |entries| :: entries[j].kind != UserKind
  {
    if entries == [] then None
    else if entries[0].kind == UserKind then Some(0)
    else match FirstUser(entries[1..])
      case None => None
      case Some(i) => Some(i + 1)
  }

  /** `generateTitle()`: the first user message, trimmed and cut to 50 code
      units plus "...", or "New Conversation" when there is none. */
  function GenerateTitle(entries: seq<AppState.Entry>): (r: JsString)
    ensures FirstUser(entries).None? ==> r == NewConversationTitle
    ensures FirstUser(entries).Some? ==> r == Ellipsize(Trim(entries[FirstUser(entries).value].content), 50)
    ensures |r| <= 53
  {
    match FirstUser(entries)
    case None => NewConversationTitle
    case Some(i) => Ellipsize(Trim(entries[i].content), 50)
  }

  /** `Math.ceil(length / 4)` for one message. */
  function EstimateTokens(content: JsString): (r: nat)
    ensures 4 * r >= |content| && 4 * (r - 1) < |content|
  {
    (|content| + 3) / 4
  }

  /** `estimateTokenCount()`: the per-entry estimates summed. */
  function EstimateTokenCount(entries: seq<AppState.Entry>): (r: nat)
    ensures r == 0 <==> forall i | 0 <= i < |entries| :: entries[i].content == []
  {
    if entries == [] then 0 else EstimateTokens(entries[0].content) + EstimateTokenCount(entries[1..])
  }

  /** The estimate of a concatenation is the sum of the estimates. */
  lemma {:induction false} EstimateTokenCountAppend(a: seq<AppState.Entry>, b: seq<AppState.Entry>)
    ensures EstimateTokenCount(a + b) == EstimateTokenCount(a) + EstimateTokenCount(b)
  {
    if a == [] {
      assert a + b == b;
    } else {
      assert (a + b)[1..] == a[1..] + b;
      EstimateTokenCountAppend(a[1..], b);
    }
  }

  /** The preview line of a list item: at most 60 code units plus "...". */
  function ListPreview(preview: JsString): (r: JsString)
    ensures |r| <= 63
    ensures |preview| <= 60 ==> r == preview
    ensures |preview| > 60 ==> |r| == 63 && r[..60] == preview[..60] && r[60..] == Ellipsis
  {
    Ellipsize(preview, 60)
  }

  // ---------------------------------------------------------------------
  // formatDate
  // ---------------------------------------------------------------------

  const DayMillis: int := 1000 * 60 * 60 * 24

  /** What a list item shows as its date; the locale rendering of the date
      itself is left abstract. */
  datatype DateLabel = Today | Yesterday | DaysAgo(n: int) | LocaleDate(millis: int)

  /** `Math.ceil(Math.abs(now - date) / (1000 * 60 * 60 * 24))`. */
  function DiffDays(nowMillis: int, dateMillis: int): (d: nat)
    ensures d * DayMillis >= Abs(nowMillis - dateMillis) > (d - 1) * DayMillis
  {
    (Abs(nowMillis - dateMillis) + DayMillis - 1) / DayMillis
  }

  function Abs(x: int): nat {
    if x < 0 then -x else x
  }

  /** `formatDate(date)` as written. */
  function FormatDate(nowMillis: int, dateMillis: int): (r: DateLabel)
    ensures DiffDays(nowMillis, dateMillis) == 1 <==> r == Today
    ensures DiffDays(nowMillis, dateMillis) == 2 <==> r == Yesterday
    ensures r.DaysAgo? <==> DiffDays(nowMillis, dateMillis) == 0 || 3 <= DiffDays(nowMillis, dateMillis) <= 7
    ensures r.DaysAgo? ==> r.n == DiffDays(nowMillis, dateMillis) - 1
    ensures r.LocaleDate? <==> DiffDays(nowMillis, dateMillis) > 7
  {
    var d := DiffDays(nowMillis, dateMillis);
    if d == 1 then Today
    else if d == 2 then Yesterday
    else if d <= 7 then DaysAgo(d - 1)
    else LocaleDate(dateMillis)
  }

  /** A conversation updated at this very millisecond is labelled
      "-1 days ago". */
  lemma FormatDateSameInstant(t: int)
    ensures FormatDate(t, t) == DaysAgo(-1)
  {
  }

  /** `formatDate` with a zero-day difference counted as today: the
      evidently intended labelling. */
  function FormatDateFixed(nowMillis: int, dateMillis: int): (r: DateLabel)
    ensures r == Today <==> DiffDays(nowMillis, dateMillis) <= 1
    ensures r.DaysAgo? ==> 2 <= r.n <= 6
    ensures DiffDays(nowMillis, dateMillis) >= 1 ==> r == FormatDate(nowMillis, dateMillis)
  {
    if DiffDays(nowMillis, dateMillis) == 0 then Today else FormatDate(nowMillis, dateMillis)
  }

  // ---------------------------------------------------------------------
  // The manager's state and its transitions
  // ---------------------------------------------------------------------

  /** A row of the conversation list as the backend returns it. */
  datatype ListEntry = ListEntry(
    id: JsString, title: JsString, preview: JsString, model: JsString,
    createdAt: JsString, updatedAt: JsString, tokenCount: int, messageCount: int)

  /** A stored message as the backend sends and receives it. */
  datatype JsMessage = JsMessage(role: JsString, content: JsString, timestamp: JsString)

  /** A conversation record as the backend sends and receives it. */
  datatype JsConversation = JsConversation(
    id: JsString, title: JsString, messages: seq<JsMessage>, model: JsString,
    createdAt: JsString, updatedAt: JsString, tokenCount: int)

  /** The manager's fields plus the shared application state it edits. */
  datatype Manager = Manager(
    conversations: seq<ListEntry>,
    currentId: Option<JsString>,
    app: AppState.State)

  const DeletedNotice: JsString := Lit("Conversation deleted. Start a new conversation.")
  const NotFoundNotice: JsString := Lit("New conversation - send a message to save it")

  /** The list filter `conv.id !== conversationId`. */
  function Keeps(id: JsString): ListEntry -> bool {
    (e: ListEntry) => e.id != id
  }

  /** `deleteConversationById(id)`: `confirmed` is the dialog's answer and
      `deleted` whether the backend call succeeded; `now` is the clock text
      stamped on the notice the chat receives. */
  function DeleteConversationById(m: Manager, id: JsString, confirmed: bool, deleted: bool,
                                  now: JsString): (r: Manager)
    ensures !(confirmed && deleted) ==> r == m
    ensures confirmed && deleted ==> forall i | 0 <= i < |r.conversations| :: r.conversations[i].id != id
    ensures confirmed && deleted ==>
              forall e | e in m.conversations && e.id != id :: e in r.conversations
    ensures confirmed && deleted ==> Seqs.IsSubsequence(r.conversations, m.conversations)
    ensures confirmed && deleted ==> (r.currentId.None? <==> m.currentId.None? || m.currentId == Some(id))
    ensures confirmed && deleted && m.currentId != Some(id) ==> r.currentId == m.currentId && r.app == m.app
    ensures confirmed && deleted && m.currentId == Some(id) ==>
              r.app.currentConversation == [AppState.Entry(SystemKind, DeletedNotice, now)]
    ensures r.app.(currentConversation := m.app.currentConversation) == m.app
  {
    if !confirmed || !deleted then m
    else
      var kept := Seqs.Filter(m.conversations, Keeps(id));
      Seqs.FilterIsSubsequence(m.conversations, Keeps(id));
      if m.currentId == Some(id) then
        var app := AppState.AddToConversation(AppState.ClearConversation(m.app), SystemKind, DeletedNotice, now);
        Manager(kept, None, app)
      else
        Manager(kept, m.currentId, m.app)
  }

  const StartedNotice: JsString := Lit("New conversation started")

  /** `startNewConversation()`: `selector` is the model selector's value and
      `created` what the backend's `create_new_conversation` returned. */
  function StartNewConversation(m: Manager, selector: Option<JsString>,
                                created: Result<JsConversation, JsString>, now: JsString): (r: Manager)
    ensures (selector.None? || selector == Some([]) || created.Err?) ==> r == m
    ensures selector.Some? && selector.value != [] && created.Ok? ==>
              r.currentId == Some(created.value.id)
              && r.app.currentConversation == [AppState.Entry(SystemKind, StartedNotice, now)]
              && r.conversations == m.conversations
    ensures r.app.(currentConversation := m.app.currentConversation) == m.app
  {
    if selector.None? || selector.value == [] then m
    else match created
      case Err(_) => m
      case Ok(conv) =>
        var app := AppState.AddToConversation(AppState.ClearConversation(m.app), SystemKind, StartedNotice, now);
        Manager(m.conversations, Some(conv.id), app)
  }

  /** `loadConversations()`: the backend's list, or an empty list when the
      call fails. */
  function LoadConversations(m: Manager, outcome: Result<seq<ListEntry>, JsString>): (r: Manager)
    ensures outcome.Ok? ==> r.conversations == outcome.value
    ensures outcome.Err? ==> r.conversations == []
    ensures r.currentId == m.currentId && r.app == m.app
  {
    m.(conversations := if outcome.Ok? then outcome.value else [])
  }

  /** `hasActiveConversation()`: `currentConversationId !== null`, so an
      empty id counts as active here although it does not for saving. */
  function HasActiveConversation(m: Manager): (r: bool)
    ensures r <==> m.currentId.Some?
    ensures CanSave(m) ==> r
  {
    m.currentId.Some?
  }

  /** A save request is sent only with a non-empty current id and a
      non-empty conversation (`!this.currentConversationId` also rejects ""). */
  predicate CanSave(m: Manager) {
    m.currentId.Some? && m.currentId.value != [] && m.app.currentConversation != []
  }

  const UnknownModel: JsString := Lit("unknown")

  /** The message list a save request carries. */
  function ToJsMessages(entries: seq<AppState.Entry>): (r: seq<JsMessage>)
    ensures |r| == |entries|
    ensures forall i | 0 <= i < |r| ::
              r[i] == JsMessage(entries[i].kind, entries[i].content, entries[i].timestamp)
  {
    seq(|entries|, i requires 0 <= i < |entries| =>
      JsMessage(entries[i].kind, entries[i].content, entries[i].timestamp))
  }

  /** `saveCurrentConversation()` up to the request it sends: None when it
      returns early. `selector` is the model selector's value (None when the
      element is missing); `created` and `updated` are the texts of the two
      separate clock readings taken for `created_at` and `updated_at`. */
  function SaveRequest(m: Manager, selector: Option<JsString>, created: JsString, updated: JsString)
    : (r: Option<JsConversation>)
    ensures r.Some? <==> CanSave(m)
    ensures r.Some? ==> r.value.id == m.currentId.value
    ensures r.Some? ==> r.value.title == GenerateTitle(m.app.currentConversation)
    ensures r.Some? ==> r.value.messages == ToJsMessages(m.app.currentConversation)
    ensures r.Some? ==> r.value.tokenCount == EstimateTokenCount(m.app.currentConversation)
    ensures r.Some? ==> r.value.createdAt == created && r.value.updatedAt == updated
    ensures r.Some? ==> r.value.model != []
  {
    if !CanSave(m) then None
    else
      var model := if selector.Some? && selector.value != [] then selector.value else UnknownModel;
      Some(JsConversation(m.currentId.value, GenerateTitle(m.app.currentConversation),
                          ToJsMessages(m.app.currentConversation), model, created, updated,
                          EstimateTokenCount(m.app.currentConversation)))
  }

  /** The entries a loaded conversation is pushed as (lines 147-153). */
  function ToEntries(messages: seq<JsMessage>): (r: seq<AppState.Entry>)
    ensures |r| == |messages|
    ensures forall i | 0 <= i < |r| ::
              r[i] == AppState.Entry(messages[i].role, messages[i].content, messages[i].timestamp)
  {
    seq(|messages|, i requires 0 <= i < |messages| =>
      AppState.Entry(messages[i].role, messages[i].content, messages[i].timestamp))
  }

  /** `displayConversationMessages`: `addMessage` for each message, which
      also appends it to the running conversation stamped with a fresh clock
      reading; `clock(i)` is the reading taken for the `i`-th message. */
  function Redisplay(st: AppState.State, messages: seq<JsMessage>, clock: nat -> JsString): (r: AppState.State)
    ensures |r.currentConversation| == |st.currentConversation| + |messages|
    ensures r.currentConversation[..|st.currentConversation|] == st.currentConversation
    ensures forall i | 0 <= i < |messages| ::
              r.currentConversation[|st.currentConversation| + i]
              == AppState.Entry(messages[i].role, messages[i].content, clock(i))
    ensures r.(currentConversation := st.currentConversation) == st
    decreases |messages|
  {
    if messages == [] then st
    else
      var n := |messages| - 1;
      var before := Redisplay(st, messages[..n], clock);
      var r := AppState.AddToConversation(before, messages[n].role, messages[n].content, clock(n));
      assert forall i | 0 <= i < n :: messages[..n][i] == messages[i];
      r
  }

  /** The backend error texts `loadConversationById` treats as "no such
      conversation yet". */
  predicate IsNotFound(error: JsString) {
    Seqs.Includes(error, Lit("Query returned no rows"))
    || Seqs.Includes(error, Lit("Failed to load conversation"))
  }

  /** `loadConversationById(id)` as written; `outcome` is what the backend's
      `load_conversation` returned and `clock(i)` the `i`-th clock reading
      the call takes (one per displayed message, or one for the notice). */
  function LoadConversationById(m: Manager, id: JsString, outcome: Result<JsConversation, JsString>,
                                clock: nat -> JsString): (r: Manager)
    ensures m.currentId == Some(id) ==> r == m
    ensures m.currentId != Some(id) && outcome.Ok? ==>
              r.currentId == Some(id)
              && |r.app.currentConversation| == 2 * |outcome.value.messages|
              && r.app.currentConversation[..|outcome.value.messages|] == ToEntries(outcome.value.messages)
    ensures m.currentId != Some(id) && outcome.Ok? ==>
              forall i | 0 <= i < |outcome.value.messages| ::
                r.app.currentConversation[|outcome.value.messages| + i]
                == AppState.Entry(outcome.value.messages[i].role, outcome.value.messages[i].content, clock(i))
    ensures m.currentId != Some(id) && outcome.Err? && IsNotFound(outcome.error) ==>
              r.currentId == Some(id)
              && r.app.currentConversation == [AppState.Entry(SystemKind, NotFoundNotice, clock(0))]
    ensures m.currentId != Some(id) && outcome.Err? && !IsNotFound(outcome.error) ==> r == m
    ensures r.conversations == m.conversations
    ensures r.app.(currentConversation := m.app.currentConversation) == m.app
  {
    if m.currentId == Some(id) then m
    else match outcome
      case Ok(conv) =>
        var pushed := AppState.ClearConversation(m.app).(currentConversation := ToEntries(conv.messages));
        Manager(m.conversations, Some(id), Redisplay(pushed, conv.messages, clock))
      case Err(e) =>
        if IsNotFound(e) then
          var app := AppState.AddToConversation(AppState.ClearConversation(m.app), SystemKind, NotFoundNotice, clock(0));
          Manager(m.conversations, Some(id), app)
        else m
  }

  /** Loading a one-message conversation leaves two entries in the running
      conversation: the message is pushed and then added again on display. */
  lemma LoadDuplicatesMessages(m: Manager, id: JsString, msg: JsMessage, clock: nat -> JsString)
    requires m.currentId != Some(id)
    ensures var conv := JsConversation(id, [], [msg], [], [], [], 0);
            LoadConversationById(m, id, Ok(conv), clock).app.currentConversation
            == [AppState.Entry(msg.role, msg.content, msg.timestamp), AppState.Entry(msg.role, msg.content, clock(0))]
  {
    var conv := JsConversation(id, [], [msg], [], [], [], 0);
    var cc := LoadConversationById(m, id, Ok(conv), clock).app.currentConversation;
    assert cc[..1] == ToEntries([msg]);
  }

  /** `loadConversationById` with the loaded messages pushed once only: the
      evidently intended behaviour. */
  function LoadConversationByIdFixed(m: Manager, id: JsString, outcome: Result<JsConversation, JsString>,
                                     clock: nat -> JsString): (r: Manager)
    ensures m.currentId != Some(id) && outcome.Ok? ==>
              r.currentId == Some(id) && r.app.currentConversation == ToEntries(outcome.value.messages)
    ensures !(m.currentId != Some(id) && outcome.Ok?) ==> r == LoadConversationById(m, id, outcome, clock)
  {
    if m.currentId != Some(id) && outcome.Ok? then
      Manager(m.conversations, Some(id),
              AppState.ClearConversation(m.app).(currentConversation := ToEntries(outcome.value.messages)))
    else LoadConversationById(m, id, outcome, clock)
  }

  /** With the fix, saving right after loading sends back exactly the loaded
      messages. */
  lemma LoadThenSaveRoundTrip(m: Manager, id: JsString, conv: JsConversation, selector: Option<JsString>,
                              clock: nat -> JsString, created: JsString, updated: JsString)
    requires m.currentId != Some(id) && id != [] && conv.messages != []
    ensures var loaded := LoadConversationByIdFixed(m, id, Ok(conv), clock);
            SaveRequest(loaded, selector, created, updated).Some?
            && SaveRequest(loaded, selector, created, updated).value.messages == conv.messages
  {
    var loaded := LoadConversationByIdFixed(m, id, Ok(conv), clock);
    assert ToJsMessages(loaded.app.currentConversation) == conv.messages;
  }

  // ---------------------------------------------------------------------
  // The rest of a save: the title update and the list reload
  // ---------------------------------------------------------------------

  /** A value in the argument object of a backend command: a string or a
      nested object. */
  datatype ArgValue = Text(text: JsString) | Object(fields: map<JsString, ArgValue>)

  const ConversationIdKey: JsString := Lit("conversationId")
  const FirstMessageKey: JsString := Lit("firstMessage")

  lemma TitleKeysDistinct()
    ensures ConversationIdKey != FirstMessageKey
  {
    assert ConversationIdKey[0] as int == 'c' as int && FirstMessageKey[0] as int == 'f' as int;
  }

  /** `updateConversationTitle(conversationId, firstMessage)`: the arguments
      `{ conversationId, firstMessage }` of the `update_conversation_title`
      command; a parameter the caller leaves undefined is dropped when the
      arguments are serialised. */
  function TitleArgs(conversationId: Option<ArgValue>, firstMessage: Option<ArgValue>): (r: map<JsString, ArgValue>)
    ensures ConversationIdKey in r <==> conversationId.Some?
    ensures conversationId.Some? ==> r[ConversationIdKey] == conversationId.value
    ensures FirstMessageKey in r <==> firstMessage.Some?
    ensures firstMessage.Some? ==> r[FirstMessageKey] == firstMessage.value
  {
    TitleKeysDistinct();
    var first := if firstMessage.Some? then map[FirstMessageKey := firstMessage.value] else map[];
    if conversationId.Some? then first[ConversationIdKey := conversationId.value] else first
  }

  /** How `update_conversation_title(conversation_id: String,
      first_message: String)` reads its arguments: both keys present and
      holding strings, or the call is rejected before the command runs. */
  function DecodeTitleArgs(args: map<JsString, ArgValue>): (r: Option<(JsString, JsString)>)
    ensures r.Some? <==> ConversationIdKey in args && args[ConversationIdKey].Text?
                         && FirstMessageKey in args && args[FirstMessageKey].Text?
    ensures r.Some? ==> r.value == (args[ConversationIdKey].text, args[FirstMessageKey].text)
  {
    if ConversationIdKey in args && args[ConversationIdKey].Text?
       && FirstMessageKey in args && args[FirstMessageKey].Text?
    then Some((args[ConversationIdKey].text, args[FirstMessageKey].text))
    else None
  }

  /** The title call as written: one object `{conversationId, firstMessage}`
      in the place of the first parameter, and nothing in the second. */
  function TitleCallAsWritten(id: JsString, first: JsString): (r: map<JsString, ArgValue>)
    ensures DecodeTitleArgs(r).None?
  {
    TitleArgs(Some(Object(map[ConversationIdKey := Text(id), FirstMessageKey := Text(first)])), None)
  }

  /** The title call with the id and the message passed as the two
      parameters. */
  function TitleCallFixed(id: JsString, first: JsString): (r: map<JsString, ArgValue>)
    ensures DecodeTitleArgs(r) == Some((id, first))
  {
    TitleArgs(Some(Text(id)), Some(Text(first)))
  }

  /** How a save ends: it returned early, it completed, or its `catch`
      reported "Failed to save conversation". */
  datatype SaveStatus = Skipped | Saved | SaveFailed

  /** The manager after a save, how the save ended, and the arguments of
      the title call if one was made. */
  datatype SaveOutcome = SaveOutcome(manager: Manager, status: SaveStatus, titleCall: Option<map<JsString, ArgValue>>)

  /** `saveCurrentConversation()` after the request is built, with the title
      call's arguments built as written or as fixed. `saved` is what
      `save_conversation` returned, `titled` what `update_conversation_title`
      returns for arguments it can read, and `listed` what the list reload
      returned. */
  function SaveWith(m: Manager, positional: bool, saved: Result<(), JsString>, titled: Result<(), JsString>,
                    listed: Result<seq<ListEntry>, JsString>): SaveOutcome
  {
    if !CanSave(m) then SaveOutcome(m, Skipped, None)
    else if saved.Err? then SaveOutcome(m, SaveFailed, None)
    else match FirstUser(m.app.currentConversation)
      case None => SaveOutcome(LoadConversations(m, listed), Saved, None)
      case Some(i) =>
        var id, first := m.currentId.value, m.app.currentConversation[i].content;
        var args := if positional then TitleCallFixed(id, first) else TitleCallAsWritten(id, first);
        if DecodeTitleArgs(args).Some? && titled.Ok? then SaveOutcome(LoadConversations(m, listed), Saved, Some(args))
        else SaveOutcome(m, SaveFailed, Some(args))
  }

  /** `saveCurrentConversation()` as written: once the conversation holds a
      user message, the title call is always rejected, so the save reports
      failure and the list is not reloaded, whatever the backend does. */
  function SaveCurrentConversation(m: Manager, saved: Result<(), JsString>, titled: Result<(), JsString>,
                                   listed: Result<seq<ListEntry>, JsString>): (r: SaveOutcome)
    ensures !CanSave(m) ==> r == SaveOutcome(m, Skipped, None)
    ensures CanSave(m) && saved.Err? ==> r == SaveOutcome(m, SaveFailed, None)
    ensures CanSave(m) && saved.Ok? && FirstUser(m.app.currentConversation).None? ==>
              r == SaveOutcome(LoadConversations(m, listed), Saved, None)
    ensures CanSave(m) && saved.Ok? && FirstUser(m.app.currentConversation).Some? ==>
              r.manager == m && r.status == SaveFailed
              && r.titleCall == Some(TitleCallAsWritten(m.currentId.value,
                                                        m.app.currentConversation[FirstUser(m.app.currentConversation).value].content))
  {
    SaveWith(m, false, saved, titled, listed)
  }

  /** A saved chat with one user message reports failure even when every
      backend call succeeds. */
  lemma SaveReportsFailure(id: JsString, text: JsString, now: JsString, app: AppState.State,
                           listed: seq<ListEntry>)
    requires id != []
    ensures var m := Manager([], Some(id), app.(currentConversation := [AppState.Entry(UserKind, text, now)]));
            SaveCurrentConversation(m, Ok(()), Ok(()), Ok(listed)).status == SaveFailed
            && SaveCurrentConversation(m, Ok(()), Ok(()), Ok(listed)).manager.conversations == []
  {
    var m := Manager([], Some(id), app.(currentConversation := [AppState.Entry(UserKind, text, now)]));
    assert FirstUser(m.app.currentConversation) == Some(0);
  }

  /** `saveCurrentConversation()` with the title call's arguments passed
      positionally: it completes exactly when every backend call it makes
      succeeds, and then the list is reloaded. */
  function SaveCurrentConversationFixed(m: Manager, saved: Result<(), JsString>, titled: Result<(), JsString>,
                                        listed: Result<seq<ListEntry>, JsString>): (r: SaveOutcome)
    ensures !CanSave(m) ==> r == SaveOutcome(m, Skipped, None)
    ensures CanSave(m) ==>
              (r.status == Saved <==> saved.Ok? && (FirstUser(m.app.currentConversation).Some? ==> titled.Ok?))
    ensures CanSave(m) && r.status != Saved ==> r.status == SaveFailed && r.manager == m
    ensures r.status == Saved ==> r.manager == LoadConversations(m, listed)
    ensures CanSave(m) && saved.Ok? && FirstUser(m.app.currentConversation).Some? ==>
              r.titleCall.Some?
              && DecodeTitleArgs(r.titleCall.value)
                 == Some((m.currentId.value, m.app.currentConversation[FirstUser(m.app.currentConversation).value].content))
  {
    SaveWith(m, true, saved, titled, listed)
  }

  /** With the fix, the same save as in `SaveReportsFailure` completes and
      shows the reloaded list. */
  lemma FixedSaveCompletes(id: JsString, text: JsString, now: JsString, app: AppState.State,
                           listed: seq<ListEntry>)
    requires id != []
    ensures var m := Manager([], Some(id), app.(currentConversation := [AppState.Entry(UserKind, text, now)]));
            SaveCurrentConversationFixed(m, Ok(()), Ok(()), Ok(listed)).status == Saved
            && SaveCurrentConversationFixed(m, Ok(()), Ok(()), Ok(listed)).manager.conversations == listed
  {
    var m := Manager([], Some(id), app.(currentConversation := [AppState.Entry(UserKind, text, now)]));
    assert FirstUser(m.app.currentConversation) == Some(0);
  }

  // ---------------------------------------------------------------------
  // The rendered list
  // ---------------------------------------------------------------------

  /** One `<li>` of the conversation list: the placeholder shown when there
      is no history, or a conversation's item with its texts as inserted. */
  datatype ListItem =
    | Placeholder
    | Item(id: JsString, title: JsString, model: JsString, messageCount: int,
           preview: JsString, date: DateLabel, tokenCount: int)

  /** `createConversationElement(conversation)`; `updatedMillis` is
      `new Date(conversation.updated_at)` and `nowMillis` the clock. */
  function RenderItem(e: ListEntry, nowMillis: int, updatedMillis: int): (r: ListItem)
    ensures r.Item? && r.id == e.id
    ensures r.title == EscapeEach(e.title) && r.preview == EscapeEach(ListPreview(e.preview))
    ensures r.model == e.model && r.messageCount == e.messageCount && r.tokenCount == e.tokenCount
    ensures r.date == FormatDate(nowMillis, updatedMillis)
  {
    Item(e.id, EscapeHtml(e.title), e.model, e.messageCount,
         EscapeHtml(ListPreview(e.preview)), FormatDate(nowMillis, updatedMillis), e.tokenCount)
  }

  /** One item per conversation, in list order. */
  function RenderItems(entries: seq<ListEntry>, nowMillis: int, parseDate: JsString -> int): (r: seq<ListItem>)
    ensures |r| == |entries|
    ensures forall i | 0 <= i < |r| :: r[i] == RenderItem(entries[i], nowMillis, parseDate(entries[i].updatedAt))
  {
    seq(|entries|, i requires 0 <= i < |entries| =>
      RenderItem(entries[i], nowMillis, parseDate(entries[i].updatedAt)))
  }

  /** `renderConversationsList()`; `parseDate` stands for `new Date(text)`. */
  function RenderList(entries: seq<ListEntry>, nowMillis: int, parseDate: JsString -> int): (r: seq<ListItem>)
    ensures entries == [] <==> r == [Placeholder]
    ensures entries != [] ==> |r| == |entries|
    ensures entries != [] ==> forall i | 0 <= i < |r| :: r[i].Item? && r[i].id == entries[i].id
  {
    if entries == [] then
      [Placeholder]
    else
      var items := RenderItems(entries, nowMillis, parseDate);
      assert items[0].Item?;
      items
  }

  /** No rendered title or preview carries a raw `<`, `>`, `"` or `'`, and
      a preview shows at most 60 code units of the original text before its
      escaping. */
  lemma RenderedTextIsInert(entries: seq<ListEntry>, nowMillis: int, parseDate: JsString -> int, i: nat)
    requires i < |entries|
    ensures var item := RenderList(entries, nowMillis, parseDate)[i];
            (forall k | 0 <= k < |item.title| :: !IsMarkup(item.title[k]))
            && (forall k | 0 <= k < |item.preview| :: !IsMarkup(item.preview[k]))
            && item.preview == EscapeEach(ListPreview(entries[i].preview))
  {
    EscapeHtmlNoMarkup(entries[i].title);
    EscapeHtmlNoMarkup(ListPreview(entries[i].preview));
  }
}
