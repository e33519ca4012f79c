/** The pure parts of the conversation command layer: token estimates, title
    and preview truncation, the conversation and message tables as plain
    data, new-conversation defaults and the preference row. */
module Backend {
  import opened Wrappers
  import opened RustText
  import Seqs

  // ---------------------------------------------------------------------
  // Token estimate
  // ---------------------------------------------------------------------

  /** `estimate_token_count`: a quarter of the UTF-8 byte length, rounded up. */
  function EstimateTokenCount(text: string): (r: int)
    ensures r >= 0
    ensures 4 * r >= ByteLen(text) && 4 * (r - 1) < ByteLen(text)
    ensures r == 0 <==> text == []
  {
    (ByteLen(text) + 3) / 4
  }

  datatype Message = Message(role: string, content: string, timestamp: string)

  datatype Conversation = Conversation(
    id: string,
    title: string,
    messages: seq<Message>,
    model: string,
    createdAt: string,
    updatedAt: string,
    tokenCount: int)

  /** The token total `save_conversation` stores: the per-message estimates summed. */
  function TotalTokens(messages: seq<Message>): (r: int)
    ensures r >= 0
    ensures r == 0 <==> forall i | 0 <= i < |messages| :: messages[i].content == []
  {
    if messages == [] then 0
    else EstimateTokenCount(messages[0].content) + TotalTokens(messages[1..])
  }

  /** The total of a concatenation is the sum of the totals. */
  lemma {:induction false} TotalTokensAppend(a: seq<Message>, b: seq<Message>)
    ensures TotalTokens(a + b) == TotalTokens(a) + TotalTokens(b)
  {
    if a == [] {
      assert a + b == b;
    } else {
      assert (a + b)[1..] == a[1..] + b;
      TotalTokensAppend(a[1..], b);
    }
  }

  // ---------------------------------------------------------------------
  // Title and preview truncation
  // ---------------------------------------------------------------------

  const Ellipsis: string := "..."

  /** `r` is a prefix of `s` followed by "..."; the prefix kept is
      `s[..|r| - 3]`. */
  predicate Truncates(s: string, r: string) {
    3 <= |r| <= |s| + 3 && r == s[..|r| - 3] + Ellipsis
  }

  /** The truncation both `generate_title` and `get_conversations` perform:
      keep `s` when it is at most `max` bytes, otherwise `&s[..max]` followed
      by "...", which panics when byte `max` is inside a character. */
  function Ellipsize(s: string, max: nat): (r: Result<string, Panic>)
    ensures ByteLen(s) <= max ==> r == Ok(s)
    ensures ByteLen(s) > max ==> (r.Ok? <==> IsCharBoundary(s, max))
    ensures ByteLen(s) > max && r.Ok? ==> Truncates(s, r.value) && ByteLen(s[..|r.value| - 3]) == max
    ensures r.Err? ==> r.error == NotCharBoundary
    ensures r.Ok? ==> ByteLen(r.value) <= max + 3
  {
    if ByteLen(s) <= max then Ok(s)
    else
      SliceToOkIffBoundary(s, max);
      match SliceTo(s, max)
      case Ok(p) =>
        ByteLenAppend(p, Ellipsis);
        assert p == s[..|p|];
        Ok(p + Ellipsis)
      case Err(e) =>
        assert e != OutOfBounds;
        Err(e)
  }

  /** `generate_title`: the trimmed first message, cut to 50 bytes plus
      "..." when longer. */
  function GenerateTitle(firstMessage: string): (r: Result<string, Panic>)
    ensures ByteLen(Trim(firstMessage)) <= 50 ==> r == Ok(Trim(firstMessage))
    ensures ByteLen(Trim(firstMessage)) > 50 && r.Ok? ==>
              Truncates(Trim(firstMessage), r.value) && ByteLen(Trim(firstMessage)[..|r.value| - 3]) == 50
    ensures r.Err? <==> ByteLen(Trim(firstMessage)) > 50 && !IsCharBoundary(Trim(firstMessage), 50)
    ensures r.Ok? ==> ByteLen(r.value) <= 53
  {
    Ellipsize(Trim(firstMessage), 50)
  }

  /** The longest prefix of `s` that fits in `max` bytes: `&s[..n]` at the
      largest character boundary `n <= max`. */
  function FloorPrefix(s: string, max: nat): (r: string)
    ensures |r| <= |s| && r == s[..|r|]
    ensures ByteLen(r) <= max
    ensures |r| < |s| ==> ByteLen(r) + Utf8Len(s[|r|]) > max
  {
    if s == [] || Utf8Len(s[0]) > max then []
    else
      var t := FloorPrefix(s[1..], max - Utf8Len(s[0]));
      assert ([s[0]] + t)[1..] == t;
      [s[0]] + t
  }

  /** Truncation that cuts at the last character boundary within `max`
      bytes, so it never fails. */
  function EllipsizeAtBoundary(s: string, max: nat): (r: string)
    ensures ByteLen(s) <= max ==> r == s
    ensures ByteLen(s) > max ==> Truncates(s, r) && |r| - 3 < |s| && max - 3 <= ByteLen(s[..|r| - 3]) <= max
    ensures ByteLen(r) <= max + 3
  {
    if ByteLen(s) <= max then s
    else
      var p := FloorPrefix(s, max);
      ByteLenAppend(p, Ellipsis);
      assert p != s;
      p + Ellipsis
  }

  /** Wherever the source's truncation succeeds, cutting at the last boundary
      gives the same string. */
  lemma EllipsizeAgreement(s: string, max: nat)
    requires Ellipsize(s, max).Ok?
    ensures EllipsizeAtBoundary(s, max) == Ellipsize(s, max).value
  {
    if ByteLen(s) > max {
      var k := |Ellipsize(s, max).value| - 3;
      var p := FloorPrefix(s, max);
      if |p| < k {
        ByteLenPrefixMonotone(s, |p| + 1, k);
        assert s[..|p| + 1] == p + [s[|p|]];
        ByteLenAppend(p, [s[|p|]]);
      } else if |p| > k {
        ByteLenPrefixMonotone(s, k + 1, |p|);
        assert s[..k + 1] == s[..k] + [s[k]];
        ByteLenAppend(s[..k], [s[k]]);
      }
    }
  }

  /** `generate_title` with the cut moved to the last character boundary: the
      evidently intended title, which always exists. */
  function GenerateTitleAtBoundary(firstMessage: string): (r: string)
    ensures ByteLen(r) <= 53
    ensures GenerateTitle(firstMessage).Ok? ==> r == GenerateTitle(firstMessage).value
  {
    EllipsizeAgreementIfOk(Trim(firstMessage), 50);
    EllipsizeAtBoundary(Trim(firstMessage), 50)
  }

  lemma EllipsizeAgreementIfOk(s: string, max: nat)
    ensures Ellipsize(s, max).Ok? ==> EllipsizeAtBoundary(s, max) == Ellipsize(s, max).value
  {
    if Ellipsize(s, max).Ok? {
      EllipsizeAgreement(s, max);
    }
  }

  /** A first message of 49 ASCII letters followed by "é" is 51 bytes long
      and its 50th byte falls inside "é", so `generate_title` panics. */
  lemma TitlePanicsInsideCharacter()
    ensures GenerateTitle(seq(49, _ => 'a') + "é").Err?
  {
    var a: string := seq(49, _ => 'a');
    var s := a + "é";
    assert Seqs.TrimOffset(s, IsWhitespace) == 0;
    assert Seqs.BackOverBlanks(s, 0, |s|, IsWhitespace) == |s|;
    assert Trim(s) == s;
    ByteLenAscii(a);
    ByteLenAppend(a, "é");
    forall k | 0 <= k <= |s| ensures ByteLen(s[..k]) != 50 {
      if k <= 49 {
        assert s[..k] == a[..k];
        ByteLenAscii(a[..k]);
      } else {
        assert s[..k] == s;
      }
    }
  }

  // ---------------------------------------------------------------------
  // The conversation and message tables
  // ---------------------------------------------------------------------

  /** A row of the `conversations` table, keyed by conversation id. */
  datatype ConversationRow = ConversationRow(
    title: string, model: string, createdAt: string, updatedAt: string, tokenCount: int)

  /** A row of the `messages` table. */
  datatype MessageRow = MessageRow(
    conversationId: string, role: string, content: string, timestamp: string, position: int)

  /** The database: conversation rows by id, and message rows in insertion
      (auto-increment id) order. */
  datatype Db = Db(conversations: map<string, ConversationRow>, messages: seq<MessageRow>)

  /** The row filter `WHERE conversation_id = id`. */
  function BelongsTo(id: string): MessageRow -> bool {
    (m: MessageRow) => m.conversationId == id
  }

  /** The row filter `WHERE conversation_id != id`. */
  function BelongsElsewhere(id: string): MessageRow -> bool {
    (m: MessageRow) => m.conversationId != id
  }

  /** The message rows of conversation `id`: all of them and no others, in
      stored order. */
  function RowsOf(rows: seq<MessageRow>, id: string): (r: seq<MessageRow>)
    ensures forall i | 0 <= i < |r| :: r[i].conversationId == id
    ensures forall i | 0 <= i < |rows| && rows[i].conversationId == id :: rows[i] in r
    ensures Seqs.IsSubsequence(r, rows)
  {
    Seqs.FilterIsSubsequence(rows, BelongsTo(id));
    Seqs.Filter(rows, BelongsTo(id))
  }

  /** The message rows of every other conversation (what
      `DELETE FROM messages WHERE conversation_id = id` leaves): all of them,
      in stored order. */
  function RowsNotOf(rows: seq<MessageRow>, id: string): (r: seq<MessageRow>)
    ensures forall i | 0 <= i < |r| :: r[i].conversationId != id
    ensures forall i | 0 <= i < |rows| && rows[i].conversationId != id :: rows[i] in r
    ensures Seqs.IsSubsequence(r, rows)
  {
    Seqs.FilterIsSubsequence(rows, BelongsElsewhere(id));
    Seqs.Filter(rows, BelongsElsewhere(id))
  }

  /** Positions never decrease along `rows`. */
  ghost predicate SortedByPosition(rows: seq<MessageRow>) {
    forall i, j | 0 <= i < j < |rows| :: rows[i].position <= rows[j].position
  }

  /** Inserts `m` before the first row whose position is not smaller. */
  function InsertByPosition(m: MessageRow, rows: seq<MessageRow>): (r: seq<MessageRow>)
    ensures multiset(r) == multiset(rows) + multiset{m}
    ensures |r| == |rows| + 1
    ensures r[0] == m || (rows != [] && r[0] == rows[0])
  {
    if rows == [] || m.position <= rows[0].position then [m] + rows
    else
      assert rows == [rows[0]] + rows[1..];
      [rows[0]] + InsertByPosition(m, rows[1..])
  }

  /** Inserting into rows in position order keeps them in order. */
  lemma {:induction false} InsertSorted(m: MessageRow, rows: seq<MessageRow>)
    requires SortedByPosition(rows)
    ensures SortedByPosition(InsertByPosition(m, rows))
  {
    if rows != [] && m.position > rows[0].position {
      var t := InsertByPosition(m, rows[1..]);
      var r := [rows[0]] + t;
      assert SortedByPosition(rows[1..]) by {
        forall i, j | 0 <= i < j < |rows[1..]| ensures rows[1..][i].position <= rows[1..][j].position {
          assert rows[1..][i] == rows[i + 1] && rows[1..][j] == rows[j + 1];
        }
      }
      InsertSorted(m, rows[1..]);
      assert rows[0].position <= t[0].position by {
        if t[0] != m { assert t[0] == rows[1]; }
      }
      forall i, j | 0 <= i < j < |r| ensures r[i].position <= r[j].position {
        assert r[j] == t[j - 1];
        if i == 0 {
          assert t[0].position <= t[j - 1].position;
        } else {
          assert r[i] == t[i - 1];
        }
      }
    }
  }

  /** `ORDER BY position ASC`, as a stable insertion sort. */
  function SortByPosition(rows: seq<MessageRow>): (r: seq<MessageRow>)
    ensures SortedByPosition(r)
    ensures multiset(r) == multiset(rows)
  {
    if rows == [] then []
    else
      assert rows == [rows[0]] + rows[1..];
      var t := SortByPosition(rows[1..]);
      InsertSorted(rows[0], t);
      InsertByPosition(rows[0], t)
  }

  /** Sorting rows that are already in position order changes nothing. */
  lemma {:induction false} SortSorted(rows: seq<MessageRow>)
    requires SortedByPosition(rows)
    ensures SortByPosition(rows) == rows
  {
    if rows != [] {
      SortSorted(rows[1..]);
    }
  }

  /** The message rows `save_conversation` inserts: message `i` at position `i`. */
  function MessageRows(id: string, messages: seq<Message>): (r: seq<MessageRow>)
    ensures |r| == |messages|
    ensures forall i | 0 <= i < |r| ::
              r[i] == MessageRow(id, messages[i].role, messages[i].content, messages[i].timestamp, i)
  {
    seq(|messages|, i requires 0 <= i < |messages| =>
      MessageRow(id, messages[i].role, messages[i].content, messages[i].timestamp, i))
  }

  /** The messages a list of rows reads back as. */
  function ToMessages(rows: seq<MessageRow>): (r: seq<Message>)
    ensures |r| == |rows|
    ensures forall i | 0 <= i < |r| ::
              r[i] == Message(rows[i].role, rows[i].content, rows[i].timestamp)
  {
    seq(|rows|, i requires 0 <= i < |rows| => Message(rows[i].role, rows[i].content, rows[i].timestamp))
  }

  /** `save_conversation`: upserts the conversation row with the recomputed
      token total, deletes its old messages and inserts the current ones. */
  function SaveConversation(db: Db, c: Conversation): (r: Db)
    ensures r.conversations.Keys == db.conversations.Keys + {c.id}
    ensures r.conversations[c.id].tokenCount == TotalTokens(c.messages)
    ensures r.conversations[c.id].title == c.title && r.conversations[c.id].model == c.model
    ensures r.conversations[c.id].createdAt == c.createdAt && r.conversations[c.id].updatedAt == c.updatedAt
    ensures forall id | id in db.conversations && id != c.id :: r.conversations[id] == db.conversations[id]
    ensures RowsOf(r.messages, c.id) == MessageRows(c.id, c.messages)
  {
    var others := RowsNotOf(db.messages, c.id);
    var inserted := MessageRows(c.id, c.messages);
    var row := ConversationRow(c.title, c.model, c.createdAt, c.updatedAt, TotalTokens(c.messages));
    Seqs.FilterAppend(others, inserted, BelongsTo(c.id));
    Seqs.FilterAll(inserted, BelongsTo(c.id));
    Seqs.FilterNone(others, BelongsTo(c.id));
    Db(db.conversations[c.id := row], others + inserted)
  }

  /** The error text `load_conversation` returns for an unknown id. */
  const NotFound: string := "Failed to load conversation: Query returned no rows"

  /** `load_conversation`: the conversation row and its messages in position order. */
  function LoadConversation(db: Db, id: string): (r: Result<Conversation, string>)
    ensures r.Err? <==> id !in db.conversations
    ensures r.Err? ==> r.error == NotFound
    ensures r.Ok? ==> r.value.id == id && |r.value.messages| == |RowsOf(db.messages, id)|
  {
    if id !in db.conversations then Err(NotFound)
    else
      var row := db.conversations[id];
      var ordered := SortByPosition(RowsOf(db.messages, id));
      assert |ordered| == |RowsOf(db.messages, id)| by {
        assert |multiset(ordered)| == |multiset(RowsOf(db.messages, id))|;
      }
      Ok(Conversation(id, row.title, ToMessages(ordered), row.model, row.createdAt, row.updatedAt, row.tokenCount))
  }

  /** Saving and loading a conversation gives it back, messages in the same
      order, with the token total the backend computed. */
  lemma SaveLoadRoundTrip(db: Db, c: Conversation)
    ensures LoadConversation(SaveConversation(db, c), c.id) == Ok(c.(tokenCount := TotalTokens(c.messages)))
  {
    var inserted := MessageRows(c.id, c.messages);
    SortSorted(inserted);
    assert ToMessages(inserted) == c.messages;
  }

  /** Saving one conversation leaves every other conversation as it loads. */
  lemma SaveKeepsOthers(db: Db, c: Conversation, id: string)
    requires id != c.id
    ensures LoadConversation(SaveConversation(db, c), id) == LoadConversation(db, id)
  {
    var others := RowsNotOf(db.messages, c.id);
    var inserted := MessageRows(c.id, c.messages);
    Seqs.FilterAppend(others, inserted, BelongsTo(id));
    Seqs.FilterNone(inserted, BelongsTo(id));
    Seqs.FilterFilter(db.messages, BelongsElsewhere(c.id), BelongsTo(id));
    assert RowsOf(SaveConversation(db, c).messages, id) == RowsOf(db.messages, id);
  }

  // ---------------------------------------------------------------------
  // Conversation list previews
  // ---------------------------------------------------------------------

  datatype ConversationPreview = ConversationPreview(
    id: string, title: string, preview: string, model: string,
    createdAt: string, updatedAt: string, tokenCount: int, messageCount: int)

  /** The content of the message with the highest position
      (`ORDER BY position DESC LIMIT 1`), if the conversation has messages. */
  function LastMessage(db: Db, id: string): (r: Option<string>)
    ensures r.None? <==> RowsOf(db.messages, id) == []
  {
    var ordered := SortByPosition(RowsOf(db.messages, id));
    if ordered == [] then None
    else
      assert ordered[|ordered| - 1] in multiset(RowsOf(db.messages, id));
      Some(ordered[|ordered| - 1].content)
  }

  const EmptyConversation: string := "Empty conversation"

  /** The preview text of `get_conversations`: the last message, or
      "Empty conversation", cut at 100 bytes. */
  function PreviewText(last: Option<string>): (r: Result<string, Panic>)
    ensures last.None? ==> r == Ok(EmptyConversation)
    ensures last.Some? && ByteLen(last.value) <= 100 ==> r == Ok(last.value)
    ensures last.Some? && ByteLen(last.value) > 100 && r.Ok? ==>
              Truncates(last.value, r.value) && ByteLen(last.value[..|r.value| - 3]) == 100
    ensures r.Ok? ==> ByteLen(r.value) <= 103
  {
    match last
    case None =>
      // the placeholder is 18 bytes, so the cut never applies to it
      EmptyConversationFits();
      Ok(EmptyConversation)
    case Some(m) => Ellipsize(m, 100)
  }

  /** The placeholder is short enough never to be cut. */
  lemma EmptyConversationFits()
    ensures ByteLen(EmptyConversation) == |EmptyConversation| == 18
  {
    ByteLenAscii(EmptyConversation);
  }

  /** One row of `get_conversations` for a stored conversation. */
  function GetConversationPreview(db: Db, id: string): (r: Result<ConversationPreview, Panic>)
    requires id in db.conversations
    ensures r.Ok? ==> r.value.id == id && r.value.messageCount == |RowsOf(db.messages, id)|
    ensures r.Ok? <==> PreviewText(LastMessage(db, id)).Ok?
    ensures r.Ok? ==> r.value.preview == PreviewText(LastMessage(db, id)).value
    ensures r.Ok? ==> var row := db.conversations[id];
              r.value.title == row.title && r.value.model == row.model
              && r.value.createdAt == row.createdAt && r.value.updatedAt == row.updatedAt
              && r.value.tokenCount == row.tokenCount
  {
    var row := db.conversations[id];
    match PreviewText(LastMessage(db, id))
    case Ok(text) =>
      Ok(ConversationPreview(id, row.title, text, row.model, row.createdAt, row.updatedAt,
                             row.tokenCount, |RowsOf(db.messages, id)|))
    case Err(e) => Err(e)
  }

  /** After a save, the preview shows the conversation's last message (or
      "Empty conversation") and counts its messages. */
  lemma PreviewAfterSave(db: Db, c: Conversation)
    ensures GetConversationPreview(SaveConversation(db, c), c.id).Ok? ==>
              GetConversationPreview(SaveConversation(db, c), c.id).value.messageCount == |c.messages|
    ensures LastMessage(SaveConversation(db, c), c.id) ==
              if c.messages == [] then None else Some(c.messages[|c.messages| - 1].content)
    ensures var r := GetConversationPreview(SaveConversation(db, c), c.id);
            r.Ok? ==> r.value.title == c.title && r.value.model == c.model
                      && r.value.preview == PreviewText(if c.messages == [] then None
                                                        else Some(c.messages[|c.messages| - 1].content)).value
  {
    var inserted := MessageRows(c.id, c.messages);
    SortSorted(inserted);
  }

  /** `update_conversation_title`: sets the generated title when the
      conversation exists; the title's panic fails the command. */
  function UpdateConversationTitle(db: Db, id: string, firstMessage: string): (r: Result<Db, Panic>)
    ensures r.Err? <==> GenerateTitle(firstMessage).Err?
    ensures r.Ok? ==> r.value.messages == db.messages && r.value.conversations.Keys == db.conversations.Keys
    ensures r.Ok? && id in db.conversations ==>
              r.value.conversations[id].title == GenerateTitle(firstMessage).value
    ensures r.Ok? ==> forall k | k in db.conversations && k != id ::
              r.value.conversations[k] == db.conversations[k]
    ensures r.Ok? && id in db.conversations ==>
              r.value.conversations[id].(title := db.conversations[id].title) == db.conversations[id]
  {
    match GenerateTitle(firstMessage)
    case Err(e) => Err(e)
    case Ok(title) =>
      if id in db.conversations then
        Ok(db.(conversations := db.conversations[id := db.conversations[id].(title := title)]))
      else Ok(db)
  }

  // ---------------------------------------------------------------------
  // New conversations
  // ---------------------------------------------------------------------

  /** The digit character for `d` in base 16, lower case (`{:x}`). */
  function HexDigit(d: nat): (c: char)
    requires d < 16
  {
    if d < 10 then ('0' as int + d) as char else ('a' as int + d - 10) as char
  }

  /** The value of a lower-case hexadecimal digit character, if it is one. */
  function HexValue(c: char): (r: Option<nat>)
    ensures r.Some? ==> r.value < 16
  {
    if '0' <= c <= '9' then Some(c as int - '0' as int)
    else if 'a' <= c <= 'f' then Some(c as int - 'a' as int + 10)
    else None
  }

  /** `format!("{:x}", n)`: base 16, lower case, no leading zeros. */
  function Hex(n: nat): (r: string)
    ensures |r| >= 1
    ensures forall i | 0 <= i < |r| :: HexValue(r[i]).Some?
  {
    if n < 16 then [HexDigit(n)] else Hex(n / 16) + [HexDigit(n % 16)]
  }

  /** Reads a string of hexadecimal digits back as a number. */
  function ParseHex(s: string): Option<nat> {
    if s == [] then Some(0)
    else
      match (ParseHex(s[..|s| - 1]), HexValue(s[|s| - 1]))
      case (Some(high), Some(low)) => Some(16 * high + low)
      case _ => None
  }

  /** The random part of a conversation id can be read back from its text. */
  lemma {:induction false} HexRoundTrip(n: nat)
    ensures ParseHex(Hex(n)) == Some(n)
  {
    if n >= 16 {
      HexRoundTrip(n / 16);
      assert Hex(n)[..|Hex(n)| - 1] == Hex(n / 16);
    }
  }

  /** The value of a decimal digit character, if it is one. */
  function DigitValue(c: char): (r: Option<nat>)
    ensures r.Some? <==> '0' <= c <= '9'
    ensures r.Some? ==> r.value < 10
  {
    if '0' <= c <= '9' then Some(c as int - '0' as int) else None
  }

  /** Reads a string of decimal digits back as a number. */
  function ParseDigits(s: string): Option<nat> {
    if s == [] then Some(0)
    else
      match (ParseDigits(s[..|s| - 1]), DigitValue(s[|s| - 1]))
      case (Some(high), Some(low)) => Some(10 * high + low)
      case _ => None
  }

  /** Reads an optionally negative decimal numeral back as a number. */
  function ParseDecimal(s: string): Option<int> {
    if s != [] && s[0] == '-' then
      match ParseDigits(s[1..])
      case Some(v) => Some(-(v as int))
      case None => None
    else
      match ParseDigits(s)
      case Some(v) => Some(v)
      case None => None
  }

  /** The digits of `n` in base 10, which read back as `n`. */
  function Digits(n: nat): (r: string)
    ensures |r| >= 1
    ensures forall i | 0 <= i < |r| :: '0' <= r[i] <= '9'
    ensures ParseDigits(r) == Some(n)
  {
    if n < 10 then
      var r := [('0' as int + n) as char];
      assert r[..0] == [];
      r
    else
      var high := Digits(n / 10);
      var r := high + [('0' as int + n % 10) as char];
      assert r[..|r| - 1] == high;
      r
  }

  /** `format!("{}", n)` for a signed integer: a numeral that reads back as
      `n`, with a leading `-` exactly for negative numbers. */
  function Decimal(n: int): (r: string)
    ensures |r| >= 1 && (r[0] == '-' <==> n < 0)
    ensures ParseDecimal(r) == Some(n)
  {
    if n < 0 then
      var r := "-" + Digits(-n);
      assert r[1..] == Digits(-n);
      r
    else Digits(n)
  }

  const IdPrefix: string := "conv-"
  const NewConversationTitle: string := "New Conversation"

  /** `create_new_conversation`. The clock reading (milliseconds and its
      RFC 3339 text) and the random 32-bit number are parameters. */
  function CreateNewConversation(model: string, nowMillis: int, random: nat, nowText: string): (r: Conversation)
    requires random < 0x1_0000_0000
    ensures r.title == NewConversationTitle && r.model == model
    ensures r.messages == [] && r.tokenCount == 0
    ensures r.createdAt == r.updatedAt == nowText
    ensures |r.id| > |IdPrefix| && r.id[..|IdPrefix|] == IdPrefix
    ensures r.id == IdPrefix + Decimal(nowMillis) + "-" + Hex(random)
  {
    Conversation(IdPrefix + Decimal(nowMillis) + "-" + Hex(random), NewConversationTitle, [], model,
                 nowText, nowText, 0)
  }

  /** A new conversation's token count is the backend estimate of its
      (absent) messages, so saving it right away stores the same count. */
  lemma NewConversationTokenCount(model: string, nowMillis: int, random: nat, nowText: string)
    requires random < 0x1_0000_0000
    ensures var c := CreateNewConversation(model, nowMillis, random, nowText);
            c.tokenCount == TotalTokens(c.messages)
  {
  }

  // ---------------------------------------------------------------------
  // Editor preferences
  // ---------------------------------------------------------------------

  datatype EditorPreferences = EditorPreferences(theme: string, fontSize: int, autoSave: bool)

  /** The `editor_preferences` row with id 1: `auto_save` is stored as an integer. */
  datatype PreferenceRow = PreferenceRow(theme: string, fontSize: int, autoSave: int)

  /** The preference table holds at most the one row with id 1. */
  type PreferenceStore = Option<PreferenceRow>

  const DefaultPreferences: EditorPreferences := EditorPreferences("default", 16, true)

  /** `auto_save as i64`. */
  function BoolToInt(b: bool): (r: int)
    ensures r == 0 || r == 1
    ensures r != 0 <==> b
  {
    if b then 1 else 0
  }

  /** `save_editor_preferences`: `INSERT OR REPLACE` of row 1. */
  function SavePreferences(store: PreferenceStore, prefs: EditorPreferences): (r: PreferenceStore)
    ensures r.Some?
    ensures r.value.theme == prefs.theme && r.value.fontSize == prefs.fontSize
    ensures r.value.autoSave == 0 || r.value.autoSave == 1
  {
    Some(PreferenceRow(prefs.theme, prefs.fontSize, BoolToInt(prefs.autoSave)))
  }

  /** `load_editor_preferences`: row 1 with `auto_save` read as `!= 0`, or the
      defaults when there is no row. */
  function LoadPreferences(store: PreferenceStore): (r: EditorPreferences)
    ensures store.None? ==> r.theme == "default" && r.fontSize == 16 && r.autoSave
    ensures store.Some? ==> r.theme == store.value.theme && r.fontSize == store.value.fontSize
    ensures store.Some? ==> (r.autoSave <==> store.value.autoSave != 0)
  {
    match store
    case None => DefaultPreferences
    case Some(row) => EditorPreferences(row.theme, row.fontSize, row.autoSave != 0)
  }

  /** Preferences read back exactly as they were saved, whatever was stored
      before. */
  lemma PreferencesRoundTrip(store: PreferenceStore, prefs: EditorPreferences)
    ensures LoadPreferences(SavePreferences(store, prefs)) == prefs
  {
  }
}
