/** The "Add node" palette: the catalogue of node templates, the search
    filter, the rendered list with group headings, and the value node's
    type-dependent input. */
module Palette {
  import opened JsText
  import Seqs
  import Viewport
  import Graph

  datatype ValueType = StringType | IntType | FloatType | BoolType | ListString | ListInt | ListFloat

  /** What an item's `spawn` creates. */
  datatype Template = ValueTemplate(valueType: ValueType) | AddTemplate | DisplayTemplate

  datatype Item = Item(id: JsString, caption: JsString, group: JsString, badge: JsString, spawn: Template)

  const Constants: JsString := Lit("Constants")
  const Nodes: JsString := Lit("Nodes")

  /** `buildPalette()`. */
  const Catalogue: seq<Item> := [
    Item(Lit("const:string"), Lit("String"), Constants, Lit("constant"), ValueTemplate(StringType)),
    Item(Lit("const:int"), Lit("Integer"), Constants, Lit("constant"), ValueTemplate(IntType)),
    Item(Lit("const:float"), Lit("Float"), Constants, Lit("constant"), ValueTemplate(FloatType)),
    Item(Lit("const:bool"), Lit("Boolean"), Constants, Lit("constant"), ValueTemplate(BoolType)),
    Item(Lit("const:list_s"), Lit("List<String>"), Constants, Lit("constant"), ValueTemplate(ListString)),
    Item(Lit("const:list_i"), Lit("List<Integer>"), Constants, Lit("constant"), ValueTemplate(ListInt)),
    Item(Lit("const:list_f"), Lit("List<Float>"), Constants, Lit("constant"), ValueTemplate(ListFloat)),
    Item(Lit("node:add"), Lit("Add (a + b)"), Nodes, Lit("node"), AddTemplate),
    Item(Lit("node:display"), Lit("Display"), Nodes, Lit("node"), DisplayTemplate)
  ]

  // ---------------------------------------------------------------------
  // Search
  // ---------------------------------------------------------------------

  /** An item matches a lower-cased query when its caption (`label`), group or id,
      lower-cased, contains it. */
  predicate Matches(item: Item, t: JsString) {
    || Seqs.Includes(ToLower(item.caption), t)
    || Seqs.Includes(ToLower(item.group), t)
    || Seqs.Includes(ToLower(item.id), t)
  }

  function MatchesQuery(t: JsString): Item -> bool {
    (item: Item) => Matches(item, t)
  }

  /** `filterPalette(items, q)`: everything for an empty query, otherwise
      the matching items in catalogue order. */
  function FilterPalette(items: seq<Item>, q: JsString): (r: seq<Item>)
    ensures q == [] ==> r == items
    ensures Seqs.IsSubsequence(r, items)
    ensures q != [] ==> forall i | 0 <= i < |r| :: Matches(r[i], ToLower(q)) && r[i] in items
    ensures q != [] ==> forall i | 0 <= i < |items| && Matches(items[i], ToLower(q)) :: items[i] in r
  {
    if q == [] then
      SubsequenceRefl(items);
      items
    else
      Seqs.FilterIsSubsequence(items, MatchesQuery(ToLower(q)));
      Seqs.Filter(items, MatchesQuery(ToLower(q)))
  }

  lemma {:induction false} SubsequenceRefl<T>(s: seq<T>)
    ensures Seqs.IsSubsequence(s, s)
  {
    if s != [] {
      SubsequenceRefl(s[1..]);
    }
  }

  /** Typing more narrows the list: when the new query contains the old
      one, its results are the old results filtered again. */
  lemma LongerQueryNarrows(items: seq<Item>, q: JsString, longer: JsString)
    requires q != [] && longer != []
    requires Seqs.Includes(ToLower(longer), ToLower(q))
    ensures FilterPalette(items, longer) == Seqs.Filter(FilterPalette(items, q), MatchesQuery(ToLower(longer)))
  {
    forall x | x in items ensures MatchesQuery(ToLower(longer))(x) ==> MatchesQuery(ToLower(q))(x) {
      if Matches(x, ToLower(longer)) {
        if Seqs.Includes(ToLower(x.caption), ToLower(longer)) {
          Seqs.IncludesTransitive(ToLower(x.caption), ToLower(longer), ToLower(q));
        } else if Seqs.Includes(ToLower(x.group), ToLower(longer)) {
          Seqs.IncludesTransitive(ToLower(x.group), ToLower(longer), ToLower(q));
        } else {
          Seqs.IncludesTransitive(ToLower(x.id), ToLower(longer), ToLower(q));
        }
      }
    }
    Seqs.FilterFilter(items, MatchesQuery(ToLower(q)), MatchesQuery(ToLower(longer)));
  }

  /** The query the search box's input handler renders with:
      `e.target.value.trim().toLowerCase()`. */
  function SearchQuery(raw: JsString): (q: JsString)
    ensures ToLower(q) == q
    ensures |q| <= |raw|
  {
    ToLowerIdempotent(Trim(raw));
    var t := Trim(raw);
    ToLower(t)
  }

  /** A query of blanks shows the whole catalogue. */
  lemma BlankQueryShowsAll(items: seq<Item>, raw: JsString)
    requires forall i | 0 <= i < |raw| :: IsWhitespace(raw[i])
    ensures FilterPalette(items, SearchQuery(raw)) == items
  {
    Seqs.TrimAllBlank(raw, IsWhitespace);
  }

  // ---------------------------------------------------------------------
  // The rendered list
  // ---------------------------------------------------------------------

  /** One child of the list element. */
  datatype Row = GroupHeading(group: JsString) | ItemRow(item: Item) | NoMatches

  /** The list body after the previous item's group was `last`: a heading
      whenever the group changes. */
  function RenderFrom(items: seq<Item>, last: JsString): (rows: seq<Row>)
    ensures |rows| >= |items|
    ensures forall i | 0 <= i < |rows| :: !rows[i].NoMatches?
  {
    if items == [] then []
    else
      var head := if items[0].group != last then [GroupHeading(items[0].group)] else [];
      head + [ItemRow(items[0])] + RenderFrom(items[1..], items[0].group)
  }

  /** `renderList(q)`, given the filtered items: the grouped rows, or the
      "No matches" row when nothing matched. */
  function RenderRows(items: seq<Item>): (rows: seq<Row>)
    ensures items == [] <==> rows == [NoMatches]
  {
    if items == [] then [NoMatches]
    else
      var rows := RenderFrom(items, []);
      assert !rows[0].NoMatches?;
      rows
  }

  /** The item a single row shows, if any. */
  function RowItems(row: Row): seq<Item> {
    if row.ItemRow? then [row.item] else []
  }

  /** The items shown, in order. */
  function ItemsOf(rows: seq<Row>): seq<Item> {
    if rows == [] then [] else RowItems(rows[0]) + ItemsOf(rows[1..])
  }

  lemma {:induction false} ItemsOfAppend(a: seq<Row>, b: seq<Row>)
    ensures ItemsOf(a + b) == ItemsOf(a) + ItemsOf(b)
  {
    if a == [] {
      assert a + b == b;
    } else {
      var ab := a + b;
      assert ab[0] == a[0] && ab[1..] == a[1..] + b;
      ItemsOfAppend(a[1..], b);
      calc {
        ItemsOf(ab);
        RowItems(a[0]) + ItemsOf(a[1..] + b);
        RowItems(a[0]) + (ItemsOf(a[1..]) + ItemsOf(b));
        (RowItems(a[0]) + ItemsOf(a[1..])) + ItemsOf(b);
      }
    }
  }

  /** Every filtered item is shown once, in order. */
  lemma {:induction false} RenderShowsItems(items: seq<Item>, last: JsString)
    ensures ItemsOf(RenderFrom(items, last)) == items
  {
    if items != [] {
      var head := if items[0].group != last then [GroupHeading(items[0].group)] else [];
      ItemsOfAppend(head + [ItemRow(items[0])], RenderFrom(items[1..], items[0].group));
      ItemsOfAppend(head, [ItemRow(items[0])]);
      assert ItemsOf([ItemRow(items[0])]) == [items[0]];
      RenderShowsItems(items[1..], items[0].group);
      assert items == [items[0]] + items[1..];
    }
  }

  /** The group of the last heading in `rows`, or `init` when there is none. */
  function CurrentGroup(rows: seq<Row>, init: JsString): JsString {
    if rows == [] then init
    else if rows[|rows| - 1].GroupHeading? then rows[|rows| - 1].group
    else CurrentGroup(rows[..|rows| - 1], init)
  }

  lemma {:induction false} CurrentGroupAppend(a: seq<Row>, b: seq<Row>, init: JsString)
    ensures CurrentGroup(a + b, init) == CurrentGroup(b, CurrentGroup(a, init))
    decreases |b|
  {
    if b == [] {
      assert a + b == a;
    } else {
      assert (a + b)[..|a + b| - 1] == a + b[..|b| - 1];
      CurrentGroupAppend(a, b[..|b| - 1], init);
    }
  }

  /** Every item row sits under the heading of its own group, `init` being
      the group in force before the first row. */
  predicate UnderOwnHeadings(rows: seq<Row>, init: JsString) {
    forall i | 0 <= i < |rows| && rows[i].ItemRow? :: CurrentGroup(rows[..i], init) == rows[i].item.group
  }

  /** The rendered list never shows an item under another group's heading. */
  lemma {:induction false} ItemsUnderTheirHeading(items: seq<Item>, last: JsString)
    ensures UnderOwnHeadings(RenderFrom(items, last), last)
  {
    if items != [] {
      var g := items[0].group;
      var head := (if g != last then [GroupHeading(g)] else []) + [ItemRow(items[0])];
      var tail := RenderFrom(items[1..], g);
      var rows := RenderFrom(items, last);
      assert rows == head + tail;
      ItemsUnderTheirHeading(items[1..], g);
      var before := if g != last then [GroupHeading(g)] else [];
      assert head[..|head| - 1] == before;
      assert CurrentGroup(before, last) == g by {
        if g != last {
          assert before[..0] == [];
        }
      }
      assert CurrentGroup(head, last) == g;
      forall i | 0 <= i < |rows| && rows[i].ItemRow?
        ensures CurrentGroup(rows[..i], last) == rows[i].item.group
      {
        if i < |head| {
          assert rows[i] == head[i];
          assert i == |head| - 1;
          assert rows[..i] == before;
          assert rows[i].item.group == g;
        } else {
          var j := i - |head|;
          assert rows[..i] == head + tail[..j];
          CurrentGroupAppend(head, tail[..j], last);
          assert rows[i] == tail[j];
          assert tail[j].ItemRow?;
          assert CurrentGroup(tail[..j], g) == tail[j].item.group;
        }
      }
    }
  }

  // ---------------------------------------------------------------------
  // Spawning
  // ---------------------------------------------------------------------

  /** The offset from the view centre a spawned node gets:
      `((nodeCounter*20)%80, (nodeCounter*12)%60)`. */
  function SpawnOffset(counter: nat): (r: Viewport.Point)
    ensures 0.0 <= r.x < 80.0 && 0.0 <= r.y < 60.0
  {
    Viewport.Point(((counter * 20) % 80) as real, ((counter * 12) % 60) as real)
  }

  /** The counter only ever holds even values, so the horizontal offset
      alternates between 0 and 40. */
  lemma EvenCounterOffsets(counter: nat)
    requires counter % 2 == 0
    ensures SpawnOffset(counter).x == 0.0 || SpawnOffset(counter).x == 40.0
    ensures SpawnOffset(counter).y in {0.0, 12.0, 24.0, 36.0, 48.0}
  {
    var k := counter / 2;
    var a, q := k % 2, k / 2;
    assert counter * 20 == 80 * q + 40 * a;
    ShiftMod(q, 40 * a, 80);
    var b, p := k % 5, k / 5;
    assert counter * 12 == 60 * (2 * p) + 24 * b;
    ShiftMod(2 * p, 24 * b, 60);
  }

  /** Adding a multiple of `m` does not change the remainder. */
  lemma ShiftMod(n: nat, x: nat, m: nat)
    requires m > 0
    ensures (m * n + x) % m == x % m
  {
    var y := m * n + x;
    var t := y / m - n - x / m;
    assert m * t == m * (y / m) - m * n - m * (x / m);
    assert m * t == x % m - y % m;
    OnlyZeroMultipleSmall(m, t);
  }

  /** The only multiple of `m` strictly between `-m` and `m` is zero. */
  lemma OnlyZeroMultipleSmall(m: int, t: int)
    requires m > 0 && -m < m * t < m
    ensures t == 0
  {
  }

  /** The node kind a template spawns. */
  function KindOf(t: Template): (k: Graph.NodeKind)
    ensures t.ValueTemplate? <==> k == Graph.ValueNode
    ensures t == AddTemplate <==> k == Graph.AddNode
    ensures t == DisplayTemplate <==> k == Graph.DisplayNode
  {
    match t
    case ValueTemplate(_) => Graph.ValueNode
    case AddTemplate => Graph.AddNode
    case DisplayTemplate => Graph.DisplayNode
  }

  /** The ports a node of each kind is built with, in document order: a
      value node has one output and no input, a display node one input and
      no output, an add node the inputs `a` and `b` and the output `sum`. */
  function PortsOf(k: Graph.NodeKind): (ports: seq<(Graph.Direction, string)>)
    ensures forall i, j | 0 <= i < j < |ports| :: ports[i] != ports[j]
    ensures (set p | p in ports && p.0 == Graph.In :: p.1)
            == match k
               case ValueNode => {}
               case DisplayNode => {"value"}
               case AddNode => {"a", "b"}
    ensures (set p | p in ports && p.0 == Graph.Out :: p.1)
            == match k
               case ValueNode => {"value"}
               case DisplayNode => {}
               case AddNode => {"sum"}
  {
    match k
    case ValueNode => [(Graph.Out, "value")]
    case DisplayNode => [(Graph.In, "value")]
    case AddNode => [(Graph.In, "a"), (Graph.In, "b"), (Graph.Out, "sum")]
  }

  // ---------------------------------------------------------------------
  // The value node's input
  // ---------------------------------------------------------------------

  /** The `<select class="value-type">` option values. */
  function TypeName(t: ValueType): JsString {
    match t
    case StringType => Lit("string")
    case IntType => Lit("int")
    case FloatType => Lit("float")
    case BoolType => Lit("bool")
    case ListString => Lit("list_string")
    case ListInt => Lit("list_int")
    case ListFloat => Lit("list_float")
  }

  /** Which input a value node shows: the checkbox for booleans, otherwise
      the text box with a placeholder. */
  datatype ValueInput = Checkbox | TextBox(placeholder: JsString)

  const ListPrefix: JsString := Lit("list_")

  /** `updateUI()` for the selected option value `t`. */
  function ValueInputFor(t: JsString): (r: ValueInput)
    ensures t == TypeName(BoolType) <==> r == Checkbox
  {
    if t == TypeName(BoolType) then Checkbox
    else if |t| >= |ListPrefix| && t[..|ListPrefix|] == ListPrefix then TextBox(Lit("a,b,c"))
    else if t == TypeName(IntType) then TextBox(Lit("123"))
    else if t == TypeName(FloatType) then TextBox(Lit("3.14"))
    else TextBox(Lit("value"))
  }

  /** The three list types ask for comma-separated input; the scalar types
      each get their own example. */
  lemma ValueInputPerType(t: ValueType)
    ensures t.ListString? || t.ListInt? || t.ListFloat? ==> ValueInputFor(TypeName(t)) == TextBox(Lit("a,b,c"))
    ensures t == IntType ==> ValueInputFor(TypeName(t)) == TextBox(Lit("123"))
    ensures t == FloatType ==> ValueInputFor(TypeName(t)) == TextBox(Lit("3.14"))
    ensures t == StringType ==> ValueInputFor(TypeName(t)) == TextBox(Lit("value"))
  {
    assert |TypeName(BoolType)| == 4;
    if t.ListString? || t.ListInt? || t.ListFloat? {
      assert TypeName(t)[..5] == ListPrefix;
    } else if t == IntType || t == FloatType || t == StringType {
      assert TypeName(t)[0] != ListPrefix[0] || |TypeName(t)| < 5;
    }
  }
}
