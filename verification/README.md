# Jarvish node editor and conversation layer, in Dafny

This project models the desktop assistant's node-graph editor and its
conversation layer, and proves properties of them.

The node-graph editor is `initializeInteractables`. It holds:

- a set of wires between node ports, kept with two indexes (input port to
  its wire, output port to its wires);
- a pan/zoom view with wheel zoom about the pointer;
- node dragging, and wire dragging with a drop tolerance;
- the "Add node" palette, with search and grouped rows;
- the staggered placement and numbering of spawned nodes;
- the value node's type-dependent input.

Around the editor, the model covers the conversation layer:

- the Tauri backend's pure helpers: token estimates, title and preview
  truncation, the conversation store over abstract row lists, new
  conversations, and editor preferences;
- the front end's conversation manager;
- the shared application state and its setters;
- the seam where front end and backend meet: JavaScript strings are UTF-16
  code units, Rust strings are UTF-8 bytes, and the preference object crosses
  as JSON.

The modules are:

- `Wrappers`: `Option` and `Result`.
- `Seqs`: trim, filter, substring and subsequence.
- `JsText`: JavaScript strings as UTF-16 code units.
- `RustText`: Rust strings and their UTF-8 byte offsets.
- `Backend`: `commands.rs`.
- `AppState`: `state.js`.
- `Conversations`: `conversations.js`.
- `Bridge`: where the front end and the backend meet.
- `Viewport`: the view transform and the gestures on it.
- `Graph`: the connection store.
- `WireCurve`: the curve a wire is drawn with.
- `DropTarget`: where a dropped wire lands.
- `Palette`: the node catalogue, search and rendering.
- `Editor`: the editor's state, its event handlers, and the invariant they
  keep.

The editor is modelled as a state machine.

- `Editor.Step` applies one browser event.
- `Editor.Inv` is the invariant every reachable state satisfies:
  - the indexes describe exactly the wires;
  - wires run from outputs to inputs of nodes that exist;
  - node numbers are odd and below the even counter;
  - the document lists each node once;
  - exactly the value nodes have a selected type.
- `Editor.StepInv` proves that every event the document can deliver
  (`Editor.WellFormed`) keeps the invariant.

Layout is a parameter of the model (`Editor.Env`):

- the editor's rectangle;
- where each port sits in its node.

Reading a port's drawn rectangle back through the inverse transform gives
the content point it was drawn from (`Editor.PortCentreIndependentOfView`).
So port centres are computed from node positions.

## Model

| member | source | states |
|---|---|---|
| Viewport.Clamp | src/features/interactable.js:219 | the result lies in [lo, hi]; it is `v` when `v` is inside the range and the nearer bound when outside |
| Viewport.LocalToContent | src/features/interactable.js:240-244 | the content point is the one the transform maps back onto the editor-relative point |
| Viewport.ClientToContent | src/features/interactable.js:240-244 | the returned content point is the one the view draws at the given client position, so it inverts drawing exactly |
| Viewport.ContentRoundTrip | src/features/interactable.js:240-244 | converting a drawn content point back from client coordinates gives the same content point |
| Viewport.CenterContent | src/features/interactable.js:245-248 | the returned content point is drawn exactly at the centre of the editor rectangle |
| Viewport.Wheel | src/features/interactable.js:199-217 | the scale stays in [0.4, 2.5] and becomes the clamped product; a clamped no-change leaves the view alone; the content point under the pointer stays under it |
| Viewport.WheelUndo | src/features/interactable.js:205-215 | zooming by a factor and then by its inverse about the same point restores the view when neither step was clamped |
| Viewport.PanStart | src/features/interactable.js:175-181 | a middle press records the pointer position, the translation at the press and the pointer id |
| Viewport.PanMove | src/features/interactable.js:182-188 | other pointers change nothing; the scale is kept; the translation moved by exactly the pointer's travel since the press |
| Viewport.PanPathIndependent | src/features/interactable.js:185-186 | two pan moves equal the last one alone, so no error accumulates |
| Viewport.PanKeepsGrabbedPoint | src/features/interactable.js:175-188 | the content point under the pointer at the press stays under the pointer while panning |
| Viewport.NodeDragMove | src/features/interactable.js:306-311 | the node's displacement times the scale equals the pointer's travel |
| Viewport.NodeFollowsPointer | src/features/interactable.js:306-311 | on screen a dragged node moves exactly as far as the pointer |
| Graph.RemoveConnection | src/features/interactable.js:221-227 | removes exactly `c` from the set; drops the input entry only if it is `c`; removes `c` from its output's set, dropping that output's entry exactly when no other wire leaves it, and leaves every other output entry alone |
| Graph.RemoveConnectionConsistent | src/features/interactable.js:221-227 | removing a wire keeps the indexes exact and every wire output-to-input |
| Graph.Evict | src/features/interactable.js:154-155 | a free input leaves the graph as it is; otherwise the wire on that input is removed |
| Graph.Add | src/features/interactable.js:158-163 | the wire joins the set, becomes the input's entry, and joins its output's set, creating that set when missing; other outputs are untouched |
| Graph.Commit | src/features/interactable.js:153-163 | after a commit the new wire is in the set, is the input's entry, and is in its output's set |
| Graph.AtMostOnePerInput | src/features/interactable.js:22-24 | in a consistent graph two wires into the same input are the same wire |
| Graph.EvictCorrect | src/features/interactable.js:154-155 | eviction keeps the indexes exact, frees the input, and removes only the wires that ended there |
| Graph.AddConsistent | src/features/interactable.js:158-163 | recording a wire on a free input keeps the indexes exact |
| Graph.AddWellTyped | src/features/interactable.js:158-163 | adding an output-to-input wire keeps every wire output-to-input |
| Graph.CommitInto | src/features/interactable.js:153-163 | after a commit exactly the new wire ends at the input, and every wire not ending there is kept |
| Graph.CommitCorrect | src/features/interactable.js:153-163 | a commit keeps the indexes exact and well typed, replaces the input's feed with the new wire and keeps all other wires |
| Graph.Disconnect | src/features/interactable.js:117-124 | double-clicking an unconnected input changes nothing; otherwise exactly its wire is removed |
| Graph.DisconnectCorrect | src/features/interactable.js:117-124 | after a double-click the input is free, the indexes are exact, and only the wire that ended there is gone |
| Graph.CommitThenDisconnect | src/features/interactable.js:117-163 | connecting and then double-clicking the same input leaves exactly the wires not ending at that input |
| Graph.IndexesDetermined | src/features/interactable.js:22-24 | in a consistent graph the indexes are what the wire set determines: an input's entry is its only wire, an output's set is exactly its wires, and ports without an entry have no wires |
| Graph.EmptyConsistent | src/features/interactable.js:22-24 | the empty store is consistent and well typed |
| WireCurve.Abs | src/features/interactable.js:259 | the result is non-negative and is `x` or `-x` |
| WireCurve.WirePath | src/features/interactable.js:258-264 | the curve starts and ends at the two points with horizontal tangents pulled out symmetrically by half the horizontal gap, clamped to [40, 200], towards the other end |
| WireCurve.WirePathSymmetric | src/features/interactable.js:258-264 | when the ends differ in x, swapping them draws the same curve backwards |
| WireCurve.WirePathVerticalAsymmetric | src/features/interactable.js:261-262 | vertically aligned ends always pull to the right, so swapping them draws a different curve |
| DropTarget.Dist2 | src/features/interactable.js:288-289 | the squared distance is never negative |
| DropTarget.Nearest | src/features/interactable.js:285-291 | there is no result exactly when there are no inputs; otherwise the result is the first input at the least distance |
| DropTarget.ToleranceOnScreen | src/features/interactable.js:292-293 | being within `18 / scale` content units is being within 18 pixels on screen |
| DropTarget.NearestDecides | src/features/interactable.js:285-293 | the nearest input is within the tolerance exactly when some input is |
| DropTarget.Find | src/features/interactable.js:279-294 | a direct hit wins; otherwise the result is the first nearest input, given exactly when some input lies within 18 screen pixels |
| DropTarget.MulMonotone | src/features/interactable.js:289-293 | scaling both squared distances by the same non-negative factor keeps their order |
| Palette.FilterPalette | src/features/interactable.js:440-448 | an empty query returns the catalogue; otherwise the result keeps catalogue order and holds exactly the items whose lower-cased label, group or id contains the lower-cased query |
| Palette.SubsequenceRefl | src/features/interactable.js:441 | the unfiltered catalogue is an order-preserving sublist of itself |
| Palette.LongerQueryNarrows | src/features/interactable.js:440-448 | a query containing an earlier one gives the earlier results filtered again |
| Palette.SearchQuery | src/features/interactable.js:107 | the query the search box renders with is lower case and no longer than what was typed |
| Palette.BlankQueryShowsAll | src/features/interactable.js:107 | a search of blanks lists the whole catalogue |
| Palette.RenderFrom | src/features/interactable.js:81-99 | the grouped list has at least one row per item and never a "No matches" row |
| Palette.RenderRows | src/features/interactable.js:77-106 | the list is the single "No matches" row exactly when no item matched |
| Palette.ItemsOfAppend | src/features/interactable.js:81-99 | the items shown by two runs of rows are the items of each, in order |
| Palette.RenderShowsItems | src/features/interactable.js:81-99 | the rendered list shows every filtered item once, in order |
| Palette.CurrentGroupAppend | src/features/interactable.js:82-88 | the group in force after two runs of rows is that of the second, begun in the group left by the first |
| Palette.ItemsUnderTheirHeading | src/features/interactable.js:80-99 | every item row sits under the heading of its own group |
| Palette.SpawnOffset | src/features/interactable.js:94 | the stagger lies within [0, 80) horizontally and [0, 60) vertically |
| Palette.EvenCounterOffsets | src/features/interactable.js:94-95 | for the even counter values the editor reaches, the horizontal offset is 0 or 40 and the vertical one a multiple of 12 below 60 (`Palette.ShiftMod` and `Palette.OnlyZeroMultipleSmall` are its arithmetic helpers and have no row of their own) |
| Palette.KindOf | src/features/interactable.js:427-436 | the constant templates spawn value nodes, the Add template an add node and the Display template a display node, and no other template spawns those kinds |
| Palette.PortsOf | src/features/interactable.js:345-418 | a value node has the single output `value`, a display node the single input `value`, an add node the inputs `a` and `b` and the output `sum`; no kind declares a port twice |
| Palette.ValueInputFor | src/features/interactable.js:360-373 | the checkbox is shown exactly for the `bool` type |
| Palette.ValueInputPerType | src/features/interactable.js:368-371 | list types ask for "a,b,c", integers for "123", floats for "3.14", strings for "value" |
| Editor.StartInv | src/features/interactable.js:15-28 | the editor starts in a state satisfying the invariant |
| Editor.PortCentreIndependentOfView | src/features/interactable.js:250-256 | measuring a port's drawn rectangle and converting it back gives the content point it was drawn at, whatever the view |
| Editor.PortCentre | src/features/interactable.js:250-256 | a port's centre lies at the port's layout offset from its node's position |
| Editor.PortCentreFollowsNode | src/features/interactable.js:250-256 | moving a node moves its ports' centres by the same amount and no other port's centre |
| Editor.ConnectionCurve | src/features/interactable.js:273-277 | a wire's curve runs from the centre of its output port to the centre of its input port |
| Editor.TempCurve | src/features/interactable.js:266-271 | a temporary curve exists exactly while a wire is dragged; it starts at the output port and ends where the pointer is drawn |
| Editor.InputsFrom | src/features/interactable.js:284 | each candidate is an existing input port paired with its centre |
| Editor.CandidatesOf | src/features/interactable.js:284-287 | each candidate is an existing input port paired with its centre |
| Editor.Candidates | src/features/interactable.js:284 | every drop candidate is an input port of a node in the document |
| Editor.OnPointerDown | src/features/interactable.js:126-181 | button 0 on an output starts a wire at the pointer; button 0 on a header grabs that node at its position; button 1 grabs the view; nothing else changes |
| Editor.OnPointerMove | src/features/interactable.js:141-188 | a grabbed node under its header moves by the scaled travel and no other node moves; the wire tip follows the pointer; the pan follows its own pointer |
| Editor.DropOf | src/features/interactable.js:279-294 | a direct hit is the landing port; otherwise any landing port is an existing input |
| Editor.Accepts | src/features/interactable.js:152 | a drop is accepted only on an input port other than the source; for a wire from an output the `toPort !== fromEl` test is redundant |
| Editor.ReleaseWire | src/features/interactable.js:145-169 | a dragged wire is committed to its landing port exactly when that port is an input other than its start; otherwise the wires are unchanged |
| Editor.OnPointerUp | src/features/interactable.js:146-197 | the wire always ends and the wires become those of the release; the pan ends only for its own pointer; a header release drops its grab; the view, nodes and counter are kept |
| Editor.OnDoubleClick | src/features/interactable.js:117-124 | a double-click on an input disconnects it; anywhere else it changes nothing |
| Editor.OnWheel | src/features/interactable.js:199-217 | only the view changes, its scale stays in range, and the content point under the pointer stays under it |
| Editor.Spawn | src/features/interactable.js:92-97 | the node gets the next odd number and is appended to the document; other nodes stay; the counter advances by two; the palette closes |
| Editor.SpawnPlacement | src/features/interactable.js:93-96 | the spawned node is drawn at the editor centre plus the stagger scaled by the zoom |
| Editor.ShiftedOnScreen | src/features/interactable.js:93-94 | shifting a content point by an offset moves its drawing by the offset times the scale |
| Editor.OnPickRow | src/features/interactable.js:92-104 | a click on an item row spawns its template; headings, "No matches" and missing rows do nothing |
| Editor.OnPalette | src/features/interactable.js:63-107 | opening shows the palette with an empty query; closing hides it; Escape hides an open palette; typing sets the trimmed lower-case query; nothing else changes |
| Editor.OnSelectValueType | src/features/interactable.js:374-376 | changing a value node's type records it for that node only |
| Editor.ValueInputOf | src/features/interactable.js:360-373 | a value node shows the checkbox exactly when its type is Boolean |
| Editor.Step | src/features/interactable.js:117-217 | every event keeps the scale in [0.4, 2.5] |
| Editor.PointerDownInv | src/features/interactable.js:126-181 | a press on an element that exists keeps the invariant |
| Editor.PointerMoveInv | src/features/interactable.js:141-188 | moving the pointer keeps the invariant |
| Editor.CommitKeepsGraph | src/features/interactable.js:153-163 | committing a wire between existing ports keeps the indexes exact and every wire between existing ports |
| Editor.PointerUpInv | src/features/interactable.js:146-197 | releasing the pointer keeps the invariant |
| Editor.DoubleClickInv | src/features/interactable.js:117-124 | a double-click keeps the invariant |
| Editor.SpawnInv | src/features/interactable.js:92-97 | spawning a node keeps the invariant |
| Editor.SpawnGraph | src/features/interactable.js:323-423 | spawning keeps the wires, the dragged wire and the grabs attached to existing ports and nodes |
| Editor.SpawnNumbering | src/features/interactable.js:94-95 | spawning keeps node numbers odd and below the even counter |
| Editor.SpawnKeepsPorts | src/features/interactable.js:351 | spawning only adds ports |
| Editor.SpawnOrder | src/features/interactable.js:351 | the spawned node is appended to the document once |
| Editor.SpawnValueTypes | src/features/interactable.js:353 | exactly the value nodes keep a selected type |
| Editor.StepInv | src/features/interactable.js:117-217 | every event the document can deliver keeps the invariant |
| Editor.PointerEventInv | src/features/interactable.js:117-197 | every pointer press, move, release and double-click the document can deliver keeps the invariant |
| Editor.OtherEventInv | src/features/interactable.js:63-107 | wheel turns, palette events, row clicks and type changes keep the invariant |
| Editor.PickRowInv | src/features/interactable.js:92-97 | a click on any row of the palette list keeps the invariant |
| Editor.CosmeticInv | src/features/interactable.js:199-217 | a change confined to the view, the palette or a value node's selected type keeps the invariant |
| Editor.DropReplacesFeed | src/features/interactable.js:150-165 | a wire dropped on an input becomes its only feed, every other wire stays, and the indexes stay exact |
| Editor.DropOutsideDiscards | src/features/interactable.js:166-169 | a wire released more than 18 pixels from every input changes no wire and its temporary path disappears |
| Editor.OtherPointerLeavesPan | src/features/interactable.js:182-195 | a second pointer moving or lifting does not disturb a pan |
| Editor.DragRedrawsOnlyAttached | src/features/interactable.js:312-316 | dragging a node leaves the curve of every wire not attached to it where it was |
| Editor.WireFollowsPointer | src/features/interactable.js:141-144 | after a move the temporary wire ends under the pointer and still starts at its output port |
| Editor.SpawnFresh | src/features/interactable.js:94-95 | the spawned node's number belongs to no existing node, one node is added, and the horizontal stagger is 0 or 40 |
| Editor.EscapeCloses | src/features/interactable.js:75 | Escape closes an open palette and leaves a closed one alone |
| Editor.OpenListsCatalogue | src/features/interactable.js:63-68 | opening the palette lists the whole catalogue in order |
| Editor.NoMatchesSpawnsNothing | src/features/interactable.js:100-105 | when nothing matches, no click on the list changes anything |
| JsText.Utf16 | src/features/conversations.js:311-312 | a string's UTF-16 encoding has at least one code unit per character |
| JsText.Utf16RoundTrip | src/features/conversations.js:311-312 | decoding the UTF-16 encoding of a string gives the string back |
| JsText.Utf16Ascii | src/features/conversations.js:312 | ASCII text encodes to one code unit per character, with the same value |
| JsText.Lit | src/features/interactable.js:427-436 | a literal has one code unit per character, and each character below 0x10000 keeps its value |
| JsText.Utf16LengthBmp | src/features/conversations.js:312 | text without astral characters has one code unit per character |
| JsText.LitIsUtf16 | src/features/interactable.js:427-436 | literals and encoded strings agree |
| JsText.ToLowerUnit | src/features/interactable.js:442-446 | ASCII capitals map to their lower case and every other unit is kept |
| JsText.ToLower | src/features/interactable.js:442-446 | lower-casing keeps the length and maps each unit on its own |
| JsText.ToLowerIdempotent | src/features/interactable.js:107 | lower-casing twice is lower-casing once |
| JsText.Trim | src/features/conversations.js:311 | `trim()` returns the block after the leading white space, with only white space after it and no white space at either end |
| Seqs.IncludesTransitive | src/features/interactable.js:444-446 | a substring of a substring of `s` is a substring of `s` |
| Seqs.SkipBlanks | src/features/conversations.js:311 | the index found has only blanks before it (from the start point) and is the end or a non-blank element |
| Seqs.BackOverBlanks | src/features/conversations.js:311 | the end found has only blanks after it (up to the limit) and follows a non-blank element unless it is the lower bound |
| Seqs.Trim | src/features/conversations.js:311 | the result is the block of the input at the trim offset, with only blanks around it and no blank at either end |
| Seqs.TrimIdempotent | src/features/conversations.js:311 | trimming twice is trimming once |
| Seqs.TrimAllBlank | src/features/interactable.js:107 | a string of blanks trims to the empty string |
| Seqs.SkipCorresponds | src-tauri/src/commands.rs:358 | strings blank at the same positions lose the same number of leading elements |
| Seqs.BackCorresponds | src-tauri/src/commands.rs:358 | strings blank at the same positions lose the same number of trailing elements |
| Seqs.TrimOffset | src-tauri/src/commands.rs:358 | the offset counts the leading blanks |
| Seqs.TrimCorresponds | src-tauri/src/commands.rs:358 | strings blank at the same positions trim to the same slice |
| Seqs.Take | src/features/conversations.js:312 | the result is the first `n` elements, or the whole sequence when it is shorter |
| Seqs.Filter | src/features/interactable.js:443-447 | the result holds exactly the elements that pass |
| Seqs.FilterIsSubsequence | src/features/interactable.js:443-447 | the survivors keep their original order: the result is a subsequence of the input |
| Seqs.FilterAppend | src/features/conversations.js:204 | filtering distributes over concatenation |
| Seqs.FilterAll | src/features/conversations.js:204 | a filter keeps everything exactly when every element passes |
| Seqs.FilterFilter | src/features/interactable.js:443-447 | filtering by a stronger test after a weaker one is filtering by the stronger |
| Seqs.FilterNone | src/features/conversations.js:204 | a filter keeps nothing when no element passes |
| RustText.Utf8Len | src-tauri/src/commands.rs:353 | one to four bytes per character, exactly one for ASCII |
| RustText.ByteLen | src-tauri/src/commands.rs:353 | a string's byte length is at least its character count |
| RustText.ByteLenAppend | src-tauri/src/commands.rs:377-379 | byte lengths add up over concatenation |
| RustText.ByteLenAscii | src-tauri/src/commands.rs:360 | ASCII text has one byte per character |
| RustText.ByteLenPrefixMonotone | src-tauri/src/commands.rs:363 | a longer prefix never has fewer bytes, and a strictly longer one has more |
| RustText.SliceTo | src-tauri/src/commands.rs:363 | a successful `&s[..n]` is the prefix of exactly `n` bytes; it panics out of bounds exactly when `n` exceeds the byte length |
| RustText.SliceToOkIffBoundary | src-tauri/src/commands.rs:363 | the slice succeeds exactly at a character boundary within the string |
| RustText.NoBoundaryWhenSliceFails | src-tauri/src/commands.rs:363 | when the slice fails, no prefix has exactly `n` bytes |
| RustText.Trim | src-tauri/src/commands.rs:358 | `str::trim` returns the block after the leading white space, with only white space after it and no white space at either end |
| Backend.EstimateTokenCount | src-tauri/src/commands.rs:352-354 | a quarter of the UTF-8 length rounded up; never negative; zero exactly for the empty text |
| Backend.TotalTokens | src-tauri/src/commands.rs:377-379 | the stored total is never negative and is zero exactly when every message is empty |
| Backend.TotalTokensAppend | src-tauri/src/commands.rs:377-379 | the total over two runs of messages is the sum of their totals |
| Backend.Ellipsize | src-tauri/src/commands.rs:360-363 | text within `max` bytes is kept; longer text succeeds exactly when byte `max` is a boundary, and then becomes its `max`-byte prefix plus "..." |
| Backend.GenerateTitle | src-tauri/src/commands.rs:356-365 | the trimmed text is kept up to 50 bytes; longer text becomes its 50-byte prefix plus "..."; it panics exactly when byte 50 is inside a character; a title is at most 53 bytes |
| Backend.FloorPrefix | src-tauri/src/commands.rs:363 | the longest prefix that fits in `max` bytes |
| Backend.EllipsizeAtBoundary | src-tauri/src/commands.rs:360-363 | text within `max` bytes is kept; otherwise a prefix within three bytes of the limit plus "..."; it never fails |
| Backend.EllipsizeAgreement | src-tauri/src/commands.rs:360-363 | wherever the source's cut succeeds, the boundary cut gives the same text |
| Backend.GenerateTitleAtBoundary | src-tauri/src/commands.rs:356-365 | the corrected title is at most 53 bytes and equals the source's title whenever that does not panic |
| Backend.EllipsizeAgreementIfOk | src-tauri/src/commands.rs:451-452 | the boundary cut agrees with every successful source cut |
| Backend.TitlePanicsInsideCharacter | src-tauri/src/commands.rs:363 | a 51-byte message whose 50th byte is inside "é" makes the title panic |
| Backend.RowsOf | src-tauri/src/commands.rs:491-495 | exactly the rows of the given conversation are selected, every one of them, in stored order |
| Backend.RowsNotOf | src-tauri/src/commands.rs:394-397 | the delete leaves exactly the rows of other conversations, every one of them, in stored order |
| Backend.InsertByPosition | src-tauri/src/commands.rs:495 | inserting adds exactly the one row and keeps all the others |
| Backend.InsertSorted | src-tauri/src/commands.rs:495 | inserting into rows in position order keeps them in position order |
| Backend.SortByPosition | src-tauri/src/commands.rs:495 | `ORDER BY position` yields a sorted permutation of the rows |
| Backend.SortSorted | src-tauri/src/commands.rs:495 | rows already in position order come back unchanged |
| Backend.MessageRows | src-tauri/src/commands.rs:399-411 | message `i` is stored at position `i` under the conversation's id |
| Backend.ToMessages | src-tauri/src/commands.rs:498-508 | each row reads back as the message it holds, in order |
| Backend.SaveConversation | src-tauri/src/commands.rs:368-417 | the conversation row is upserted with the conversation's title, model and timestamps and the recomputed token total, other conversations are untouched, and its rows are exactly its messages at their positions |
| Backend.LoadConversation | src-tauri/src/commands.rs:468-512 | an unknown id fails; a known one loads with one message per stored row |
| Backend.SaveLoadRoundTrip | src-tauri/src/commands.rs:368-512 | loading a saved conversation gives it back, messages in order, with the recomputed token total |
| Backend.SaveKeepsOthers | src-tauri/src/commands.rs:381-411 | saving one conversation leaves every other conversation loading as before |
| Backend.LastMessage | src-tauri/src/commands.rs:430-432 | there is no last message exactly when the conversation has no rows |
| Backend.PreviewText | src-tauri/src/commands.rs:440-455 | no message previews as "Empty conversation"; a message within 100 bytes is kept; a longer one becomes its 100-byte prefix plus "..."; a preview is at most 103 bytes |
| Backend.GetConversationPreview | src-tauri/src/commands.rs:439-456 | a row carries the conversation's id, stored title, model, timestamps and token count, its message count, and the preview text of its last message; it fails exactly when that preview panics |
| Backend.PreviewAfterSave | src-tauri/src/commands.rs:429-455 | after a save the preview row counts the saved messages and carries the saved title, the saved model and the preview text of the last saved message (or the empty-conversation placeholder) |
| Backend.UpdateConversationTitle | src-tauri/src/commands.rs:549-561 | the command fails exactly when the title panics; otherwise it sets that title and changes nothing else |
| Backend.HexValue | src-tauri/src/commands.rs:533 | a hexadecimal digit has a value below 16 |
| Backend.Hex | src-tauri/src/commands.rs:533 | `{:x}` is a non-empty string of hexadecimal digits |
| Backend.HexRoundTrip | src-tauri/src/commands.rs:533 | the random part of an id reads back as the number it was formatted from |
| Backend.DigitValue | src-tauri/src/commands.rs:533 | a character has a digit value exactly when it is `0`-`9`, and that value is below 10 |
| Backend.Digits | src-tauri/src/commands.rs:533 | the decimal digits are a non-empty string of digit characters that reads back as the number |
| Backend.Decimal | src-tauri/src/commands.rs:533 | the millisecond part of an id is non-empty, starts with "-" exactly for negative numbers, and reads back as the number it was formatted from |
| Backend.CreateNewConversation | src-tauri/src/commands.rs:530-546 | a new conversation is titled "New Conversation", is empty, has zero tokens, equal timestamps, the given model, and an id "conv-<millis>-<hex>" |
| Backend.NewConversationTokenCount | src-tauri/src/commands.rs:544 | a new conversation's token count is what saving it would compute |
| Backend.BoolToInt | src-tauri/src/commands.rs:254 | `auto_save as i64` is 0 or 1, and non-zero exactly for true |
| Backend.SavePreferences | src-tauri/src/commands.rs:252-255 | the single row holds the theme, the font size and the 0/1 flag |
| Backend.LoadPreferences | src-tauri/src/commands.rs:282-300 | with no row the defaults are "default", 16 and true; otherwise the row is read with the flag as `!= 0` |
| Backend.PreferencesRoundTrip | src-tauri/src/commands.rs:252-293 | loading after saving gives back exactly the saved preferences, whatever was stored before |
| AppState.UpdateGenerationState | src/core/state.js:18-22 | exactly the three generation fields change, with "" and null for omitted arguments |
| AppState.AddToConversation | src/core/state.js:24-30 | exactly one entry is appended with the given type, content and timestamp; earlier entries and the rest of the state are kept |
| AppState.ClearConversation | src/core/state.js:32-34 | the conversation becomes empty and nothing else changes |
| AppState.ClearAfterAdd | src/core/state.js:24-34 | clearing forgets an added entry |
| AppState.AddAfterClear | src/core/state.js:24-34 | an entry added after a clear is the whole conversation |
| AppState.SetActiveDropdown | src/core/state.js:36-38 | the dropdown becomes active and nothing else changes |
| AppState.ClearActiveDropdown | src/core/state.js:40-42 | no dropdown is active and nothing else changes |
| AppState.ClearUndoesSet | src/core/state.js:36-42 | clearing the active dropdown undoes setting it |
| AppState.Assign | src/core/state.js:45 | the keys of the new object overwrite and every other key keeps its value |
| AppState.UpdatePreferences | src/core/state.js:44-46 | only the keys present in the update change; every other preference and the rest of the state are kept |
| AppState.UpdatePreferencesCompose | src/core/state.js:44-46 | two updates are one update with the later values winning |
| AppState.UpdatePreferencesIdempotent | src/core/state.js:44-46 | applying the same update twice is applying it once |
| Conversations.ReplaceAll | src/features/conversations.js:357 | text without the pattern character is unchanged |
| Conversations.ReplaceAllAppend | src/features/conversations.js:356-361 | global replacement works piece by piece |
| Conversations.EscapeUnit | src/features/conversations.js:355-362 | an entity contains no markup character, and ordinary characters stand for themselves |
| Conversations.ReplaceChainAppend | src/features/conversations.js:355-362 | the chain of five replacements distributes over concatenation |
| Conversations.ReplaceAllUnit | src/features/conversations.js:357 | on one unit the replacement is the replacement text or the unit itself |
| Conversations.MarkupFreeUntouched | src/features/conversations.js:358-361 | text without markup passes the last four replacements unchanged |
| Conversations.ReplaceChainUnit | src/features/conversations.js:355-362 | on one unit the chain of replacements yields its entity, and no later step rewrites an earlier entity |
| Conversations.EscapeHtml | src/features/conversations.js:355-362 | escaping replaces every code unit by its own entity (`&`, `<`, `>`, `"`, `'`) or keeps it, with no entity escaped twice |
| Conversations.EscapeHtmlPerCharacter | src/features/conversations.js:355-362 | the chained replacements equal the per-character entity map |
| Conversations.EscapeHtmlNoMarkup | src/features/conversations.js:355-362 | escaped text contains no raw `<`, `>`, `"` or `'` |
| Conversations.EscapeEachNoMarkup | src/features/conversations.js:355-362 | the per-character entity map produces no markup character |
| Conversations.EscapeHtmlPlain | src/features/conversations.js:355-362 | text without `&` and markup is left as it is |
| Conversations.Ellipsize | src/features/conversations.js:312 | text within `max` units is kept; longer text becomes its first `max` units plus "..." |
| Conversations.FirstUser | src/features/conversations.js:309 | the index of the first user entry, or none when no entry is a user's |
| Conversations.GenerateTitle | src/features/conversations.js:308-315 | "New Conversation" without a user entry; otherwise the first user message trimmed and cut to 50 units plus "..."; at most 53 units |
| Conversations.EstimateTokens | src/features/conversations.js:319 | a quarter of the UTF-16 length, rounded up |
| Conversations.EstimateTokenCount | src/features/conversations.js:317-321 | the total is zero exactly when every entry is empty |
| Conversations.EstimateTokenCountAppend | src/features/conversations.js:317-321 | the estimate is a sum over the messages: the estimate of a concatenation is the sum of the estimates |
| Conversations.ListPreview | src/features/conversations.js:82-84 | a preview within 60 units is kept; a longer one becomes its first 60 units plus "..." |
| Conversations.DiffDays | src/features/conversations.js:341-342 | the day count is the least number of whole days covering the gap |
| Conversations.FormatDate | src/features/conversations.js:339-353 | one day is "Today", two "Yesterday", zero or three to seven "d-1 days ago", more the locale date |
| Conversations.FormatDateSameInstant | src/features/conversations.js:341-349 | a conversation updated this very millisecond is labelled "-1 days ago" |
| Conversations.FormatDateFixed | src/features/conversations.js:339-353 | a gap of at most a day is "Today", the "days ago" count is 2 to 6, and every non-zero gap gets the source's label |
| Conversations.DeleteConversationById | src/features/conversations.js:191-222 | without confirmation or on a failed delete nothing changes; otherwise the entry leaves the list, the rest keep their order, and the current id is cleared exactly when it was the deleted one, with a notice in the chat; nothing else in the application state changes |
| Conversations.StartNewConversation | src/features/conversations.js:224-253 | without a model or on failure nothing changes; otherwise the new id becomes current and the chat holds only the start notice; nothing else in the application state changes |
| Conversations.LoadConversations | src/features/conversations.js:39-49 | the list becomes the backend's list, or empty when the call fails |
| Conversations.HasActiveConversation | src/features/conversations.js:335-337 | active exactly when there is a current id, which every savable state has |
| Conversations.ToJsMessages | src/features/conversations.js:265-269 | each entry is sent as a message with the same role, content and timestamp |
| Conversations.SaveRequest | src/features/conversations.js:255-274 | a request is sent exactly when there is a current id and the chat is not empty; it carries that id, the generated title, the messages, the token estimate, the creation and update times from two separate clock readings, and a non-empty model |
| Conversations.ToEntries | src/features/conversations.js:147-153 | each loaded message is pushed as an entry with its role, content and timestamp |
| Conversations.Redisplay | src/features/conversations.js:185-189 | displaying the messages keeps what was there and appends, for each message in order, an entry with its role and content stamped with its own clock reading; nothing else in the state changes |
| Conversations.LoadConversationById | src/features/conversations.js:122-183 | the current id is a no-op; a load makes the id current and leaves every message twice: the first half of the chat is the loaded messages as stored, the second half the same messages again, each stamped with its own clock reading; a missing conversation starts fresh with a notice; other errors change nothing; only the chat and the current id ever change |
| Conversations.LoadDuplicatesMessages | src/features/conversations.js:147-155 | loading a one-message conversation leaves exactly two entries in the chat: the message as stored, then the same message stamped with the display time |
| Conversations.LoadConversationByIdFixed | src/features/conversations.js:122-183 | a load makes the chat exactly the loaded messages; every other case is as in the source |
| Conversations.LoadThenSaveRoundTrip | src/features/conversations.js:255-274 | with the fix, saving right after loading sends back exactly the loaded messages |
| Conversations.TitleArgs | src/core/tauri-api.js:55-56 | the title command's arguments hold `conversationId` and `firstMessage` exactly when those parameters are defined, with their values |
| Conversations.DecodeTitleArgs | src-tauri/src/commands.rs:549 | the title command reads its arguments exactly when both keys are present and hold strings, and then reads those strings |
| Conversations.TitleCallAsWritten | src/features/conversations.js:280-283 | passing one object `{conversationId, firstMessage}` as the first parameter gives arguments the command always rejects |
| Conversations.TitleCallFixed | src/core/tauri-api.js:55-56 | passing the id and the message as the two parameters gives arguments that read back as that id and message |
| Conversations.SaveCurrentConversation | src/features/conversations.js:276-294 | an empty chat or a missing id skips the save; a failed save reports failure; with no user message the list is reloaded; with a user message the title call is always rejected, so the save reports failure and changes nothing, whatever the backend returns |
| Conversations.SaveReportsFailure | src/features/conversations.js:278-292 | a chat with one user message reports "Failed to save conversation" and keeps the old list even when every backend call succeeds |
| Conversations.SaveCurrentConversationFixed | src/features/conversations.js:276-294 | with positional arguments the save completes exactly when the save and (with a user message) the title update succeed, and then the list is reloaded; the title command reads the current id and the first user message |
| Conversations.FixedSaveCompletes | src/features/conversations.js:276-294 | with the fix, the same one-message save completes and shows the reloaded list |
| Conversations.RenderItems | src/features/conversations.js:75-120 | one item per conversation, in list order |
| Conversations.RenderItem | src/features/conversations.js:75-120 | an item carries the conversation's id, its title and 60-unit preview escaped unit by unit, the model, counts inserted as they are, and the date label of its last update |
| Conversations.RenderList | src/features/conversations.js:51-73 | an empty list renders the placeholder alone; otherwise one item per conversation with its id, in order |
| Conversations.RenderedTextIsInert | src/features/conversations.js:86-98 | rendered titles and previews carry no raw markup, and a preview escapes at most 60 units of the original |
| Bridge.WhitespaceAgreesOnAscii | src-tauri/src/commands.rs:358 | below 0x80 Rust's and JavaScript's whitespace agree |
| Bridge.AsciiSlice | src-tauri/src/commands.rs:363 | a slice of ASCII text is ASCII |
| Bridge.WhitespaceMasksAgree | src-tauri/src/commands.rs:358 | on ASCII text both encodings have the same length and the same whitespace positions |
| Bridge.TrimAgreesOnAscii | src-tauri/src/commands.rs:358 | on ASCII text both `trim`s remove the same characters |
| Bridge.SliceEncodings | src-tauri/src/commands.rs:363 | on ASCII text slicing commutes with encoding |
| Bridge.CutAgreesOnAscii | src-tauri/src/commands.rs:360-363 | on long ASCII text both sides cut after 50 characters and agree |
| Bridge.BackendCutOnAscii | src-tauri/src/commands.rs:360-363 | on ASCII text longer than 50 characters the backend's cut succeeds and keeps exactly the first 50 characters followed by "..." |
| Bridge.FrontEndCutOnAscii | src/features/conversations.js:312 | on ASCII text longer than 50 characters the front end's cut of the encoded text is the encoding of the first 50 characters followed by "..." |
| Bridge.EllipsesAgree | src/features/conversations.js:312 | the backend's "..." and the front end's '...' are the same three code units |
| JsText.Utf16Append | src/features/conversations.js:312 | encoding distributes over concatenation, so a cut-and-append in characters is the same cut-and-append in code units |
| Bridge.TitlesAgreeOnAscii | src-tauri/src/commands.rs:356-365 | on ASCII text the backend's title never panics and equals the front end's |
| Bridge.TitlesDivergeOnAccent | src-tauri/src/commands.rs:356-365 | 49 letters and "é" make the backend's title panic while the front end keeps the text whole |
| Bridge.TokenEstimatesAgreeOnAscii | src-tauri/src/commands.rs:352-354 | on ASCII text the per-message estimates of the two sides agree |
| Bridge.TokenCountsAgreeOnAscii | src-tauri/src/commands.rs:377-379 | on an ASCII chat the front end's conversation estimate equals the total the backend computes on save for the same messages |
| Bridge.TokenEstimatesDiverge | src-tauri/src/commands.rs:352-354 | "éééé" is one token in the front end and two in the backend |
| Bridge.KeysDistinct | src-tauri/src/commands.rs:56-61 | the camelCase and snake_case field names in play are pairwise distinct |
| Bridge.ToJs | src-tauri/src/commands.rs:56-61 | the JSON object holds exactly the three fields under the given names |
| Bridge.FromJs | src-tauri/src/commands.rs:56-61 | a decoded value comes from the named fields, with a 64-bit font size; a missing font-size field fails |
| Bridge.Utf16RoundTripInverse | src-tauri/src/commands.rs:58 | a decodable code-unit sequence is the encoding of what it decodes to |
| Bridge.Serialize | src-tauri/src/commands.rs:56-61 | the loaded preferences reach the front end under `theme`, `font_size` and `auto_save`, never under `fontSize` or `autoSave` |
| Bridge.Deserialize | src-tauri/src/commands.rs:56-61 | an object without `font_size` is rejected |
| Bridge.LoadIntoState | src/features/preferences.js:4-13 | loading merges the received keys into the preferences: each received key takes the received value, every other key keeps its value, and nothing else changes |
| Bridge.LoadedPreferencesNotApplied | src/features/preferences.js:4-13 | loading never changes the `fontSize` or `autoSave` the front end uses |
| Bridge.InitialPreferencesRejected | src/features/preferences.js:15-22 | saving the start-up preferences fails; the state still holds them only when the start-up load (src/main.js:60) failed, since a successful load merges in the stored or default row |
| Bridge.SaveAfterLoadIgnoresEdits | src/features/preferences.js:15-22 | after a load, a save writes back the loaded values whatever the user set since |
| Bridge.SerializeFixed | src-tauri/src/commands.rs:56-61 | with the front end's names, the object holds `theme`, `fontSize` and `autoSave` |
| Bridge.DeserializeFixed | src-tauri/src/commands.rs:56-61 | a decoded value comes from `fontSize` and `autoSave` |
| Bridge.LoadIntoStateFixed | src/features/preferences.js:4-13 | with the front end's names, loading sets `fontSize` and `autoSave` to the loaded values and nothing else |
| Bridge.FixedSaveCarriesEdits | src/features/preferences.js:15-22 | with the front end's names, a save carries exactly what the user set |
| Bridge.FixedPreferenceCycle | src-tauri/src/commands.rs:252-299 | with the front end's names, storing, loading and saving again gives back the stored preferences |
| Bridge.FixedAcceptsInitial | src/core/state.js:11-15 | with the front end's names, the start-up preferences are accepted |

## Left out

- The DOM is not modelled. That covers element creation, `innerHTML`, CSS
  classes, focus, `preventDefault`, pointer capture and `setTimeout`. Events
  reach the model already dispatched to their target element.
- Layout is a parameter (`Editor.Env`). `getBoundingClientRect` and
  `offsetLeft`/`offsetTop`, and their rounding to whole pixels, are not
  modelled. Port centres are node positions plus a per-port offset. The drag
  start position is the node's stored position.
- Floating point is replaced by exact reals. `Math.exp(-deltaY * 0.001)` is
  taken as an arbitrary positive factor. The `Math.sqrt` comparison is
  replaced by the equivalent comparison of squares.
- The gesture state is not one `Idle | Panning | DraggingWire` value. The
  handlers never exclude one gesture from another, so the wire drag, the pan
  and each node's grab are independent fields, as in the code.
- A wire press during a wire drag leaves the first temporary path orphaned in
  the SVG. Paths are not modelled, so neither is this.
- Node drags do not compare pointer ids, and the model keeps that. It is
  listed here only because the pan does compare them.
- The static nodes present in the page before initialization are not
  modelled. The editor starts with no nodes.
- The typed value in a value node is not modelled. Only its selected type
  and the input it shows are.
- Lower-casing covers ASCII only. JavaScript's full Unicode case mapping is
  not modelled. The catalogue's texts are ASCII, but the typed query is not
  bound to be: a query holding, for example, U+212A KELVIN SIGN lower-cases
  to "k" in JavaScript and is kept as it is in the model.
- `Conversations.FormatDate` returns an abstract locale-date label past
  seven days. `toLocaleDateString` depends on the locale.
- Clocks and randomness are parameters: ISO timestamps, `Date.now`,
  `Utc::now` and `rand`.
- SQLite is modelled only as abstract row lists. That covers files, the
  `get_app_data_dir` paths, transactions, schema creation, and the
  `updated_at DESC` ordering of `get_conversations`.
- `delete_conversation` is not modelled. Its message rows would need a
  cascade that the schema's foreign key only enforces with a pragma not shown
  here.
- The chat streaming commands and the Ollama HTTP client are network I/O and
  concurrency, and are not modelled.
- Logging, status messages, the system-message typewriter, menus, modals,
  the sidebar, window controls, the keyboard shortcuts and the initialization
  wiring are UI plumbing and are not modelled.
- `setAvailableModels`, `setStatusTimeout` and `clearStatusTimeout` in
  `src/core/state.js` are not modelled. They are a plain assignment and timer
  handling.
- `Conversations.HasActiveConversation`: the empty id counts as active, as in
  the code. Saving, however, refuses it.
- The list item shows the conversation's model name unescaped, as the code
  does. `Conversations.RenderedTextIsInert` speaks only of the title and the
  preview.
- `Backend.LoadConversation` states the message count and order through
  `Backend.SaveLoadRoundTrip`, not for an arbitrary row list.
- Backend.EstimateTokenCount: computed exactly as `(n + 3) / 4` on unbounded
  integers. The source divides the byte length as an `f64` and casts the
  ceiling to `i64` (src-tauri/src/commands.rs:353); the two agree only for
  lengths below 2^53 bytes.
- Backend.TotalTokens: an unbounded sum. The source's `i64` `sum()`
  (src-tauri/src/commands.rs:377-379) would overflow past 2^63 - 1 tokens,
  which the model does not represent.
- After a save, `setActiveConversation` only marks list items with a CSS
  class, and `logMessage` only writes to the console. Neither is modelled.
  The success and failure messages appear only as `Conversations.SaveStatus`.
- `AppState.Initial` uses `autoSave: false`, while the backend's default is
  `true`. Both are modelled as written.

## Findings

| source | as written | input that shows it | evidently intended | confidence | as-written member | corrected member |
|---|---|---|---|---|---|---|
| src-tauri/src/commands.rs:356-365 | `&cleaned[..50]` slices at byte 50 without checking for a character boundary; the preview at lines 451-452 does the same at byte 100 | a first message of 49 × "a" followed by "é" (51 bytes, byte 50 inside "é") | cut at the last character boundary within 50 bytes | not executed | Backend.TitlePanicsInsideCharacter | Backend.GenerateTitleAtBoundary |
| src/features/conversations.js:339-353 | `Math.ceil` of a zero difference is 0, which falls into the `<= 7` branch | a conversation updated at the current millisecond gets "-1 days ago" | a difference of at most one day is "Today" | not executed | Conversations.FormatDateSameInstant | Conversations.FormatDateFixed |
| src/features/conversations.js:147-155 | the loaded messages are pushed onto the conversation, then displayed through `addMessage`, which appends them again (src/ui/messages.js:21) | loading a conversation with one message leaves two entries, and the next save stores both | each loaded message appears once | not executed | Conversations.LoadDuplicatesMessages | Conversations.LoadThenSaveRoundTrip |
| src-tauri/src/commands.rs:56-61 | the preferences struct serializes as `font_size` / `auto_save`, while the front end reads and writes `fontSize` / `autoSave` (src/core/state.js:11-15) | after the start-up load (src/main.js:60), a save sends the loaded `font_size` / `auto_save` and drops the edits to `fontSize` / `autoSave` (Bridge.SaveAfterLoadIgnoresEdits); if that load failed, saving the start-up preferences fails for lack of `font_size` | one set of field names on both sides | not executed | Bridge.InitialPreferencesRejected | Bridge.FixedPreferenceCycle |
| src/features/conversations.js:280-283 | `updateConversationTitle({conversationId, firstMessage})` passes one object, but the function at src/core/tauri-api.js:55-56 takes two parameters, so the command gets the object as `conversationId` and no `firstMessage` and rejects the call | any save of a chat that holds a user message: the conversation is stored, but the title call throws, the save reports "Failed to save conversation" and `loadConversations()` is skipped | the id and the message are passed as the two parameters, the title is updated and the list reloaded | not executed | Conversations.SaveReportsFailure | Conversations.FixedSaveCompletes |
