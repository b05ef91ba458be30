# Region feedback widget — Dafny model

A model of the in-page feedback widget shipped as `FeedbackWidget`
(`feedback-widget.js`) and as the self-initialising console copy `SyncVibe`
(`CONSOLE-SNIPPET.js`). The two files hold the same logic, and one model serves
both. A visitor switches feedback mode on and drags a rectangle over the page.
A comment panel opens next to the rectangle. Saving stores a feedback record
with the page address. Every record that belongs to the current page is shown
as a numbered marker. The collection lives in memory and is mirrored into one
storage slot.

The model is functional: every handler of the widget object is a function from
the old state to the new one.

- `Text` — `String.prototype.trim` over the ECMAScript whitespace set, and the blank-comment test.
- `Geometry` — drag normalisation (`updateDrawingBox`, `finishDrawing`) and input-panel placement (`createFeedbackBox`).
- `Records` — the stored record, the page location and the browser context it is built from.
- `PageMatch` — the filter of `displayMarkersForCurrentPage`, the rule that decides it, and the numbered marker list.
- `Persistence` — `saveFeedbacks`, `loadFeedbacks` and `exportFeedbacks` over an abstract storage slot and JSON codec.
- `Store` — building and appending a record in `saveFeedback`.
- `Widget` — the state machine: toggle, mouse down/move/up, cancel, save, route change, import, clear, load.
  It also proves an invariant that every handler keeps: the markers on the page are exactly the current page's
  records, numbered by collection position, and a panel is open only in feedback mode.

Foreign calls are parameters. `new URL(url, origin)` is a partial function `UrlParser` that returns the
parsed pathname and hash, or `None` where the constructor throws. `JSON.stringify`/`JSON.parse` are a `Codec`
pair; `Faithful` is the round-trip property JSON has for these records. `localStorage` is the `slot` field of
the state. Write and read failures are boolean inputs (`writeOk`, `readOk`). `confirm()` is the `confirmed`
input. `generateId()` is the `id` input. The browser facts read at save time are a `Client` value.

Behaviour of the code worth noting:

- A click, meaning a drag under 10px on EITHER axis, gives a 100×100 box whose top-left corner is the start point.
- The panel is placed by two `min` caps, with no padding and no left or top clamp.
- Import replaces the collection wholesale.
- A failed load keeps the collection the widget already had. At `init` that collection is empty.

The panel is `position: fixed`, but its left and top are computed from page coordinates (`pageX`/`pageY`).
The model reproduces that arithmetic as written.

## Model

| member | source | states |
|---|---|---|
| `Text.Trim` | feedback-widget.js:505-512 | `comment.trim()`: never longer than the input, and a non-empty result neither starts nor ends with whitespace; `Text.TrimMeetsSpec` states exactly what it cuts |
| `Text.TrimMeetsSpec` | feedback-widget.js:512 | the stored comment is the input with exactly its leading and trailing ECMAScript whitespace cut off; the middle is kept intact, and the result neither starts nor ends with whitespace |
| `Text.TrimEmptyIffBlank` | feedback-widget.js:505 | `!comment.trim()` holds iff every character of the comment is whitespace, the empty comment included |
| `Text.TrimIdempotent` | feedback-widget.js:512 | a stored comment is already trimmed: trimming it again changes nothing |
| `Geometry.SpanRect` | CONSOLE-SNIPPET.js:363-375 | the box drawn while dragging has non-negative size, holds both the start point and the pointer, and lies inside every box that holds both |
| `Geometry.DrawnRect` | feedback-widget.js:437-457 | a drag of at least 10px on both axes gives the min-corner box whose opposite corner is the other point. A shorter drag on either axis gives a 100×100 box with top-left at the start point. Either way both sides are at least 10px and the start point is inside |
| `Geometry.ClickBoxAnchoredAtStart` | feedback-widget.js:446-452 | a click box is anchored at the start point, not centred on it: a point just left of the start is outside it |
| `Geometry.DrawnRectDirectionFree` | feedback-widget.js:440-443 | for a real drag, swapping start and end gives the same rectangle |
| `Geometry.PanelOrigin` | feedback-widget.js:464-465 | panel left is the smaller of box right edge + 10 and innerWidth − 340. Panel top is the smaller of box top and innerHeight − 250. So left ≤ innerWidth − 340 and top ≤ innerHeight − 250 |
| `Geometry.PanelBesideBoxWhenRoom` | feedback-widget.js:464-465 | when the window has room, the panel sits 10px right of the box, clear of it, with its top level with the box top |
| `Geometry.PanelCanLeaveLeftEdge` | feedback-widget.js:464 | there is no lower clamp: in any window narrower than 340px the panel's left is negative, wherever the box is; in a 300px window a box at the left edge puts it at −40 |
| `PageMatch.DecidingRule` | feedback-widget.js:637-656 | the first rule that fires, in source order, is defined exactly when the record matches. The third rule (path equal, both hashes empty) never decides, because the second always fired first. The stored-pathname rule decides exactly when the URL does not parse and the pathnames agree |
| `PageMatch.Matches` | feedback-widget.js:637-656 | the filter: a parsable stored URL equal to the current href always matches, and any other match has the current path (parsed, or stored when the URL does not parse); `PageMatch.MatchesParsed` and `PageMatch.MatchesUnparsable` state both directions |
| `PageMatch.MatchesParsed` | feedback-widget.js:640-651 | with a parsable stored URL, a record matches iff its URL equals the current href, or its parsed path and hash equal the current path and hash |
| `PageMatch.MatchesUnparsable` | feedback-widget.js:640-655 | with an unparsable stored URL, a record matches iff its stored pathname equals the current path, even when its URL string equals the current href |
| `PageMatch.PageMarkers` | feedback-widget.js:558-575 | each marker carries a matching record and the number 1 + that record's index in the whole collection. Numbers strictly increase. Record i has a marker numbered i + 1 iff it matches the page |
| `PageMatch.DisplayMarkers` | CONSOLE-SNIPPET.js:545-576 | the filter-then-create loop produces exactly the page's marker list |
| `PageMatch.PageMarkersAppend` | feedback-widget.js:535-544 | appending a record keeps every existing marker and number, and adds one marker numbered by the new length iff the record matches |
| `PageMatch.NumbersSkipOtherPages` | feedback-widget.js:561 | when, of two records, only the second is on the page, the page shows a single marker and it reads 2: numbers shown on a page need not be contiguous or start at 1 |
| `Persistence.Write` | CONSOLE-SNIPPET.js:525-531 | a throwing write is swallowed and the slot keeps its old content; only a successful write changes the slot, and then it holds the serialised collection |
| `Persistence.Load` | CONSOLE-SNIPPET.js:533-543 | the collection is kept when the read throws, nothing or "" is stored, or the text does not parse. Otherwise it becomes the parsed value |
| `Persistence.WriteThenLoad` | CONSOLE-SNIPPET.js:525-543 | with a faithful JSON codec, a successful write followed by a successful read restores the written collection, whatever the reader held before |
| `Persistence.Export` | feedback-widget.js:669-671 | the stringify/parse deep copy equals the collection |
| `Store.NewFeedback` | feedback-widget.js:510-534 | the new record's box and page coordinates are the panel's box, and its URL and pathname are the current location's |
| `Store.NewFeedbackMatchesItsPage` | feedback-widget.js:525-526 | a record always matches the page it was saved on, whatever the URL parser does with the href |
| `Store.Append` | feedback-widget.js:504-535 | a blank comment is rejected. Any other comment appends exactly one record at the end, holding the trimmed, non-empty comment; every earlier record is unchanged |
| `Widget.LoadFeedbacks` | CONSOLE-SNIPPET.js:533-543 | a load that replaces the collection redraws the page's markers and changes nothing else (slot, location, mode, panel and drag are kept). Otherwise the state is unchanged. Consistency is preserved |
| `Widget.Init` | CONSOLE-SNIPPET.js:27-39 | the widget starts consistent and inactive, with no drag, panel or draw box, holding whatever the load produced from an empty collection, at the given location and storage slot |
| `Widget.ToggleMode` | CONSOLE-SNIPPET.js:240-256 | feedback mode flips, and switching it off closes the panel. The drag flag and the draw box are left alone, and so are the collection, markers and storage |
| `Widget.ToggleTwice` | CONSOLE-SNIPPET.js:240-256 | with no panel open, toggling twice restores the state |
| `Widget.MouseDown` | CONSOLE-SNIPPET.js:279-289 | ignored outside feedback mode or on the widget's button, panel or markers. Otherwise starts a drag at the point with an empty draw box there, changing nothing else |
| `Widget.StartDrawing` | CONSOLE-SNIPPET.js:347-361 | a drag starts at the point: the drag flag is set, the start point recorded, and the draw box is the zero-size span of the start point with itself; nothing else changes |
| `Widget.MouseMove` | CONSOLE-SNIPPET.js:265-277 | during a drag in feedback mode the draw box becomes the span (`updateDrawingBox`) of the start point and the pointer (so it holds both); otherwise nothing changes, and only the draw box ever does |
| `Widget.CreateFeedbackBox` | CONSOLE-SNIPPET.js:397-420 | the panel is open for the given box at exactly the two `Math.min` values, so inside the right and bottom caps; nothing but the panel changes |
| `Widget.FinishDrawing` | CONSOLE-SNIPPET.js:377-395 | always clears the drag flag and opens the panel for the drawn rectangle. A click removes the draw box; a real drag keeps it. Mode, the start point, the collection, markers, location and storage are unchanged |
| `Widget.MouseUp` | CONSOLE-SNIPPET.js:291-298 | ignored unless in feedback mode and dragging. Otherwise the drag ends with the panel `finishDrawing` opens, for a box of at least 10×10 that holds the start point; a click removes the draw box and a real drag keeps it; the start point, collection, markers, location and storage are unchanged |
| `Widget.ToggleOffStrandsDrag` | CONSOLE-SNIPPET.js:240-298 | switching mode off mid-drag leaves the drag flag and the draw box in place, and the following mouseup is ignored |
| `Widget.CloseCurrentBox` | CONSOLE-SNIPPET.js:518-523 | the panel is gone, nothing else changes, and with no panel open it does nothing |
| `Widget.CancelFeedback` | CONSOLE-SNIPPET.js:430-436 | panel and draw box are gone; feedback mode, the drag flag and start point, the collection, markers, location and storage are unchanged |
| `Widget.SaveFeedback` | CONSOLE-SNIPPET.js:438-487 | a blank comment changes nothing at all. Otherwise the collection grows by the trimmed record at the current page, storage receives the write, a marker numbered by the new length is added, and mode ends with no panel or draw box; the drag flag, start point and location are kept |
| `Widget.HandleRouteChange` | CONSOLE-SNIPPET.js:325-345 | after a route change: markers are those of the new page, no panel or draw box, mode off; the collection, storage, drag flag and start point are untouched |
| `Widget.ImportFeedbacks` | CONSOLE-SNIPPET.js:586-590 | the collection becomes the argument, is written out and the markers are redrawn; nothing else changes |
| `Widget.ClearFeedbacks` | CONSOLE-SNIPPET.js:592-598 | unconfirmed, nothing changes. Confirmed, the collection and markers are empty and the empty collection is written. Mode, panel and draw box are untouched either way, and a confirmed clear changes only the collection, markers and slot |
| `Widget.ExportFeedbacks` | CONSOLE-SNIPPET.js:582-584 | the exported value equals the collection |
| `Widget.StepKeepsConsistent` | CONSOLE-SNIPPET.js:469-477 | every handler keeps the markers on the page equal to the current page's marker list. It also keeps a panel open only in feedback mode, for a box of at least 10×10 |
| `Widget.SaveKeepsConsistent` | CONSOLE-SNIPPET.js:469-477 | the marker a save creates directly is exactly the one a full redraw of the grown collection would add, since a record always matches the page it was saved on |
| `Widget.RunKeepsConsistent` | CONSOLE-SNIPPET.js:545-576 | the same holds after any sequence of events from a consistent state |
| `Widget.StepKeepsInSync` | CONSOLE-SNIPPET.js:469-470 | while writes succeed, storage always holds the serialised current collection: no handler changes the collection without writing it |
| `Widget.ReloadRestores` | CONSOLE-SNIPPET.js:525-543 | a fresh widget loading storage that kept up with the collection gets the same collection back |
| `Widget.FailedWriteLostOnReload` | CONSOLE-SNIPPET.js:525-531 | after a save whose write throws, memory holds one more record, but a reload brings back the collection without it |

## Left out

- Style injection, markup templates, the toggle button, cursor and text-selection styling, and `showFeedback`: these are presentation only.
- `alert` and `confirm`: presentation. The confirmation answer is the `confirmed` input.
- The `history.pushState`/`replaceState` wrapping and the `popstate`/`hashchange` listeners: modelled as the single `RouteChange` event that carries the new location.
- `localStorage`, `JSON.stringify`/`JSON.parse` and `new URL`: these are foreign calls. They are a storage slot in the state and function-valued parameters, as described above. The configurable storage key is not modelled because only one slot is used.
- `generateId`: it depends on the clock and randomness. The id is an input, and no uniqueness is claimed; the code does not guarantee it.
- Timestamps, user agent, screen size and the recorded viewport and scroll values are carried as opaque data.
- Pixel values are whole numbers. Fractional `pageX`/`pageY` values are not modelled.
- Console logging and the auto-init call of the console copy are left out. `init`'s option merging is left out too.
- The `showButton` switch: the model assumes the toggle button exists, as it does by default. With `showButton: false` there is no `toggleButton`, and three handlers throw part-way: `toggleMode` after flipping `isActive` but before closing the panel (CONSOLE-SNIPPET.js:242), `handleRouteChange` (line 340) and `saveFeedback` after writing and drawing the marker (line 481). The claim that a panel is open only in feedback mode relies on the button being there.
- `maxCommentLength`: it only becomes the textarea's `maxlength` attribute, which the browser enforces while typing. No code checks the comment length.
- Stored text that parses to something other than an array (for example `null`) is out of scope. The codec's `parse` yields either a collection or a failure. Records without `url`/`pathname` fields are also out of scope: the model assumes every record is well-formed, although imported records are whatever the caller passes.
- Orphaned page elements are not tracked; the model keeps only the widget's current references. For example, a second drag while a panel is open replaces `currentBox` and `currentDrawBox` without removing the old elements.
- PageMatch.PageMarkers: the source numbers a marker by `indexOf`, which compares object identity. The model numbers by position. The two agree whenever every slot holds a distinct object, which is the case after `JSON.parse` and `push`. An imported array holding one object twice would show the first position's number on both markers.
- Widget.ImportFeedbacks: the model treats the imported array as a value. The source keeps the caller's array by reference (CONSOLE-SNIPPET.js:587, feedback-widget.js:675), so later saves push into it and a caller that changes it afterwards changes the collection with no write and no redraw. `Consistent` and `InSync` hold only when the caller leaves the array alone.
- Widget.InSync and Widget.ReloadRestores assume a single writer. Every tab of the origin, and both copies of the widget, share the key `feedback_widget_data` (CONSOLE-SNIPPET.js:14, feedback-widget.js:19). `saveFeedbacks` overwrites the slot with this instance's whole collection and never re-reads it, so a save in one tab drops records another tab wrote. The model's slot belongs to one instance.
- Calls a page can make directly on the exported object (`createMarker`, `createFeedbackBox`, `startDrawing`, `loadFeedbacks`, `init`) are not events of the model; a direct `createMarker` call, for one, breaks `Consistent`.
