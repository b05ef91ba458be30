/** The widget object (`FeedbackWidget` / `SyncVibe`) as a state machine: its
    mode flags, the draw box and input panel it holds on to, the markers on the
    page, the collection, and the storage slot it persists to. Each handler is a
    function from the old state to the new one. */
module Widget {
  import opened Options
  import opened Text
  import opened Geometry
  import opened Records
  import opened PageMatch
  import opened Persistence
  import opened Store

  /** The open comment input panel (`currentBox`): the box it was opened for and
      the panel's own top-left corner. */
  datatype Panel = Panel(box: Rect, origin: Point)

  /** What a mousedown lands on, as the handler's `closest(...)` tests see it. */
  datatype Target = PageContent | ToggleButton | InputPanel | FeedbackMarker

  /** The foreign calls the widget makes: `new URL` and the JSON pair. */
  datatype Host = Host(parseUrl: UrlParser, codec: Codec)

  datatype State = State(
    feedbacks: seq<Feedback>,   // the collection
    isActive: bool,             // feedback mode on
    isDrawing: bool,            // a drag is in progress
    drawStart: Point,           // where the last drag started
    drawBox: Option<Rect>,      // the dashed box shown while dragging (`currentDrawBox`)
    panel: Option<Panel>,       // the input panel (`currentBox`)
    markers: seq<Marker>,       // markers on the page, in creation order
    loc: Location,              // the current page address
    slot: Option<string>)       // storage content under the widget's key

  /** The collection, the storage slot and the page are left alone. */
  predicate SameData(w: State, r: State) {
    r.feedbacks == w.feedbacks && r.markers == w.markers && r.loc == w.loc && r.slot == w.slot
  }

  /** What every reachable state satisfies: the page shows exactly the markers
      for the current page, and a panel is only open in feedback mode and for a
      box of at least the minimum size. */
  ghost predicate Consistent(h: Host, w: State) {
    && w.markers == PageMarkers(h.parseUrl, w.feedbacks, w.loc)
    && (w.panel.Some? ==>
          && w.isActive
          && w.panel.value.box.width >= MinDragSize
          && w.panel.value.box.height >= MinDragSize)
  }

  /** The storage slot holds the serialised collection. */
  ghost predicate InSync(h: Host, w: State) {
    w.slot == Some(h.codec.serialise(w.feedbacks))
  }

  /** The object before `init`: empty collection, everything off. */
  function Fresh(loc: Location, slot: Option<string>): State {
    State([], false, false, Point(0, 0), None, None, [], loc, slot)
  }

  /** `loadFeedbacks`: read the slot; if that replaced the collection, redraw the
      page's markers. */
  function LoadFeedbacks(h: Host, w: State, readOk: bool): (r: State)
    ensures r.feedbacks == Load(w.feedbacks, w.slot, readOk, h.codec)
    ensures LoadReplaces(w.slot, readOk, h.codec) ==>
              r.markers == PageMarkers(h.parseUrl, r.feedbacks, w.loc)
    ensures !LoadReplaces(w.slot, readOk, h.codec) ==> r == w
    ensures r == w.(feedbacks := r.feedbacks, markers := r.markers)
    ensures Consistent(h, w) ==> Consistent(h, r)
  {
    if LoadReplaces(w.slot, readOk, h.codec) then
      var fbs := Load(w.feedbacks, w.slot, readOk, h.codec);
      w.(feedbacks := fbs, markers := PageMarkers(h.parseUrl, fbs, w.loc))
    else
      w
  }

  /** `init`, as far as the model goes: load from storage on a fresh object. */
  function Init(h: Host, loc: Location, slot: Option<string>, readOk: bool): (r: State)
    ensures Consistent(h, r)
    ensures r.feedbacks == Load([], slot, readOk, h.codec)
    ensures !r.isActive && !r.isDrawing && r.panel.None? && r.drawBox.None?
    ensures r.loc == loc && r.slot == slot
  {
    LoadFeedbacks(h, Fresh(loc, slot), readOk)
  }

  /** `closeCurrentBox`: remove the input panel, if one is open. */
  function CloseCurrentBox(w: State): (r: State)
    ensures r.panel.None?
    ensures w.panel.None? ==> r == w
    ensures r == w.(panel := None)
  {
    w.(panel := None)
  }

  /** `toggleMode`: flip feedback mode; switching it off closes the input panel.
      A drag in progress and its draw box are left as they are. */
  function ToggleMode(w: State): (r: State)
    ensures r.isActive == !w.isActive
    ensures !r.isActive ==> r.panel.None?
    ensures r.isActive ==> r.panel == w.panel
    ensures r.isDrawing == w.isDrawing && r.drawStart == w.drawStart && r.drawBox == w.drawBox
    ensures SameData(w, r)
  {
    var r := w.(isActive := !w.isActive);
    if !r.isActive && r.panel.Some? then CloseCurrentBox(r) else r
  }

  /** With no panel open, toggling twice is the identity. */
  lemma ToggleTwice(w: State)
    requires w.panel.None?
    ensures ToggleMode(ToggleMode(w)) == w
  {
  }

  /** `startDrawing`: begin a drag at `p` with an empty draw box. */
  function StartDrawing(w: State, p: Point): (r: State)
    ensures r.isDrawing && r.drawStart == p
    ensures r.drawBox == Some(SpanRect(p, p))
    ensures r == w.(isDrawing := true, drawStart := p, drawBox := r.drawBox)
  {
    w.(isDrawing := true, drawStart := p, drawBox := Some(Rect(p.x, p.y, 0, 0)))
  }

  /** The mousedown handler: ignored outside feedback mode and on the widget's
      own button, panel or markers; otherwise starts a drag. */
  function MouseDown(w: State, target: Target, p: Point): (r: State)
    ensures !w.isActive || !target.PageContent? ==> r == w
    ensures w.isActive && target.PageContent? ==>
              && r.isDrawing && r.drawStart == p && r.drawBox == Some(Rect(p.x, p.y, 0, 0))
              && r.isActive && r.panel == w.panel && SameData(w, r)
  {
    if !w.isActive then w
    else if target == ToggleButton then w
    else if target == InputPanel then w
    else if target == FeedbackMarker then w
    else StartDrawing(w, p)
  }

  /** The mousemove handler: while dragging in feedback mode, stretch the draw box
      to span the start point and `p`. */
  function MouseMove(w: State, p: Point): (r: State)
    ensures r.drawBox != w.drawBox ==>
              && w.isActive && w.isDrawing && w.drawBox.Some? && r.drawBox.Some?
              && Contains(r.drawBox.value, w.drawStart) && Contains(r.drawBox.value, p)
    ensures w.isActive && w.isDrawing && w.drawBox.Some? ==> r.drawBox == Some(SpanRect(w.drawStart, p))
    ensures !(w.isActive && w.isDrawing && w.drawBox.Some?) ==> r == w
    ensures r == w.(drawBox := r.drawBox)
  {
    if w.isActive && w.isDrawing && w.drawBox.Some? then
      w.(drawBox := Some(SpanRect(w.drawStart, p)))
    else
      w
  }

  /** `createFeedbackBox`: open the input panel for `box`, placed by
      `PanelOrigin`. An already open panel is replaced. */
  function CreateFeedbackBox(w: State, box: Rect, view: Viewport): (r: State)
    ensures r.panel.Some? && r.panel.value.box == box
    ensures r.panel.value.origin.x <= view.innerWidth - PanelWidthReserve
    ensures r.panel.value.origin.y <= view.innerHeight - PanelHeightReserve
    ensures r.panel == Some(Panel(box, PanelOrigin(box, view)))
    ensures r == w.(panel := r.panel)
  {
    w.(panel := Some(Panel(box, PanelOrigin(box, view))))
  }

  /** `finishDrawing`: end the drag at `p` and open the panel for the drawn box.
      A click (too short a drag) also removes the draw box; a real drag keeps it
      on screen under the panel. */
  function FinishDrawing(w: State, p: Point, view: Viewport): (r: State)
    ensures !r.isDrawing
    ensures r.panel == Some(Panel(DrawnRect(w.drawStart, p), PanelOrigin(DrawnRect(w.drawStart, p), view)))
    ensures IsDrag(w.drawStart, p) ==> r.drawBox == w.drawBox
    ensures !IsDrag(w.drawStart, p) ==> r.drawBox.None?
    ensures r.isActive == w.isActive && r.drawStart == w.drawStart && SameData(w, r)
  {
    var r := w.(isDrawing := false);
    var box := DrawnRect(w.drawStart, p);
    if IsDrag(w.drawStart, p) then CreateFeedbackBox(r, box, view)
    else CreateFeedbackBox(r.(drawBox := None), box, view)
  }

  /** The mouseup handler: only a drag in progress in feedback mode is finished. */
  function MouseUp(w: State, p: Point, view: Viewport): (r: State)
    ensures !(w.isActive && w.isDrawing) ==> r == w
    ensures w.isActive && w.isDrawing ==>
              && !r.isDrawing && r.isActive
              && r.panel.Some? && r.panel.value.box.width >= MinDragSize
              && r.panel.value.box.height >= MinDragSize
              && Contains(r.panel.value.box, w.drawStart)
              && r.panel == FinishDrawing(w, p, view).panel
              && (IsDrag(w.drawStart, p) ==> r.drawBox == w.drawBox)
              && (!IsDrag(w.drawStart, p) ==> r.drawBox.None?)
              && r.drawStart == w.drawStart
              && SameData(w, r)
  {
    if !w.isActive || !w.isDrawing then w else FinishDrawing(w, p, view)
  }

  /** Switching feedback mode off in the middle of a drag strands the drag: the
      flag stays set, the draw box stays on screen, and the next mouseup is
      ignored. */
  lemma ToggleOffStrandsDrag(w: State, p: Point, view: Viewport)
    requires w.isActive && w.isDrawing && w.drawBox.Some?
    ensures ToggleMode(w).isDrawing && ToggleMode(w).drawBox == w.drawBox
    ensures MouseUp(ToggleMode(w), p, view) == ToggleMode(w)
  {
  }

  /** `cancelFeedback`: close the panel and remove the draw box; feedback mode
      stays as it was. */
  function CancelFeedback(w: State): (r: State)
    ensures r.panel.None? && r.drawBox.None?
    ensures r.isActive == w.isActive && r.isDrawing == w.isDrawing && r.drawStart == w.drawStart
    ensures SameData(w, r)
  {
    CloseCurrentBox(w).(drawBox := None)
  }

  /** `saveFeedback`: a blank comment changes nothing (the user is alerted).
      Otherwise the trimmed comment is appended as a new record at the current
      page, the collection is written out, the draw box and panel go away, a
      marker for the record is added, and feedback mode is switched off. */
  function SaveFeedback(h: Host, w: State, comment: string, box: Rect, id: string,
                        client: Client, writeOk: bool): (r: State)
    ensures IsBlank(comment) ==> r == w
    ensures !IsBlank(comment) ==>
              var fb := NewFeedback(id, Trim(comment), box, w.loc, client);
              && r.feedbacks == w.feedbacks + [fb]
              && r.slot == Write(w.slot, h.codec, r.feedbacks, writeOk)
              && r.markers == w.markers + [Marker(|w.feedbacks| + 1, fb)]
              && !r.isActive && r.panel.None? && r.drawBox.None?
              && r.isDrawing == w.isDrawing && r.drawStart == w.drawStart && r.loc == w.loc
  {
    match Append(w.feedbacks, id, comment, box, w.loc, client)
    case None => w
    case Some(fbs) =>
      var fb := fbs[|fbs| - 1];
      var r := w.(feedbacks := fbs, slot := Write(w.slot, h.codec, fbs, writeOk), drawBox := None);
      var r := r.(markers := r.markers + [Marker(|fbs|, fb)]);
      CloseCurrentBox(r).(isActive := false)
  }

  /** `handleRouteChange`: redraw the markers for the new address, close the
      panel, remove the draw box and leave feedback mode. The collection and the
      storage slot are untouched; a drag flag left set stays set. */
  function HandleRouteChange(h: Host, w: State, loc: Location): (r: State)
    ensures r.loc == loc && r.markers == PageMarkers(h.parseUrl, w.feedbacks, loc)
    ensures !r.isActive && r.panel.None? && r.drawBox.None?
    ensures r.feedbacks == w.feedbacks && r.slot == w.slot
    ensures r.isDrawing == w.isDrawing && r.drawStart == w.drawStart
  {
    var r := w.(loc := loc, markers := PageMarkers(h.parseUrl, w.feedbacks, loc));
    var r := if r.panel.Some? then CloseCurrentBox(r) else r;
    var r := if r.drawBox.Some? then r.(drawBox := None) else r;
    if r.isActive then r.(isActive := false) else r
  }

  /** `importFeedbacks`: replace the collection wholesale, write it out and redraw
      the markers. */
  function ImportFeedbacks(h: Host, w: State, fbs: seq<Feedback>, writeOk: bool): (r: State)
    ensures r.feedbacks == fbs
    ensures r.slot == Write(w.slot, h.codec, fbs, writeOk)
    ensures r.markers == PageMarkers(h.parseUrl, fbs, w.loc)
    ensures r == w.(feedbacks := r.feedbacks, slot := r.slot, markers := r.markers)
  {
    w.(feedbacks := fbs, slot := Write(w.slot, h.codec, fbs, writeOk),
       markers := PageMarkers(h.parseUrl, fbs, w.loc))
  }

  /** `clearFeedbacks`: only when the user confirms, empty the collection, write
      it out and remove every marker; otherwise nothing happens. */
  function ClearFeedbacks(h: Host, w: State, confirmed: bool, writeOk: bool): (r: State)
    ensures !confirmed ==> r == w
    ensures confirmed ==> r.feedbacks == [] && r.markers == []
                          && r.slot == Write(w.slot, h.codec, [], writeOk)
    ensures confirmed ==> r == w.(feedbacks := [], markers := [], slot := r.slot)
    ensures r.isActive == w.isActive && r.panel == w.panel && r.drawBox == w.drawBox
  {
    if confirmed then w.(feedbacks := [], slot := Write(w.slot, h.codec, [], writeOk), markers := [])
    else w
  }

  /** `exportFeedbacks`: a copy equal to the collection. */
  function ExportFeedbacks(h: Host, w: State): (r: Option<seq<Feedback>>)
    ensures Faithful(h.codec) ==> r == Some(w.feedbacks)
  {
    Export(w.feedbacks, h.codec)
  }

  /** The user's gestures, navigation and the import/clear API, after `init`. */
  datatype Event =
    | Toggle
    | Down(target: Target, at: Point)
    | Move(at: Point)
    | Up(at: Point, view: Viewport)
    | Cancel
    | Save(comment: string, box: Rect, id: string, client: Client, writeOk: bool)
    | RouteChange(loc: Location)
    | Import(fbs: seq<Feedback>, writeOk: bool)
    | Clear(confirmed: bool, writeOk: bool)

  function Step(h: Host, w: State, e: Event): State {
    match e
    case Toggle => ToggleMode(w)
    case Down(target, at) => MouseDown(w, target, at)
    case Move(at) => MouseMove(w, at)
    case Up(at, view) => MouseUp(w, at, view)
    case Cancel => CancelFeedback(w)
    case Save(comment, box, id, client, writeOk) => SaveFeedback(h, w, comment, box, id, client, writeOk)
    case RouteChange(loc) => HandleRouteChange(h, w, loc)
    case Import(fbs, writeOk) => ImportFeedbacks(h, w, fbs, writeOk)
    case Clear(confirmed, writeOk) => ClearFeedbacks(h, w, confirmed, writeOk)
  }

  function Run(h: Host, w: State, es: seq<Event>): State
    decreases |es|
  {
    if |es| == 0 then w else Run(h, Step(h, w, es[0]), es[1..])
  }

  /** Every handler keeps the state consistent. The one with work to do is the
      save: its new marker is the one a full redraw would add, because a record
      always matches the page it was saved on. */
  lemma StepKeepsConsistent(h: Host, w: State, e: Event)
    requires Consistent(h, w)
    ensures Consistent(h, Step(h, w, e))
  {
    match e
    case Save(comment, box, id, client, writeOk) =>
      SaveKeepsConsistent(h, w, comment, box, id, client, writeOk);
    case _ =>
  }

  /** The save case: the marker the save adds is the one a full redraw of the
      grown collection would add. */
  lemma SaveKeepsConsistent(h: Host, w: State, comment: string, box: Rect, id: string,
                            client: Client, writeOk: bool)
    requires Consistent(h, w)
    ensures Consistent(h, SaveFeedback(h, w, comment, box, id, client, writeOk))
  {
    if !IsBlank(comment) {
      var fb := NewFeedback(id, Trim(comment), box, w.loc, client);
      NewFeedbackMatchesItsPage(h.parseUrl, id, Trim(comment), box, w.loc, client);
      PageMarkersAppend(h.parseUrl, w.feedbacks, fb, w.loc);
    }
  }

  /** From `init` on, whatever happens, the markers on the page are exactly those
      of the current page's records, numbered by collection position, and no panel
      is open outside feedback mode. */
  lemma {:induction false} RunKeepsConsistent(h: Host, w: State, es: seq<Event>)
    requires Consistent(h, w)
    ensures Consistent(h, Run(h, w, es))
    decreases |es|
  {
    if |es| > 0 {
      StepKeepsConsistent(h, w, es[0]);
      RunKeepsConsistent(h, Step(h, w, es[0]), es[1..]);
    }
  }

  /** The events whose storage writes, if any, succeed. */
  predicate WritesSucceed(e: Event) {
    match e
    case Save(_, _, _, _, writeOk) => writeOk
    case Import(_, writeOk) => writeOk
    case Clear(_, writeOk) => writeOk
    case _ => true
  }

  /** While writes succeed, storage keeps up with the collection: no handler
      changes the collection without writing it out. */
  lemma StepKeepsInSync(h: Host, w: State, e: Event)
    requires InSync(h, w) && WritesSucceed(e)
    ensures InSync(h, Step(h, w, e))
  {
    match e
    case Save(comment, box, id, client, writeOk) =>
      if !IsBlank(comment) {
        assert Step(h, w, e).slot == Some(h.codec.serialise(Step(h, w, e).feedbacks));
      }
    case _ =>
  }

  /** A reload restores a collection that storage kept up with. */
  lemma ReloadRestores(h: Host, w: State, loc: Location)
    requires Faithful(h.codec) && InSync(h, w)
    ensures Init(h, loc, w.slot, true).feedbacks == w.feedbacks
  {
    WriteThenLoad(h.codec, w.slot, w.feedbacks, []);
  }

  /** A save whose write fails keeps the feedback in memory only: the in-memory
      collection gains it, but a reload brings back the collection without it. */
  lemma FailedWriteLostOnReload(h: Host, w: State, comment: string, box: Rect, id: string,
                                client: Client, loc: Location)
    requires Faithful(h.codec) && InSync(h, w) && !IsBlank(comment)
    ensures |SaveFeedback(h, w, comment, box, id, client, false).feedbacks| == |w.feedbacks| + 1
    ensures Init(h, loc, SaveFeedback(h, w, comment, box, id, client, false).slot, true).feedbacks
            == w.feedbacks
  {
    WriteThenLoad(h.codec, w.slot, w.feedbacks, []);
  }
}
