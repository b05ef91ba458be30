/** The collection-level half of `saveFeedback`: building the record and
    appending it, or rejecting a blank comment. */
module Store {
  import opened Options
  import opened Text
  import opened Geometry
  import opened Records
  import opened PageMatch

  /** The record `saveFeedback` builds from the already trimmed `text`, the
      panel's box, the page location and the browser context. `id` stands for
      `generateId()`, whose value the model takes as given. */
  function NewFeedback(id: string, text: string, box: Rect, loc: Location, client: Client): (fb: Feedback)
    ensures fb.position.x == fb.position.pageX == box.x
    ensures fb.position.y == fb.position.pageY == box.y
    ensures fb.position.width == box.width && fb.position.height == box.height
    ensures fb.url == loc.href && fb.pathname == loc.pathname
  {
    Feedback(
      id, text,
      Position(box.x, box.y, box.width, box.height, box.x, box.y,
               client.view.innerWidth, client.view.innerHeight, client.scrollX, client.scrollY),
      loc.href, loc.pathname, client.now, client.userAgent, client.screen)
  }

  /** A record always belongs to the page it was saved on, whatever the URL
      parser does with its href: a parsable href matches by exact URL, an
      unparsable one by the stored pathname. */
  lemma NewFeedbackMatchesItsPage(parse: UrlParser, id: string, text: string, box: Rect, loc: Location, client: Client)
    ensures Matches(parse, NewFeedback(id, text, box, loc, client), loc)
  {
  }

  /** Append a feedback for `comment`: `None` when the comment is blank,
      otherwise the collection with one record added at the end whose comment is
      the trimmed input. */
  function Append(fbs: seq<Feedback>, id: string, comment: string, box: Rect, loc: Location, client: Client)
    : (r: Option<seq<Feedback>>)
    ensures r.None? <==> IsBlank(comment)
    ensures r.Some? ==>
              && |r.value| == |fbs| + 1
              && r.value[..|fbs|] == fbs
              && r.value[|fbs|] == NewFeedback(id, Trim(comment), box, loc, client)
              && IsTrimOf(r.value[|fbs|].comment, comment)
              && r.value[|fbs|].comment != ""
  {
    TrimEmptyIffBlank(comment);
    TrimMeetsSpec(comment);
    var text := Trim(comment);
    if text == "" then None
    else
      var fb := NewFeedback(id, text, box, loc, client);
      assert (fbs + [fb])[..|fbs|] == fbs;
      Some(fbs + [fb])
  }
}
