/** The stored feedback record and the browser context it is captured from. */
module Records {
  import opened Geometry

  /** The page address as `window.location` reports it: `href`, `pathname` and
      `hash` (the hash is "" or starts with '#'). */
  datatype Location = Location(href: string, pathname: string, hash: string)

  /** Physical screen size, carried as opaque data. */
  datatype ScreenSize = ScreenSize(width: int, height: int)

  /** Where the feedback sits: the box in page coordinates (`pageX`/`pageY` repeat
      `x`/`y`), plus the viewport size and scroll offsets seen at capture time,
      which nothing reads back. */
  datatype Position = Position(
    x: int, y: int, width: int, height: int,
    pageX: int, pageY: int,
    viewportWidth: int, viewportHeight: int,
    scrollX: int, scrollY: int)

  /** One feedback record as kept in the collection and in storage. */
  datatype Feedback = Feedback(
    id: string,
    comment: string,
    position: Position,
    url: string,
    pathname: string,
    timestamp: string,
    userAgent: string,
    screenSize: ScreenSize)

  /** The browser facts `saveFeedback` reads besides the location: window size,
      scroll offsets, screen size, user agent and the current time (ISO text). */
  datatype Client = Client(
    view: Viewport,
    scrollX: int, scrollY: int,
    screen: ScreenSize,
    userAgent: string,
    now: string)

  /** Marker labels show `number`, 1 + the record's index in the whole collection. */
  datatype Marker = Marker(number: nat, feedback: Feedback)
}
