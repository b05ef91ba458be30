/** Deciding which stored feedback belongs to the page being viewed, and the
    numbered markers shown for it (`displayMarkersForCurrentPage`). */
module PageMatch {
  import opened Options
  import opened Records

  /** What `new URL(url, origin)` yields that the matcher reads. */
  datatype ParsedUrl = ParsedUrl(pathname: string, hash: string)

  /** `new URL(url, window.location.origin)`: a partial function, `None` where the
      constructor throws. */
  type UrlParser = string -> Option<ParsedUrl>

  /** The matching rules, in the order the filter tries them. */
  datatype Rule =
    | ExactUrl          // stored URL string equals the current href
    | PathAndHash       // parsed path and hash both equal the current ones
    | PathWithoutHash   // parsed path equal, neither side has a hash
    | StoredPathname    // stored URL unparsable: stored pathname equals the current one

  /** The filter predicate: does `fb` belong to the page at `loc`? An exact
      URL always matches, and no other match crosses to a different path. */
  predicate Matches(parse: UrlParser, fb: Feedback, loc: Location)
    ensures parse(fb.url).Some? && fb.url == loc.href ==> Matches(parse, fb, loc)
    ensures Matches(parse, fb, loc) && fb.url != loc.href ==>
              if parse(fb.url).Some? then parse(fb.url).value.pathname == loc.pathname
              else fb.pathname == loc.pathname
  {
    match parse(fb.url)
    case None => fb.pathname == loc.pathname
    case Some(u) =>
      || fb.url == loc.href
      || (u.pathname == loc.pathname && u.hash == loc.hash)
      || (u.pathname == loc.pathname && loc.hash == "" && u.hash == "")
  }

  /** The rule that decides a match, trying the rules in source order; `None` for
      no match. The third rule never decides anything: whenever it holds, the
      second already did. */
  function DecidingRule(parse: UrlParser, fb: Feedback, loc: Location): (r: Option<Rule>)
    ensures r.Some? <==> Matches(parse, fb, loc)
    ensures r != Some(PathWithoutHash)
    ensures r == Some(StoredPathname) <==> parse(fb.url).None? && fb.pathname == loc.pathname
    ensures r == Some(ExactUrl) <==> parse(fb.url).Some? && fb.url == loc.href
  {
    match parse(fb.url)
    case None => if fb.pathname == loc.pathname then Some(StoredPathname) else None
    case Some(u) =>
      if fb.url == loc.href then Some(ExactUrl)
      else if u.pathname == loc.pathname && u.hash == loc.hash then Some(PathAndHash)
      else if u.pathname == loc.pathname && loc.hash == "" && u.hash == "" then Some(PathWithoutHash)
      else None
  }

  /** With a parsable stored URL, a record matches iff its URL string equals the
      current href, or its parsed path and hash equal the current ones. */
  lemma MatchesParsed(parse: UrlParser, fb: Feedback, loc: Location, u: ParsedUrl)
    requires parse(fb.url) == Some(u)
    ensures Matches(parse, fb, loc) <==>
              fb.url == loc.href || (u.pathname == loc.pathname && u.hash == loc.hash)
  {
  }

  /** With an unparsable stored URL, only the stored pathname counts: parsing is
      attempted first, so even an identical URL string does not match by itself. */
  lemma MatchesUnparsable(parse: UrlParser, fb: Feedback, loc: Location)
    requires parse(fb.url).None?
    ensures Matches(parse, fb, loc) <==> fb.pathname == loc.pathname
    ensures fb.url == loc.href && fb.pathname != loc.pathname ==> !Matches(parse, fb, loc)
  {
  }

  /** `ms` is the marker list for the page at `loc`: every marker carries a
      matching record and 1 + that record's index in the whole collection,
      numbers strictly increase, and every matching record has its marker. */
  ghost predicate IsPageMarkerList(parse: UrlParser, fbs: seq<Feedback>, loc: Location, ms: seq<Marker>) {
    && (forall k :: 0 <= k < |ms| ==>
          && 1 <= ms[k].number <= |fbs|
          && fbs[ms[k].number - 1] == ms[k].feedback
          && Matches(parse, ms[k].feedback, loc))
    && (forall k, l :: 0 <= k < l < |ms| ==> ms[k].number < ms[l].number)
    && (forall i :: 0 <= i < |fbs| ==>
          (Matches(parse, fbs[i], loc) <==> Marker(i + 1, fbs[i]) in ms))
  }

  /** The markers for the page at `loc`, in collection order, each numbered by its
      record's position in the whole collection plus one. */
  function PageMarkers(parse: UrlParser, fbs: seq<Feedback>, loc: Location): (ms: seq<Marker>)
    ensures IsPageMarkerList(parse, fbs, loc, ms)
    decreases |fbs|
  {
    if |fbs| == 0 then []
    else
      var n := |fbs|;
      var prefix := PageMarkers(parse, fbs[..n - 1], loc);
      var last := if Matches(parse, fbs[n - 1], loc) then [Marker(n, fbs[n - 1])] else [];
      ExtendMarkerList(parse, fbs, loc, prefix, last);
      prefix + last
  }

  /** The step of `PageMarkers`: extending the marker list of all but the last
      record by the last record's marker, if it matches. */
  lemma ExtendMarkerList(parse: UrlParser, fbs: seq<Feedback>, loc: Location, prefix: seq<Marker>, last: seq<Marker>)
    requires |fbs| > 0
    requires IsPageMarkerList(parse, fbs[..|fbs| - 1], loc, prefix)
    requires last == if Matches(parse, fbs[|fbs| - 1], loc) then [Marker(|fbs|, fbs[|fbs| - 1])] else []
    ensures IsPageMarkerList(parse, fbs, loc, prefix + last)
  {
    ExtendMarkerListEntries(parse, fbs, loc, prefix, last);
    ExtendMarkerListCoverage(parse, fbs, loc, prefix, last);
  }

  /** The first two clauses of `IsPageMarkerList` survive the step. */
  lemma ExtendMarkerListEntries(parse: UrlParser, fbs: seq<Feedback>, loc: Location, prefix: seq<Marker>, last: seq<Marker>)
    requires |fbs| > 0
    requires IsPageMarkerList(parse, fbs[..|fbs| - 1], loc, prefix)
    requires last == if Matches(parse, fbs[|fbs| - 1], loc) then [Marker(|fbs|, fbs[|fbs| - 1])] else []
    ensures forall k :: 0 <= k < |prefix + last| ==>
              && 1 <= (prefix + last)[k].number <= |fbs|
              && fbs[(prefix + last)[k].number - 1] == (prefix + last)[k].feedback
              && Matches(parse, (prefix + last)[k].feedback, loc)
    ensures forall k, l :: 0 <= k < l < |prefix + last| ==> (prefix + last)[k].number < (prefix + last)[l].number
  {
    var n := |fbs|;
    var init := fbs[..n - 1];
    var ms := prefix + last;
    forall k | 0 <= k < |ms|
      ensures 1 <= ms[k].number <= n && fbs[ms[k].number - 1] == ms[k].feedback
      ensures Matches(parse, ms[k].feedback, loc)
    {
      if k < |prefix| {
        assert ms[k] == prefix[k];
        assert init[prefix[k].number - 1] == fbs[prefix[k].number - 1];
      }
    }
  }

  /** The third clause of `IsPageMarkerList` survives the step. */
  lemma ExtendMarkerListCoverage(parse: UrlParser, fbs: seq<Feedback>, loc: Location, prefix: seq<Marker>, last: seq<Marker>)
    requires |fbs| > 0
    requires IsPageMarkerList(parse, fbs[..|fbs| - 1], loc, prefix)
    requires last == if Matches(parse, fbs[|fbs| - 1], loc) then [Marker(|fbs|, fbs[|fbs| - 1])] else []
    ensures forall i :: 0 <= i < |fbs| ==>
              (Matches(parse, fbs[i], loc) <==> Marker(i + 1, fbs[i]) in prefix + last)
  {
    var n := |fbs|;
    var init := fbs[..n - 1];
    forall i | 0 <= i < n
      ensures Matches(parse, fbs[i], loc) <==> Marker(i + 1, fbs[i]) in prefix + last
    {
      if i < n - 1 {
        assert init[i] == fbs[i];
        assert Marker(i + 1, fbs[i]) !in last;
      } else {
        assert Marker(n, fbs[n - 1]) !in prefix;
      }
    }
  }

  /** `displayMarkersForCurrentPage`: filter the collection in order and create a
      marker per match. */
  method DisplayMarkers(parse: UrlParser, fbs: seq<Feedback>, loc: Location) returns (ms: seq<Marker>)
    ensures ms == PageMarkers(parse, fbs, loc)
  {
    ms := [];
    var i := 0;
    while i < |fbs|
      invariant 0 <= i <= |fbs|
      invariant ms == PageMarkers(parse, fbs[..i], loc)
    {
      assert fbs[..i + 1][..i] == fbs[..i];
      if Matches(parse, fbs[i], loc) {
        ms := ms + [Marker(i + 1, fbs[i])];
      }
      i := i + 1;
    }
    assert fbs[..i] == fbs;
  }

  /** Adding a record at the end keeps every existing marker and number, and adds
      one marker, numbered by the new length, exactly when the record matches. */
  lemma {:induction false} PageMarkersAppend(parse: UrlParser, fbs: seq<Feedback>, fb: Feedback, loc: Location)
    ensures PageMarkers(parse, fbs + [fb], loc)
         == PageMarkers(parse, fbs, loc)
            + (if Matches(parse, fb, loc) then [Marker(|fbs| + 1, fb)] else [])
  {
    assert (fbs + [fb])[..|fbs|] == fbs;
  }

  /** Numbers count the whole collection, not the page: when only the second of
      two records is on the page, its marker reads 2 and no marker reads 1. */
  lemma NumbersSkipOtherPages(parse: UrlParser, a: Feedback, b: Feedback, loc: Location)
    requires !Matches(parse, a, loc) && Matches(parse, b, loc)
    ensures PageMarkers(parse, [a, b], loc) == [Marker(2, b)]
  {
    PageMarkersAppend(parse, [a], b, loc);
    PageMarkersAppend(parse, [], a, loc);
    assert [a] + [b] == [a, b];
  }
}
