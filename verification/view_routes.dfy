/** The router: reading the navigation state from the browser path, and the
    navigators that write it.

    The route table is given in property-iteration order; each route renders
    the path segments for a scan id (`None` standing for a missing argument).
    The browser history is modelled by the path a navigation pushes; the
    origin in front of it never changes. */
module ViewRoutes {
  import opened Wrappers
  import opened Strings

  const ScanRoutePrefix: string := "scan_"

  datatype Route = Route(id: string, path: Option<string> -> seq<string>)

  datatype NavState = NavState(id: string, scanId: Option<string>, url: seq<string>)

  /** The state read from the url and, on the fallback path only, the path
      written back into the history. */
  datatype UrlState = UrlState(state: NavState, pushed: Option<string>)

  /** Reading `config.routes[fallbackRoute]` when there is no such route
      gives `undefined`, and calling it throws. */
  datatype RouteError = MissingFallback

  // ---------------------------------------------------------------------
  // Path segments

  /** The path segments that are not empty, in order. */
  function NonEmpty(parts: seq<string>): (r: seq<string>)
    ensures forall i :: 0 <= i < |r| ==> r[i] != "" && r[i] in parts
    ensures forall i :: 0 <= i < |parts| && parts[i] != "" ==> parts[i] in r
  {
    if |parts| == 0 then []
    else if parts[0] == "" then NonEmpty(parts[1..])
    else [parts[0]] + NonEmpty(parts[1..])
  }

  /** `xs.slice(-2)`. */
  function LastTwo(xs: seq<string>): seq<string> {
    if |xs| < 2 then xs else xs[|xs| - 2..]
  }

  function Element(xs: seq<string>, i: nat): Option<string> {
    if i < |xs| then Some(xs[i]) else None
  }

  /** The last two non-empty segments of a path, either of which may be
      missing. */
  function Segments(pathname: string): (r: (Option<string>, Option<string>))
    ensures r.0.None? ==> r.1.None?
    ensures r.0.Some? ==> r.0.value != "" && '/' !in r.0.value
    ensures r.1.Some? ==> r.1.value != "" && '/' !in r.1.value
  {
    var last := LastTwo(NonEmpty(Split(pathname, '/')));
    SplitHasNoSeparator(pathname, '/');
    (Element(last, 0), Element(last, 1))
  }

  /** `p || ''` on a segment, which is either missing or non-empty. */
  function Sanitize(p: Option<string>): string {
    p.GetOr("")
  }

  /** `String(array)`: the elements joined by commas. */
  function Stringify(xs: seq<string>): string {
    Join(xs, ',')
  }

  // ---------------------------------------------------------------------
  // Reading the url

  /** The first route, in table order, that renders the sanitised pair for
      the path's last segment. */
  function FirstMatch(routes: seq<Route>, sub: Option<string>, sanitized: seq<string>): (r: Option<nat>)
    ensures r.Some? ==> r.value < |routes| && Stringify(routes[r.value].path(sub)) == Stringify(sanitized)
    ensures forall i :: 0 <= i < |routes| && (r.None? || i < r.value) ==>
      Stringify(routes[i].path(sub)) != Stringify(sanitized)
  {
    if |routes| == 0 then None
    else if Stringify(routes[0].path(sub)) == Stringify(sanitized) then Some(0)
    else
      match FirstMatch(routes[1..], sub, sanitized)
      case None => None
      case Some(i) => Some(i + 1)
  }

  /** The first route with the given id. */
  function Lookup(routes: seq<Route>, id: string): (r: Option<Route>)
    ensures r.Some? <==> exists i :: 0 <= i < |routes| && routes[i].id == id
    ensures r.Some? ==> r.value in routes && r.value.id == id
  {
    if |routes| == 0 then None
    else if routes[0].id == id then Some(routes[0])
    else Lookup(routes[1..], id)
  }

  /** getStateFromUrl. */
  function GetStateFromUrl(routes: seq<Route>, fallback: string, pathname: string): (r: Result<UrlState, RouteError>)
    ensures r.Failure? <==>
      FirstMatch(routes, Segments(pathname).1, [Sanitize(Segments(pathname).0), Sanitize(Segments(pathname).1)]).None?
      && Lookup(routes, fallback).None?
    ensures r.Success? && r.value.pushed.None? ==>
      var (main, sub) := Segments(pathname);
      && r.value.state.url == [Sanitize(main), Sanitize(sub)]
      && (exists i :: 0 <= i < |routes| && routes[i].id == r.value.state.id
            && Stringify(routes[i].path(sub)) == Stringify(r.value.state.url))
      && r.value.state.scanId == (if StartsWith(r.value.state.id, ScanRoutePrefix) then sub else None)
    ensures r.Success? && r.value.pushed.Some? ==>
      && r.value.state.id == fallback && r.value.state.scanId.None?
      && r.value.pushed.value == "/" + Join(r.value.state.url, '/')
    ensures var (main, sub) := Segments(pathname);
      var found := FirstMatch(routes, sub, [Sanitize(main), Sanitize(sub)]);
      && (found.Some? ==> r.Success? && r.value.pushed.None? && r.value.state.id == routes[found.value].id)
      && (found.None? && r.Success? ==>
            r.value.pushed.Some? && r.value.state.url == Lookup(routes, fallback).value.path(None))
  {
    var (main, sub) := Segments(pathname);
    var sanitized := [Sanitize(main), Sanitize(sub)];
    match FirstMatch(routes, sub, sanitized)
    case Some(i) =>
      var id := routes[i].id;
      var scanId := if StartsWith(id, ScanRoutePrefix) then sub else None;
      Success(UrlState(NavState(id, scanId, sanitized), None))
    case None =>
      match Lookup(routes, fallback)
      case None => Failure(MissingFallback)
      case Some(route) =>
        var url := route.path(None);
        Success(UrlState(NavState(fallback, None, url), Some("/" + Join(url, '/'))))
  }

  // ---------------------------------------------------------------------
  // Navigating

  /** A template-literal rendering of a possibly missing array element. */
  function Show(p: Option<string>): string {
    p.GetOr("undefined")
  }

  datatype Navigation = Navigation(state: NavState, pushed: string)

  /** The navigator createNav builds for route `id`, called with `scanId`:
      the new state, and the path pushed into the history before the state
      setter is called. */
  function Navigate(routes: seq<Route>, id: string, scanId: Option<string>): (r: Option<Navigation>)
    ensures r.Some? <==> Lookup(routes, id).Some?
    ensures r.Some? ==>
      && r.value.state.id == id && r.value.state.scanId == scanId
      && r.value.state.url == Lookup(routes, id).value.path(scanId)
  {
    match Lookup(routes, id)
    case None => None
    case Some(route) =>
      var url := route.path(scanId);
      Some(Navigation(NavState(id, scanId, url),
                      "/" + Show(Element(url, 0)) + "/" + Show(Element(url, 1))))
  }

  // ---------------------------------------------------------------------
  // Properties

  lemma SplitHasNoSeparator(s: string, sep: char)
    ensures forall i :: 0 <= i < |Split(s, sep)| ==> sep !in Split(s, sep)[i]
    decreases |s|
  {
    if |s| > 0 {
      SplitHasNoSeparator(s[1..], sep);
    }
  }

  lemma {:induction false} NonEmptyConcat(xs: seq<string>, ys: seq<string>)
    ensures NonEmpty(xs + ys) == NonEmpty(xs) + NonEmpty(ys)
    decreases |xs|
  {
    if |xs| > 0 {
      assert (xs + ys)[1..] == xs[1..] + ys;
      NonEmptyConcat(xs[1..], ys);
    } else {
      assert xs + ys == ys;
    }
  }

  /** The sanitised pair is always exactly two entries: the last two
      non-empty segments, read from the end of the path. */
  lemma SegmentsOfPath(prefix: string, main: string, sub: string)
    requires main != "" && sub != "" && '/' !in main && '/' !in sub
    ensures Segments(prefix + "/" + main + "/" + sub) == (Some(main), Some(sub))
  {
    var tail := main + "/" + sub;
    assert prefix + "/" + main + "/" + sub == prefix + ['/'] + tail;
    SplitConcat(prefix, '/', tail);
    SplitAt(main, '/', sub);
    SplitWithout(sub, '/');
    var parts := Split(prefix, '/') + [main, sub];
    NonEmptyConcat(Split(prefix, '/'), [main, sub]);
    assert NonEmpty([sub]) == [sub] by {
      assert [sub][1..] == [];
    }
    assert NonEmpty([main, sub]) == [main, sub] by {
      assert [main, sub][1..] == [sub];
    }
  }

  lemma SegmentsOfRootPath(main: string, sub: string)
    requires main != "" && sub != "" && '/' !in main && '/' !in sub
    ensures Segments("/" + main + "/" + sub) == (Some(main), Some(sub))
  {
    SegmentsOfPath("", main, sub);
    assert "" + "/" + main + "/" + sub == "/" + main + "/" + sub;
  }

  /** Reloading the page after a navigation returns to the navigated route,
      provided it renders two non-empty segments and is the first route to
      render them for that last segment; a scan route gets its scan id back
      from the path. */
  lemma ReadAfterNavigate(routes: seq<Route>, fallback: string, i: nat, scanId: Option<string>,
                          main: string, sub: string)
    requires i < |routes| && Lookup(routes, routes[i].id) == Some(routes[i])
    requires routes[i].path(scanId) == [main, sub] == routes[i].path(Some(sub))
    requires main != "" && sub != "" && '/' !in main && '/' !in sub
    requires forall j :: 0 <= j < i ==> Stringify(routes[j].path(Some(sub))) != Stringify([main, sub])
    ensures Navigate(routes, routes[i].id, scanId).Some?
    ensures
      var nav := Navigate(routes, routes[i].id, scanId).value;
      var id := routes[i].id;
      GetStateFromUrl(routes, fallback, nav.pushed)
        == Success(UrlState(NavState(id, if StartsWith(id, ScanRoutePrefix) then Some(sub) else None, [main, sub]), None))
  {
    NavigatePushes(routes, i, scanId, main, sub);
    FirstMatchIs(routes, Some(sub), [main, sub], i);
    ReadRootPath(routes, fallback, main, sub, i);
  }

  /** `/main/sub` reads back as the first route rendering `[main, sub]`. */
  lemma ReadRootPath(routes: seq<Route>, fallback: string, main: string, sub: string, i: nat)
    requires main != "" && sub != "" && '/' !in main && '/' !in sub
    requires FirstMatch(routes, Some(sub), [main, sub]) == Some(i)
    ensures
      var id := routes[i].id;
      GetStateFromUrl(routes, fallback, "/" + main + "/" + sub)
        == Success(UrlState(NavState(id, if StartsWith(id, ScanRoutePrefix) then Some(sub) else None, [main, sub]), None))
  {
    SegmentsOfRootPath(main, sub);
    GetStateOfMatch(routes, fallback, "/" + main + "/" + sub, main, sub, i);
  }

  /** Navigating to a route that renders `[main, sub]` pushes `/main/sub`. */
  lemma NavigatePushes(routes: seq<Route>, i: nat, scanId: Option<string>, main: string, sub: string)
    requires i < |routes| && Lookup(routes, routes[i].id) == Some(routes[i])
    requires routes[i].path(scanId) == [main, sub]
    ensures Navigate(routes, routes[i].id, scanId).Some?
    ensures Navigate(routes, routes[i].id, scanId).value.pushed == "/" + main + "/" + sub
  {
    var url := routes[i].path(scanId);
    assert Show(Element(url, 0)) == main && Show(Element(url, 1)) == sub;
  }

  lemma GetStateOfMatch(routes: seq<Route>, fallback: string, pathname: string, main: string, sub: string, i: nat)
    requires Segments(pathname) == (Some(main), Some(sub))
    requires FirstMatch(routes, Some(sub), [main, sub]) == Some(i)
    ensures
      var id := routes[i].id;
      GetStateFromUrl(routes, fallback, pathname)
        == Success(UrlState(NavState(id, if StartsWith(id, ScanRoutePrefix) then Some(sub) else None, [main, sub]), None))
  {
    assert [Sanitize(Some(main)), Sanitize(Some(sub))] == [main, sub];
  }

  lemma {:induction false} FirstMatchIs(routes: seq<Route>, sub: Option<string>, sanitized: seq<string>, i: nat)
    requires i < |routes| && Stringify(routes[i].path(sub)) == Stringify(sanitized)
    requires forall j :: 0 <= j < i ==> Stringify(routes[j].path(sub)) != Stringify(sanitized)
    ensures FirstMatch(routes, sub, sanitized) == Some(i)
    decreases i
  {
    if i > 0 {
      FirstMatchIs(routes[1..], sub, sanitized, i - 1);
    }
  }
}
