/** The locale middleware (apps/frontend/src/proxy.ts): Next.js data
    requests pass through, the default locale's prefix is redirected away,
    other supported locales pass through, and everything else is rewritten
    under the default locale. */
module Proxy {
  import opened Strings

  const DataPrefix: string := "/_next/data/"

  /** `pathname === '/l' || pathname.startsWith('/l/')`: the locale must be
      a whole first segment. */
  predicate UnderLocale(path: string, locale: string) {
    path == "/" + locale || StartsWith(path, "/" + locale + "/")
  }

  /** `supportedLocales.some(...)` (lines 23-25) */
  predicate AnyLocale(path: string, supported: seq<string>) {
    exists i :: 0 <= i < |supported| && UnderLocale(path, supported[i])
  }

  datatype Route = PassThrough | RedirectTo(path: string) | RewriteTo(path: string)

  /** The routing decision (lines 7-31) as a value: which response, and the
      pathname it carries. */
  function Decide(defaultLocale: string, supported: seq<string>, path: string): (r: Route)
    ensures StartsWith(path, DataPrefix) ==> r == PassThrough
    ensures r.RedirectTo? <==> !StartsWith(path, DataPrefix) && UnderLocale(path, defaultLocale)
    ensures r.RedirectTo? && path == "/" + defaultLocale ==> r.path == "/"
    ensures r.RedirectTo? && path != "/" + defaultLocale ==> path == "/" + defaultLocale + r.path
    ensures r.RewriteTo? <==> !StartsWith(path, DataPrefix) && !UnderLocale(path, defaultLocale) &&
                              !AnyLocale(path, supported)
    ensures r.RewriteTo? ==> r.path == "/" + defaultLocale + path
  {
    var home := "/" + defaultLocale;
    if StartsWith(path, DataPrefix) then PassThrough
    else if UnderLocale(path, defaultLocale) then
      (if path == home then RedirectTo("/")
       else
         assert path == home + path[|home|..] by { assert path[..|home| + 1] == home + "/"; }
         RedirectTo(path[|home|..]))
    else if AnyLocale(path, supported) then PassThrough
    else RewriteTo(home + path)
  }

  /** The part of `request.nextUrl` the proxy writes. */
  class NextUrl {
    var pathname: string

    constructor(pathname: string)
      ensures this.pathname == pathname
    {
      this.pathname := pathname;
    }
  }

  datatype Response = Next | Redirect | Rewrite

  /** `proxy(request)`: assigns the new pathname (lines 19 and 29) and
      answers with the response built from `request.nextUrl`. */
  method Run(defaultLocale: string, supported: seq<string>, url: NextUrl) returns (resp: Response)
    modifies url
    ensures var route := Decide(defaultLocale, supported, old(url.pathname));
            match route
            case PassThrough => resp == Next && url.pathname == old(url.pathname)
            case RedirectTo(p) => resp == Redirect && url.pathname == p
            case RewriteTo(p) => resp == Rewrite && url.pathname == p
  {
    var pathname := url.pathname;
    if StartsWith(pathname, DataPrefix) {
      return Next;
    }
    var home := "/" + defaultLocale;
    if pathname == home || StartsWith(pathname, home + "/") {
      var newPathname := if pathname == home then "/" else pathname[|home|..];
      url.pathname := newPathname;
      return Redirect;
    }
    var hasLocale := false;
    for i := 0 to |supported|
      invariant hasLocale <==> exists j :: 0 <= j < i && UnderLocale(pathname, supported[j])
    {
      var locale := supported[i];
      if StartsWith(pathname, "/" + locale + "/") || pathname == "/" + locale {
        hasLocale := true;
      }
    }
    if hasLocale {
      return Next;
    }
    url.pathname := home + pathname;
    return Rewrite;
  }

  /** Exactly one default-locale prefix is removed: "/en/en/x" goes to
      "/en/x". A locale starting with "_" could spell "_next" and turn the
      path into a data request, so it is excluded. */
  lemma OnePrefixStripped(defaultLocale: string, supported: seq<string>, rest: string)
    requires !StartsWith(defaultLocale, "_")
    ensures Decide(defaultLocale, supported, "/" + defaultLocale + "/" + rest) == RedirectTo("/" + rest)
  {
    var path := "/" + defaultLocale + "/" + rest;
    assert !StartsWith(path, DataPrefix) by {
      if defaultLocale == [] {
        assert path[1] == '/';
      } else {
        assert path[1] == defaultLocale[0];
        assert defaultLocale[..1] != "_";
      }
      assert DataPrefix[1] == '_';
    }
    assert path == ("/" + defaultLocale) + ("/" + rest);
    assert StartsWith(path, "/" + defaultLocale + "/") by {
      assert path[..|defaultLocale| + 2] == "/" + defaultLocale + "/";
    }
    assert path != "/" + defaultLocale;
  }

  /** Concrete routes with default locale "en" and supported locales "en"
      and "fr": a segment boundary is needed, so "/english" is rewritten. */
  lemma RouteExamples()
    ensures Decide("en", ["en", "fr"], "/_next/data/x.json") == PassThrough
    ensures Decide("en", ["en", "fr"], "/en") == RedirectTo("/")
    ensures Decide("en", ["en", "fr"], "/en/blocks") == RedirectTo("/blocks")
    ensures Decide("en", ["en", "fr"], "/fr") == PassThrough
    ensures Decide("en", ["en", "fr"], "/fr/blocks") == PassThrough
    ensures Decide("en", ["en", "fr"], "/english") == RewriteTo("/en/english")
    ensures Decide("en", ["en", "fr"], "/") == RewriteTo("/en/")
  {
    assert "/_next/data/x.json"[..12] == DataPrefix;
    DefaultLocaleRoutes();
    OtherLocaleRoutes();
    UnprefixedRoutes();
  }

  lemma DefaultLocaleRoutes()
    ensures Decide("en", ["en", "fr"], "/en") == RedirectTo("/")
    ensures Decide("en", ["en", "fr"], "/en/blocks") == RedirectTo("/blocks")
  {
    assert "/en/blocks"[..4] == "/en/";
    assert "/en/blocks"[3..] == "/blocks";
  }

  lemma OtherLocaleRoutes()
    ensures Decide("en", ["en", "fr"], "/fr") == PassThrough
    ensures Decide("en", ["en", "fr"], "/fr/blocks") == PassThrough
  {
    assert "/fr/blocks"[..4] == "/fr/";
    assert UnderLocale("/fr", ["en", "fr"][1]);
    assert UnderLocale("/fr/blocks", ["en", "fr"][1]);
    assert "/fr"[..3] != "/en" by { assert "/fr"[1] == 'f'; }
    assert !StartsWith("/fr/blocks", "/en/") by { assert "/fr/blocks"[1] == 'f'; }
  }

  lemma UnprefixedRoutes()
    ensures Decide("en", ["en", "fr"], "/english") == RewriteTo("/en/english")
    ensures Decide("en", ["en", "fr"], "/") == RewriteTo("/en/")
  {
    assert "/english"[..4] == "/eng";
    assert "/english"[..4] != "/en/" by { assert "/english"[3] == 'g'; }
    assert "/english"[..4] != "/fr/" by { assert "/english"[1] == 'e'; }
    assert !UnderLocale("/english", "en");
    assert !UnderLocale("/english", "fr");
    assert !AnyLocale("/english", ["en", "fr"]) by {
      forall i | 0 <= i < 2 ensures !UnderLocale("/english", ["en", "fr"][i]) { }
    }
    assert !AnyLocale("/", ["en", "fr"]) by {
      forall i | 0 <= i < 2 ensures !UnderLocale("/", ["en", "fr"][i]) { }
    }
  }
}
