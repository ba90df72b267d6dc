/** `getParameterByName(name, url)`, the query-string reader shared by the
    restaurant page of both versions (src/js/restaurant_info.js and
    js/restaurant_info.js). The regular expression
    `[?&]name(=([^&#]*)|&|#|$)` is written out as a scan: the leftmost
    `?` or `&` followed by the name and then by `=`, `&`, `#` or the end of
    the URL. The name is taken literally. `decodeURIComponent` is a
    parameter: None stands for the URIError it throws. */
module Query {
  import opened Wrappers
  import Text

  /** What follows the name in a match: a value after `=`, or nothing. */
  datatype Capture = NoValue | WithValue(value: string)

  /** The result of `getParameterByName`: null, a string, or the URIError
      that decoding throws. */
  datatype Lookup = NotFound | Found(text: string) | UriError

  /** `[^&#]*`, greedy: the longest prefix without `&` or `#`. */
  function ValueSpan(s: string): (v: string)
    ensures |v| <= |s| && v == s[..|v|]
    ensures '&' !in v && '#' !in v
    ensures |v| < |s| ==> s[|v|] == '&' || s[|v|] == '#'
  {
    if s == [] || s[0] == '&' || s[0] == '#' then []
    else [s[0]] + ValueSpan(s[1..])
  }

  /** `[?&]name` at position `p` of `url`. */
  predicate NameAt(url: string, name: string, p: nat) {
    p < |url| && (url[p] == '?' || url[p] == '&') && p + 1 + |name| <= |url| && url[p + 1..p + 1 + |name|] == name
  }

  /** Does the pattern match at position `p` of `url`, and with what? */
  function MatchAt(url: string, name: string, p: nat): Option<Capture> {
    if NameAt(url, name, p) then
      var q := p + 1 + |name|;
      if q < |url| && url[q] == '=' then Some(WithValue(ValueSpan(url[q + 1..])))
      else if q == |url| || url[q] == '&' || url[q] == '#' then Some(NoValue)
      else None
    else None
  }

  /** `regex.exec(url)` from position `p` on: the leftmost match. */
  function Search(url: string, name: string, p: nat): (r: Option<(nat, Capture)>)
    requires p <= |url|
    ensures r.None? ==> forall q :: p <= q <= |url| ==> MatchAt(url, name, q).None?
    ensures r.Some? ==> p <= r.value.0 < |url| && MatchAt(url, name, r.value.0) == Some(r.value.1)
    ensures r.Some? ==> forall q :: p <= q < r.value.0 ==> MatchAt(url, name, q).None?
    decreases |url| - p
  {
    if p == |url| then None
    else match MatchAt(url, name, p)
      case Some(c) => Some((p, c))
      case None => Search(url, name, p + 1)
  }

  /** `!url`: an undefined or empty url falls back to the page's own. */
  function UrlOrHref(url: Option<string>, href: string): string {
    if url.Some? && url.value != "" then url.value else href
  }

  /** `getParameterByName(name, url)`. */
  function GetParameterByName(name: string, url: Option<string>, href: string, decode: string -> Option<string>): Lookup {
    match Search(UrlOrHref(url, href), name, 0)
    case None => NotFound
    case Some((_, NoValue)) => Found("")
    case Some((_, WithValue(v))) =>
      if v == "" then Found("")
      else match decode(Text.PlusToSpace(v))
        case None => UriError
        case Some(d) => Found(d)
  }

  /** Null exactly when no `?name` or `&name` is followed by `=`, `&`, `#`
      or the end of the URL. */
  lemma NotFoundIff(name: string, url: Option<string>, href: string, decode: string -> Option<string>)
    ensures var u := UrlOrHref(url, href);
      GetParameterByName(name, url, href, decode).NotFound? <==>
      forall p :: 0 <= p < |u| && NameAt(u, name, p) ==>
        var q := p + 1 + |name|;
        q < |u| && u[q] != '=' && u[q] != '&' && u[q] != '#'
  {
    var u := UrlOrHref(url, href);
    var r := Search(u, name, 0);
    if r.Some? {
      var p := r.value.0;
      assert NameAt(u, name, p);
    } else {
      forall p | 0 <= p < |u| && NameAt(u, name, p)
        ensures var q := p + 1 + |name|; q < |u| && u[q] != '=' && u[q] != '&' && u[q] != '#'
      {
        assert MatchAt(u, name, p).None?;
      }
    }
  }

  /** A name present without a value reads as the empty string: at the
      leftmost `?name` or `&name`, either nothing follows but `&`, `#` or
      the end, or `=` is followed by `&`, `#` or the end. */
  lemma EmptyWithoutValue(name: string, url: Option<string>, href: string, decode: string -> Option<string>, p: nat)
    requires var u := UrlOrHref(url, href);
      var q := p + 1 + |name|;
      && NameAt(u, name, p)
      && (q == |u| || u[q] == '&' || u[q] == '#'
          || (u[q] == '=' && (q + 1 == |u| || u[q + 1] == '&' || u[q + 1] == '#')))
    requires forall q :: 0 <= q < p ==> MatchAt(UrlOrHref(url, href), name, q).None?
    ensures GetParameterByName(name, url, href, decode) == Found("")
  {
    var u := UrlOrHref(url, href);
    var q := p + 1 + |name|;
    if q < |u| && u[q] == '=' && q + 1 < |u| {
      assert u[q + 1..][0] == u[q + 1];
    }
    assert MatchAt(u, name, p).Some?;
    var r := Search(u, name, 0);
    assert r.Some? && r.value.0 == p;
  }

  /** Otherwise the leftmost occurrence decides: its value runs up to the
      next `&` or `#` (or the end), and is decoded after every `+` has
      become a space. */
  lemma LeftmostValue(name: string, url: Option<string>, href: string, decode: string -> Option<string>, p: nat)
    requires var u := UrlOrHref(url, href);
      p < |u| && NameAt(u, name, p) && p + 1 + |name| < |u| && u[p + 1 + |name|] == '='
    requires forall q :: 0 <= q < p ==> MatchAt(UrlOrHref(url, href), name, q).None?
    ensures var u := UrlOrHref(url, href);
      var v := ValueSpan(u[p + 2 + |name|..]);
      && u[p + 2 + |name|..][..|v|] == v
      && '&' !in v && '#' !in v
      && (p + 2 + |name| + |v| == |u| || u[p + 2 + |name| + |v|] in {'&', '#'})
      && GetParameterByName(name, url, href, decode) ==
         if v == "" then Found("")
         else if decode(Text.PlusToSpace(v)).None? then UriError
         else Found(decode(Text.PlusToSpace(v)).value)
  {
    var u := UrlOrHref(url, href);
    var r := Search(u, name, 0);
    assert MatchAt(u, name, p).Some?;
    assert r.Some? && r.value.0 == p;
    var v := ValueSpan(u[p + 2 + |name|..]);
    assert u[p + 2 + |name|..][..|v|] == v;
    if p + 2 + |name| + |v| != |u| {
      assert u[p + 2 + |name| + |v|] == u[p + 2 + |name|..][|v|];
    }
  }

  /** Example of `NotFoundIff`: the name must be followed by `=`, `&`, `#`
      or the end, so `?idx=1` has no parameter `id`. */
  lemma LongerNameDoesNotMatch(decode: string -> Option<string>)
    ensures GetParameterByName("id", Some("?idx=1"), "", decode) == NotFound
  {
    var u := "?idx=1";
    forall p | 0 <= p <= |u| ensures MatchAt(u, "id", p).None? {
      if p == 0 {
        assert u[3] == 'x';
      }
    }
  }

  /** Example of `LeftmostValue`: a later occurrence does not override the
      leftmost, so with `?id=1&id=2` the value read is "1". */
  lemma FirstOccurrenceWins(decode: string -> Option<string>)
    requires decode("1") == Some("1")
    ensures GetParameterByName("id", Some("?id=1&id=2"), "", decode) == Found("1")
  {
    var u := "?id=1&id=2";
    assert u[1..3] == "id";
    assert ValueSpan(u[4..]) == "1" by {
      assert u[4..] == "1&id=2";
      assert ValueSpan(u[5..]) == [];
    }
    assert Text.PlusToSpace("1") == "1";
  }

  /** Every `+` of the value reaches the decoder as a space. */
  lemma PlusBecomesSpace(name: string, url: string, decode: string -> Option<string>)
    requires '&' !in url && '#' !in url && url != ""
    ensures var r := GetParameterByName(name, Some("?" + name + "=" + url), "", decode);
      decode(Text.PlusToSpace(url)).Some? ==> r == Found(decode(Text.PlusToSpace(url)).value)
    ensures '+' !in Text.PlusToSpace(url)
  {
    var u := "?" + name + "=" + url;
    assert u[1..1 + |name|] == name;
    assert u[1 + |name|] == '=';
    assert u[2 + |name|..] == url;
    LeftmostValue(name, Some(u), "", decode, 0);
    ValueSpanWhole(url);
  }

  /** A value without `&` or `#` is taken whole. */
  lemma {:induction false} ValueSpanWhole(s: string)
    requires '&' !in s && '#' !in s
    ensures ValueSpan(s) == s
  {
    if s != [] {
      ValueSpanWhole(s[1..]);
      assert s == [s[0]] + s[1..];
    }
  }
}
