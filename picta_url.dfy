/**
 * The two URL patterns of the Picta extractors, matched the way Python's
 * `re.match` does: anchored at the start, not at the end, so whatever follows
 * the longest identifier run is ignored. The patterns carry no flags, so the
 * comparison is case-sensitive everywhere.
 *
 *   PictaIE:       https?://(?:www\.)?picta\.cu/(?:medias|embed)/(?:\?v=)?(?P<id>[\da-z-]+)
 *   PictaEmbedIE:  https?://www\.picta\.cu/embed/(?:\?v=)?(?P<id>[0-9]+)
 *
 * Each optional group can be decided by looking ahead, because when it is
 * skipped the next literal (or character class) cannot match its first
 * character; the scanners below make that choice directly.
 */
module PictaUrl {
  import opened Wrappers
  import opened Chars

  /** `[\da-z-]`, the identifier class of PictaIE. */
  predicate IsIdChar(c: char)
  {
    '0' <= c <= '9' || 'a' <= c <= 'z' || c == '-'
  }

  predicate StartsWith(s: string, prefix: string)
  {
    |prefix| <= |s| && s[..|prefix|] == prefix
  }

  lemma StartsWithConcat(p: string, s: string)
    ensures StartsWith(p + s, p) && (p + s)[|p|..] == s
  {
    assert (p + s)[..|p|] == p;
  }

  lemma NotStartsWithAt(s: string, p: string, i: nat)
    requires i < |p| && i < |s| && s[i] != p[i]
    ensures !StartsWith(s, p)
  {
  }

  /** The greedy `[class]+` run at the start of `s` (possibly empty). */
  function LongestRun(s: string, inClass: char -> bool): (r: string)
    ensures |r| <= |s| && r == s[..|r|]
    ensures forall i :: 0 <= i < |r| ==> inClass(r[i])
    ensures |r| == |s| || !inClass(s[|r|])
  {
    if s == [] || !inClass(s[0]) then []
    else [s[0]] + LongestRun(s[1..], inClass)
  }

  /** What is left after `https?://`, if the URL starts that way. */
  function AfterScheme(url: string): Option<string>
  {
    if StartsWith(url, "https://") then Some(url[8..])
    else if StartsWith(url, "http://") then Some(url[7..])
    else None
  }

  /** `(?:\?v=)?` followed by a non-empty greedy run of the class. */
  function MatchId(s: string, inClass: char -> bool): (r: Option<string>)
  {
    var rest := if StartsWith(s, "?v=") then s[3..] else s;
    var id := LongestRun(rest, inClass);
    if id == [] then None else Some(id)
  }

  /** `PictaIE._VALID_URL` matched against a URL; the `id` group on success. */
  function MatchCanonical(url: string): (r: Option<string>)
    ensures r.Some? ==> r.value != [] && forall i :: 0 <= i < |r.value| ==> IsIdChar(r.value[i])
  {
    match AfterScheme(url)
    case None => None
    case Some(s) => MatchCanonicalHost(s)
  }

  /** `(?:www\.)?picta\.cu/` and the rest of PictaIE's pattern. */
  function MatchCanonicalHost(s: string): (r: Option<string>)
  {
    var host := if StartsWith(s, "www.") then s[4..] else s;
    if StartsWith(host, "picta.cu/") then MatchSection(host[9..]) else None
  }

  /** `(?:medias|embed)/` and the identifier. */
  function MatchSection(path: string): (r: Option<string>)
  {
    if StartsWith(path, "medias/") then MatchId(path[7..], IsIdChar)
    else if StartsWith(path, "embed/") then MatchId(path[6..], IsIdChar)
    else None
  }

  /** `PictaEmbedIE._VALID_URL` matched against a URL; the `id` group on success. */
  function MatchEmbed(url: string): (r: Option<string>)
    ensures r.Some? ==> r.value != [] && forall i :: 0 <= i < |r.value| ==> IsDigit(r.value[i])
  {
    match AfterScheme(url)
    case None => None
    case Some(s) =>
      if StartsWith(s, "www.picta.cu/embed/") then MatchId(s[19..], IsDigit) else None
  }

  // ---------------------------------------------------------------------------
  // Reference description of the accepted URLs, written as the pattern reads.

  function Scheme(https: bool): string
  {
    if https then "https://" else "http://"
  }

  function Opt(present: bool, text: string): string
  {
    if present then text else ""
  }

  /** A URL in the shape of PictaIE's pattern, with the chosen optional parts,
      the identifier and whatever trails it. */
  function CanonicalUrl(https: bool, www: bool, medias: bool, query: bool, id: string, tail: string): string
  {
    Scheme(https) + (Opt(www, "www.") + ("picta.cu/"
      + ((if medias then "medias/" else "embed/") + (Opt(query, "?v=") + (id + tail)))))
  }

  /** A URL in the shape of PictaEmbedIE's pattern. */
  function EmbedUrl(https: bool, query: bool, id: string, tail: string): string
  {
    Scheme(https) + ("www.picta.cu/embed/" + (Opt(query, "?v=") + (id + tail)))
  }

  /** `id` is a maximal non-empty run of the class, and `tail` does not extend it. */
  predicate IsMaximalRun(id: string, tail: string, inClass: char -> bool)
  {
    && id != []
    && (forall i :: 0 <= i < |id| ==> inClass(id[i]))
    && (tail == [] || !inClass(tail[0]))
  }

  ghost predicate CanonicalShape(url: string, id: string)
  {
    exists https: bool, www: bool, medias: bool, query: bool, tail: string ::
      url == CanonicalUrl(https, www, medias, query, id, tail) && IsMaximalRun(id, tail, IsIdChar)
  }

  ghost predicate EmbedShape(url: string, id: string)
  {
    exists https: bool, query: bool, tail: string ::
      url == EmbedUrl(https, query, id, tail) && IsMaximalRun(id, tail, IsDigit)
  }

  // ---------------------------------------------------------------------------
  // Lemmas

  lemma {:induction false} LongestRunOfMaximal(id: string, tail: string, inClass: char -> bool)
    requires IsMaximalRun(id, tail, inClass)
    ensures LongestRun(id + tail, inClass) == id
    decreases |id|
  {
    var s := id + tail;
    assert s[0] == id[0];
    if |id| > 1 {
      assert s[1..] == id[1..] + tail;
      LongestRunOfMaximal(id[1..], tail, inClass);
    } else {
      assert s[1..] == tail;
    }
  }

  lemma AfterSchemeOf(https: bool, s: string)
    ensures AfterScheme(Scheme(https) + s) == Some(s)
  {
    StartsWithConcat(Scheme(https), s);
    if !https {
      NotStartsWithAt("http://" + s, "https://", 4);
    }
  }

  lemma MatchIdOf(query: bool, id: string, tail: string, inClass: char -> bool)
    requires IsMaximalRun(id, tail, inClass)
    requires !inClass('?')
    ensures MatchId(Opt(query, "?v=") + (id + tail), inClass) == Some(id)
  {
    if query {
      StartsWithConcat("?v=", id + tail);
    } else {
      assert Opt(query, "?v=") + (id + tail) == id + tail;
      assert (id + tail)[0] == id[0];
      NotStartsWithAt(id + tail, "?v=", 0);
    }
    LongestRunOfMaximal(id, tail, inClass);
  }

  /** Takes a successful identifier match apart: the optional `?v=`, the run, the rest. */
  lemma MatchIdParts(s: string, inClass: char -> bool, id: string) returns (query: bool, tail: string)
    requires MatchId(s, inClass) == Some(id)
    ensures s == Opt(query, "?v=") + (id + tail) && IsMaximalRun(id, tail, inClass)
  {
    query := StartsWith(s, "?v=");
    var rest := if query then s[3..] else s;
    tail := rest[|id|..];
    assert rest == id + tail;
    if query {
      assert s == "?v=" + s[3..];
    }
  }

  lemma MatchSectionOf(medias: bool, q: string)
    ensures MatchSection((if medias then "medias/" else "embed/") + q)
         == MatchId(q, IsIdChar)
  {
    if medias {
      StartsWithConcat("medias/", q);
    } else {
      NotStartsWithAt("embed/" + q, "medias/", 0);
      StartsWithConcat("embed/", q);
    }
  }

  lemma MatchCanonicalHostOf(www: bool, path: string)
    ensures MatchCanonicalHost(Opt(www, "www.") + ("picta.cu/" + path)) == MatchSection(path)
  {
    var host := "picta.cu/" + path;
    if www {
      StartsWithConcat("www.", host);
    } else {
      assert Opt(www, "www.") + host == host;
      NotStartsWithAt(host, "www.", 0);
    }
    StartsWithConcat("picta.cu/", path);
  }

  /** Every URL in PictaIE's shape matches, with exactly the identifier run. */
  lemma MatchCanonicalComplete(https: bool, www: bool, medias: bool, query: bool, id: string, tail: string)
    requires IsMaximalRun(id, tail, IsIdChar)
    ensures MatchCanonical(CanonicalUrl(https, www, medias, query, id, tail)) == Some(id)
  {
    var q := Opt(query, "?v=") + (id + tail);
    var path := (if medias then "medias/" else "embed/") + q;
    AfterSchemeOf(https, Opt(www, "www.") + ("picta.cu/" + path));
    MatchCanonicalHostOf(www, path);
    MatchSectionOf(medias, q);
    MatchIdOf(query, id, tail, IsIdChar);
  }

  lemma MatchSectionParts(path: string, id: string) returns (medias: bool, query: bool, tail: string)
    requires MatchSection(path) == Some(id)
    ensures path == (if medias then "medias/" else "embed/") + (Opt(query, "?v=") + (id + tail))
    ensures IsMaximalRun(id, tail, IsIdChar)
  {
    medias := StartsWith(path, "medias/");
    var q := if medias then path[7..] else path[6..];
    assert path == (if medias then "medias/" else "embed/") + q;
    query, tail := MatchIdParts(q, IsIdChar, id);
  }

  lemma MatchCanonicalHostParts(s: string, id: string) returns (www: bool, path: string)
    requires MatchCanonicalHost(s) == Some(id)
    ensures s == Opt(www, "www.") + ("picta.cu/" + path) && MatchSection(path) == Some(id)
  {
    www := StartsWith(s, "www.");
    var host := if www then s[4..] else s;
    assert s == Opt(www, "www.") + host;
    path := host[9..];
    assert host == "picta.cu/" + path;
  }

  /** Takes a successful PictaIE match apart into the pattern's pieces. */
  lemma MatchCanonicalParts(url: string, id: string)
    returns (https: bool, www: bool, medias: bool, query: bool, tail: string)
    requires MatchCanonical(url) == Some(id)
    ensures url == CanonicalUrl(https, www, medias, query, id, tail)
    ensures IsMaximalRun(id, tail, IsIdChar)
  {
    https := StartsWith(url, "https://");
    var s := AfterScheme(url).value;
    assert url == Scheme(https) + s;
    var path;
    www, path := MatchCanonicalHostParts(s, id);
    medias, query, tail := MatchSectionParts(path, id);
  }

  /** PictaIE's pattern matches with identifier `id` exactly when the URL is
      `http(s)://[www.]picta.cu/(medias|embed)/[?v=]` + `id` + a tail that does
      not continue the run: both directions. */
  lemma MatchCanonicalSpec(url: string, id: string)
    ensures MatchCanonical(url) == Some(id) <==> CanonicalShape(url, id)
  {
    if MatchCanonical(url) == Some(id) {
      var https, www, medias, query, tail := MatchCanonicalParts(url, id);
    }
    if CanonicalShape(url, id) {
      var https: bool, www: bool, medias: bool, query: bool, tail: string :|
        url == CanonicalUrl(https, www, medias, query, id, tail) && IsMaximalRun(id, tail, IsIdChar);
      MatchCanonicalComplete(https, www, medias, query, id, tail);
    }
  }

  lemma MatchEmbedComplete(https: bool, query: bool, id: string, tail: string)
    requires IsMaximalRun(id, tail, IsDigit)
    ensures MatchEmbed(EmbedUrl(https, query, id, tail)) == Some(id)
  {
    var q := Opt(query, "?v=") + (id + tail);
    AfterSchemeOf(https, "www.picta.cu/embed/" + q);
    StartsWithConcat("www.picta.cu/embed/", q);
    MatchIdOf(query, id, tail, IsDigit);
  }

  /** Takes a successful PictaEmbedIE match apart into the pattern's pieces. */
  lemma MatchEmbedParts(url: string, id: string) returns (https: bool, query: bool, tail: string)
    requires MatchEmbed(url) == Some(id)
    ensures url == EmbedUrl(https, query, id, tail) && IsMaximalRun(id, tail, IsDigit)
  {
    https := StartsWith(url, "https://");
    var s := AfterScheme(url).value;
    assert url == Scheme(https) + s;
    var q := s[19..];
    assert s == "www.picta.cu/embed/" + q;
    query, tail := MatchIdParts(q, IsDigit, id);
  }

  /** PictaEmbedIE's pattern matches with identifier `id` exactly when the URL is
      `http(s)://www.picta.cu/embed/[?v=]` + the digits `id` + a tail that does
      not start with a digit. */
  lemma MatchEmbedSpec(url: string, id: string)
    ensures MatchEmbed(url) == Some(id) <==> EmbedShape(url, id)
  {
    if MatchEmbed(url) == Some(id) {
      var https, query, tail := MatchEmbedParts(url, id);
    }
    if EmbedShape(url, id) {
      var https: bool, query: bool, tail: string :|
        url == EmbedUrl(https, query, id, tail) && IsMaximalRun(id, tail, IsDigit);
      MatchEmbedComplete(https, query, id, tail);
    }
  }

  /** An embed-shaped URL is a PictaIE-shaped URL with `www.` and `embed/`. */
  lemma EmbedUrlIsCanonical(https: bool, query: bool, id: string, tail: string)
    ensures EmbedUrl(https, query, id, tail) == CanonicalUrl(https, true, false, query, id, tail)
  {
    var q := Opt(query, "?v=") + (id + tail);
    assert "www." + ("picta.cu/" + ("embed/" + q)) == "www.picta.cu/embed/" + q;
  }

  /** Extending a maximal digit run by the identifier characters that follow it
      gives a maximal identifier run. */
  lemma ExtendDigitRun(e: string, tail: string) returns (c: string, tail': string)
    requires IsMaximalRun(e, tail, IsDigit)
    ensures e <= c && e + tail == c + tail' && IsMaximalRun(c, tail', IsIdChar)
  {
    var more := LongestRun(tail, IsIdChar);
    tail' := tail[|more|..];
    c := e + more;
    assert tail == more + tail';
    forall i | 0 <= i < |c| ensures IsIdChar(c[i]) {
      if i < |e| { assert c[i] == e[i]; } else { assert c[i] == more[i - |e|]; }
    }
    assert e + tail == c + tail';
  }

  /** Every URL the embed pattern accepts is accepted by PictaIE's pattern too,
      and the embed identifier is a prefix of PictaIE's identifier: the digits
      at the start of the same run. */
  lemma EmbedMatchesCanonical(url: string)
    requires MatchEmbed(url).Some?
    ensures MatchCanonical(url).Some?
    ensures MatchEmbed(url).value <= MatchCanonical(url).value
  {
    var e := MatchEmbed(url).value;
    var https, query, tail := MatchEmbedParts(url, e);
    var c, tail' := ExtendDigitRun(e, tail);
    assert url == EmbedUrl(https, query, c, tail');
    EmbedUrlIsCanonical(https, query, c, tail');
    MatchCanonicalComplete(https, true, false, query, c, tail');
  }

  /** The text PictaIE's pattern reads before the identifier. */
  function CanonicalLead(https: bool, www: bool, medias: bool, query: bool): string
  {
    Scheme(https) + Opt(www, "www.") + "picta.cu/" + (if medias then "medias/" else "embed/") + Opt(query, "?v=")
  }

  lemma CanonicalUrlSplit(https: bool, www: bool, medias: bool, query: bool, id: string, tail: string)
    ensures CanonicalUrl(https, www, medias, query, id, tail) == CanonicalLead(https, www, medias, query) + id + tail
  {
    var a, b, c := Scheme(https), Opt(www, "www."), "picta.cu/";
    var d, e := (if medias then "medias/" else "embed/"), Opt(query, "?v=");
    var r := id + tail;
    // Regroup the right-nested URL one piece at a time.
    assert d + (e + r) == (d + e) + r;
    assert c + ((d + e) + r) == (c + (d + e)) + r;
    assert b + ((c + (d + e)) + r) == (b + (c + (d + e))) + r;
    assert a + ((b + (c + (d + e))) + r) == (a + (b + (c + (d + e)))) + r;
    assert a + (b + (c + (d + e))) == a + b + c + d + e;
    assert (a + b + c + d + e) + r == (a + b + c + d + e) + id + tail;
  }

  /** Nothing after the identifier affects PictaIE's match: the URL cut right
      after the identifier, followed by any text that does not continue the
      run, matches with the same identifier. */
  lemma CanonicalIgnoresTail(url: string, id: string) returns (end: nat)
    requires MatchCanonical(url) == Some(id)
    ensures |id| <= end <= |url| && url[end - |id|..end] == id
    ensures forall extra :: extra == [] || !IsIdChar(extra[0]) ==>
              MatchCanonical(url[..end] + extra) == Some(id)
  {
    var https, www, medias, query, tail := MatchCanonicalParts(url, id);
    var lead := CanonicalLead(https, www, medias, query);
    CanonicalUrlSplit(https, www, medias, query, id, tail);
    end := |lead| + |id|;
    assert url[..end] == lead + id;
    assert url[end - |id|..end] == id;
    forall extra | extra == [] || !IsIdChar(extra[0])
      ensures MatchCanonical(url[..end] + extra) == Some(id)
    {
      CanonicalUrlSplit(https, www, medias, query, id, extra);
      MatchCanonicalComplete(https, www, medias, query, id, extra);
    }
  }

  // ---------------------------------------------------------------------------
  // The URLs of the extractors' test cases

  const OrishasSlug := "orishas-everyday-2019-01-16-16-36-42-443003"
  const PalmicheSlug := "palmiche-galeno-tercer-lugar-" + "torneo-virtual-robotica-" + "2020-05-21-16-15-31-431895"

  lemma IdRunConcat(a: string, b: string)
    requires IsMaximalRun(a, [], IsIdChar) && IsMaximalRun(b, [], IsIdChar)
    ensures IsMaximalRun(a + b, [], IsIdChar)
  {
    forall i | 0 <= i < |a + b| ensures IsIdChar((a + b)[i]) {
      if i >= |a| { assert (a + b)[i] == b[i - |a|]; }
    }
  }

  /** A media page URL yields its whole slug. */
  lemma MediasSlugExample()
    ensures MatchCanonical("https://www.picta.cu/medias/" + OrishasSlug) == Some(OrishasSlug)
  {
    assert IsMaximalRun(OrishasSlug, [], IsIdChar);
    assert "https://www.picta.cu/medias/" + OrishasSlug == CanonicalUrl(true, true, true, false, OrishasSlug, []);
    MatchCanonicalComplete(true, true, true, false, OrishasSlug, []);
  }

  /** The numeric embed URL matches both patterns with the identifier `818`. */
  lemma EmbedQueryExample()
    ensures MatchEmbed("https://www.picta.cu/embed/?v=818") == Some("818")
    ensures MatchCanonical("https://www.picta.cu/embed/?v=818") == Some("818")
  {
    assert IsMaximalRun("818", [], IsDigit);
    assert IsMaximalRun("818", [], IsIdChar);
    assert "https://www.picta.cu/embed/?v=818" == EmbedUrl(true, true, "818", []);
    MatchEmbedComplete(true, true, "818", []);
    EmbedUrlIsCanonical(true, true, "818", []);
    MatchCanonicalComplete(true, true, false, true, "818", []);
  }

  /** The embed pattern rejects an `embed/` path that starts with anything but
      a digit or `?v=` followed by a digit. */
  lemma EmbedRejectsNonDigit(https: bool, rest: string)
    requires rest != [] && !IsDigit(rest[0]) && rest[0] != '?'
    ensures MatchEmbed(Scheme(https) + ("www.picta.cu/embed/" + rest)) == None
  {
    AfterSchemeOf(https, "www.picta.cu/embed/" + rest);
    StartsWithConcat("www.picta.cu/embed/", rest);
    NotStartsWithAt(rest, "?v=", 0);
  }

  lemma EmbedPageUrl(slug: string)
    ensures "https://www.picta.cu/embed/" + slug == CanonicalUrl(true, true, false, false, slug, [])
    ensures "https://www.picta.cu/embed/" + slug == Scheme(true) + ("www.picta.cu/embed/" + slug)
  {
  }

  lemma PalmicheSlugIsRun()
    ensures IsMaximalRun(PalmicheSlug, [], IsIdChar)
  {
    var a, b, c := "palmiche-galeno-tercer-lugar-", "torneo-virtual-robotica-", "2020-05-21-16-15-31-431895";
    assert IsMaximalRun(a, [], IsIdChar);
    assert IsMaximalRun(b, [], IsIdChar);
    assert IsMaximalRun(c, [], IsIdChar);
    IdRunConcat(a, b);
    IdRunConcat(a + b, c);
  }

  /** An embed URL carrying a slug that starts with a letter matches PictaIE's
      pattern only: the embed pattern wants digits right after `embed/`. */
  lemma EmbedSlugOnlyCanonical(slug: string)
    requires IsMaximalRun(slug, [], IsIdChar) && !IsDigit(slug[0])
    ensures MatchCanonical("https://www.picta.cu/embed/" + slug) == Some(slug)
    ensures MatchEmbed("https://www.picta.cu/embed/" + slug) == None
  {
    EmbedPageUrl(slug);
    MatchCanonicalComplete(true, true, false, false, slug, []);
    EmbedRejectsNonDigit(true, slug);
  }

  /** The slug embed URL of the test cases is one of them. */
  lemma EmbedSlugExample()
    ensures MatchCanonical("https://www.picta.cu/embed/" + PalmicheSlug) == Some(PalmicheSlug)
    ensures MatchEmbed("https://www.picta.cu/embed/" + PalmicheSlug) == None
  {
    PalmicheSlugIsRun();
    EmbedSlugOnlyCanonical(PalmicheSlug);
  }
}
