/**
 * The two extractors' `_real_extract`: PictaIE matches the URL, downloads the
 * API's JSON for the matched identifier, normalises it, gathers the MPEG-DASH
 * formats named by `manifest_url`, fails when there are none, sorts them and
 * attaches them to the record. PictaEmbedIE derives nothing and hands the same
 * URL to PictaIE.
 *
 * What the host framework does (the download, the MPD parser, the format sort
 * and the date parser) comes in as function values in `Collaborators`.
 */
module PictaExtract {
  import opened Wrappers
  import opened PyJson
  import opened PictaUrl
  import opened PictaMetadata

  /** One format dict produced by the MPD parser; its contents are the parser's business. */
  datatype Format = Format(attributes: map<string, Json>)

  /** The host's services the extractor calls. */
  datatype Collaborators = Collaborators(
    downloadJson: string -> Result<Json, string>,               // _download_json(url, video_id, ...)
    extractMpdFormats: (Json, string) -> Result<seq<Format>, string>, // _extract_mpd_formats(manifest_url, video_id)
    sortFormats: seq<Format> -> seq<Format>,                    // _sort_formats(formats), in place
    unifiedTimestamp: Json -> Option<int>)                      // int_or_none(unified_timestamp(...))

  /** Why an extraction stops. */
  datatype ExtractError =
    | NoMatch                   // _match_id on a URL the pattern rejects
    | Raised(exc: PyError)      // the title lookup raised
    | Extractor(message: string) // ExtractorError, own or from a collaborator

  /** What an extractor returns: a resolved video, or a redirect to another extractor. */
  datatype InfoResult =
    | Video(info: VideoInfo, formats: seq<Format>)
    | UrlResult(url: string, ieKey: string)

  const ApiBaseUrl := "https://api.picta.cu/api/v2/"
  const NoFormatsMessage := "Cannot find video formats"
  /** `PictaIE.ie_key()`: the class name without its `IE` suffix. */
  const PictaIeKey := "Picta"

  /** The request URL for the publication with the given slug or number. */
  function JsonUrl(videoId: string): string
  {
    ApiBaseUrl + ("publicacion/?format=json&slug_url_raw=" + videoId)
  }

  /** The formats behind `manifest_url`: none when it is falsy, the MPD parser's
      list (or its error) otherwise. */
  function GatherFormats(manifestUrl: Json, videoId: string, env: Collaborators): Result<seq<Format>, string>
  {
    if Truthy(manifestUrl) then env.extractMpdFormats(manifestUrl, videoId) else Success([])
  }

  /** `PictaIE._real_extract(url)` as a value. */
  function PictaExtract(url: string, env: Collaborators): Result<InfoResult, ExtractError>
  {
    match MatchCanonical(url)
    case None => Failure(NoMatch)
    case Some(videoId) =>
      match env.downloadJson(JsonUrl(videoId))
      case Failure(msg) => Failure(Extractor(msg))
      case Success(video) =>
        match ExtractVideo(video, Some(videoId), true, env.unifiedTimestamp)
        case Failure(e) => Failure(Raised(e))
        case Success(info) =>
          AttachFormats(info, videoId, env)
  }

  /** The part of `_real_extract` after the record is built. */
  function AttachFormats(info: VideoInfo, videoId: string, env: Collaborators): Result<InfoResult, ExtractError>
  {
    match GatherFormats(info.manifestUrl, videoId, env)
    case Failure(msg) => Failure(Extractor(msg))
    case Success(formats) =>
      if formats == [] then Failure(Extractor(NoFormatsMessage))
      else Success(Video(info, env.sortFormats(formats)))
  }

  /** `PictaIE._real_extract(url)`, step by step: the format list starts empty,
      is extended with the MPD formats when there is a manifest URL, is sorted in
      place and is stored in the info dict under "formats". */
  method RealExtract(url: string, env: Collaborators) returns (r: Result<InfoResult, ExtractError>)
    ensures r == PictaExtract(url, env)
  {
    var m := MatchCanonical(url);
    if m.None? {
      return Failure(NoMatch);
    }
    var videoId := m.value;
    var jsonUrl := JsonUrl(videoId);
    var video := env.downloadJson(jsonUrl);
    if video.Failure? {
      return Failure(Extractor(video.error));
    }
    var info := ExtractVideo(video.value, Some(videoId), true, env.unifiedTimestamp);
    if info.Failure? {
      return Failure(Raised(info.error));
    }
    assert PictaExtract(url, env) == AttachFormats(info.value, videoId, env);

    var formats: seq<Format> := [];
    if Truthy(info.value.manifestUrl) {
      var mpd := env.extractMpdFormats(info.value.manifestUrl, videoId);
      if mpd.Failure? {
        return Failure(Extractor(mpd.error));
      }
      formats := formats + mpd.value;
      assert formats == mpd.value;
    }
    assert GatherFormats(info.value.manifestUrl, videoId, env) == Success(formats);
    if formats == [] {
      return Failure(Extractor(NoFormatsMessage));
    }
    formats := env.sortFormats(formats);
    r := Success(Video(info.value, formats));
  }

  /** `PictaEmbedIE._real_extract(url)`: `url_result(url, PictaIE.ie_key())`. */
  function EmbedExtract(url: string): InfoResult
  {
    UrlResult(url, PictaIeKey)
  }

  // ---------------------------------------------------------------------------
  // Lemmas

  /** The sort the host performs only reorders the list. */
  ghost predicate SortPermutes(sortFormats: seq<Format> -> seq<Format>)
  {
    forall fs :: multiset(sortFormats(fs)) == multiset(fs)
  }

  /** The request URL is one fixed text, the API base followed by the
      publication query, then the identifier, which can be read back from it. */
  lemma JsonUrlSpec(videoId: string)
    ensures JsonUrl(videoId) == JsonUrl("") + videoId
    ensures JsonUrl("")[..|ApiBaseUrl|] == ApiBaseUrl
    ensures JsonUrl(videoId)[|JsonUrl("")|..] == videoId
  {
    assert JsonUrl("") == ApiBaseUrl + "publicacion/?format=json&slug_url_raw=";
  }

  lemma JsonUrlInjective(a: string, b: string)
    requires JsonUrl(a) == JsonUrl(b)
    ensures a == b
  {
    var n := |ApiBaseUrl + "publicacion/?format=json&slug_url_raw="|;
    assert a == JsonUrl(a)[n..];
    assert b == JsonUrl(b)[n..];
  }

  /** For an identifier PictaIE's pattern extracts, the query value holds only
      `[0-9a-z-]`, so it cannot end the parameter or start another one. */
  lemma MatchedIdQuerySafe(url: string)
    requires MatchCanonical(url).Some?
    ensures var id := MatchCanonical(url).value;
            var q := JsonUrl(id)[|JsonUrl("")|..];
            q == id && forall i :: 0 <= i < |q| ==> q[i] != '&' && q[i] != '#' && q[i] != '=' && q[i] != '?'
  {
    var id := MatchCanonical(url).value;
    assert JsonUrl(id)[|JsonUrl("")|..] == id;
  }

  /** A record is returned only with formats: success means the URL matched,
      the document downloaded and normalised, the manifest URL was truthy and
      the MPD parser found formats; the record is the normalised one unchanged,
      and the attached list is the sorted MPD list, never empty. */
  lemma ExtractSuccess(url: string, env: Collaborators)
    requires SortPermutes(env.sortFormats)
    requires PictaExtract(url, env).Success?
    ensures MatchCanonical(url).Some?
    ensures var videoId := MatchCanonical(url).value;
            var video := env.downloadJson(JsonUrl(videoId));
            && video.Success?
            && ExtractVideo(video.value, Some(videoId), true, env.unifiedTimestamp).Success?
            && var info := ExtractVideo(video.value, Some(videoId), true, env.unifiedTimestamp).value;
               var mpd := env.extractMpdFormats(info.manifestUrl, videoId);
               && Truthy(info.manifestUrl)
               && mpd.Success? && mpd.value != []
               && PictaExtract(url, env).value == Video(info, env.sortFormats(mpd.value))
               && multiset(PictaExtract(url, env).value.formats) == multiset(mpd.value)
               && PictaExtract(url, env).value.formats != []
  {
    var videoId := MatchCanonical(url).value;
    var video := env.downloadJson(JsonUrl(videoId));
    var info := ExtractVideo(video.value, Some(videoId), true, env.unifiedTimestamp).value;
    var mpd := env.extractMpdFormats(info.manifestUrl, videoId);
    var sorted := env.sortFormats(mpd.value);
    assert multiset(sorted) == multiset(mpd.value);
  }

  /** No formats, no record: when everything before the formats succeeds but
      the manifest URL is falsy, or the MPD parser returns an empty list, the
      extraction fails with "Cannot find video formats". */
  lemma ExtractNoFormats(url: string, env: Collaborators)
    requires MatchCanonical(url).Some?
    requires var videoId := MatchCanonical(url).value;
             var video := env.downloadJson(JsonUrl(videoId));
             && video.Success?
             && ExtractVideo(video.value, Some(videoId), true, env.unifiedTimestamp).Success?
             && var info := ExtractVideo(video.value, Some(videoId), true, env.unifiedTimestamp).value;
                !Truthy(info.manifestUrl) || env.extractMpdFormats(info.manifestUrl, videoId) == Success([])
    ensures PictaExtract(url, env) == Failure(Extractor(NoFormatsMessage))
  {
  }

  /** The converse of `ExtractSuccess`: when the URL matches, the document
      downloads and normalises, the manifest URL is truthy and the MPD parser
      returns a non-empty list, the record comes back with that list sorted. */
  lemma ExtractHappyPath(url: string, env: Collaborators)
    requires MatchCanonical(url).Some?
    requires var videoId := MatchCanonical(url).value;
             var video := env.downloadJson(JsonUrl(videoId));
             && video.Success?
             && ExtractVideo(video.value, Some(videoId), true, env.unifiedTimestamp).Success?
             && var info := ExtractVideo(video.value, Some(videoId), true, env.unifiedTimestamp).value;
                var mpd := env.extractMpdFormats(info.manifestUrl, videoId);
                Truthy(info.manifestUrl) && mpd.Success? && mpd.value != []
    ensures var videoId := MatchCanonical(url).value;
            var info := ExtractVideo(env.downloadJson(JsonUrl(videoId)).value, Some(videoId), true, env.unifiedTimestamp).value;
            PictaExtract(url, env) ==
              Success(Video(info, env.sortFormats(env.extractMpdFormats(info.manifestUrl, videoId).value)))
  {
  }

  /** An error of the MPD parser is passed on unchanged, not swallowed. */
  lemma ExtractMpdError(url: string, env: Collaborators)
    requires MatchCanonical(url).Some?
    requires var videoId := MatchCanonical(url).value;
             var video := env.downloadJson(JsonUrl(videoId));
             && video.Success?
             && ExtractVideo(video.value, Some(videoId), true, env.unifiedTimestamp).Success?
             && var info := ExtractVideo(video.value, Some(videoId), true, env.unifiedTimestamp).value;
                Truthy(info.manifestUrl) && env.extractMpdFormats(info.manifestUrl, videoId).Failure?
    ensures var videoId := MatchCanonical(url).value;
            var info := ExtractVideo(env.downloadJson(JsonUrl(videoId)).value, Some(videoId), true, env.unifiedTimestamp).value;
            PictaExtract(url, env) == Failure(Extractor(env.extractMpdFormats(info.manifestUrl, videoId).error))
  {
  }

  /** Failures before the formats: a URL the pattern rejects, a failed
      download, and a document without a first result or without its `nombre`. */
  lemma ExtractEarlyFailures(url: string, env: Collaborators)
    ensures MatchCanonical(url).None? ==> PictaExtract(url, env) == Failure(NoMatch)
    ensures MatchCanonical(url).Some? ==>
              var videoId := MatchCanonical(url).value;
              var video := env.downloadJson(JsonUrl(videoId));
              && (video.Failure? ==> PictaExtract(url, env) == Failure(Extractor(video.error)))
              && ((video.Success? && (FirstResult(video.value).None? || "nombre" !in FirstResult(video.value).value))
                  ==> PictaExtract(url, env).Failure? && PictaExtract(url, env).error.Raised?)
  {
    if MatchCanonical(url).Some? {
      var videoId := MatchCanonical(url).value;
      var video := env.downloadJson(JsonUrl(videoId));
      if video.Success? {
        ExtractVideoSucceeds(video.value, Some(videoId), true, env.unifiedTimestamp);
      }
    }
  }

  /** The returned id is never empty: the document's own non-empty string id
      when it has one (a slug for a numeric embed URL, say), the identifier
      taken from the URL otherwise. */
  lemma ExtractId(url: string, env: Collaborators)
    requires PictaExtract(url, env).Success?
    ensures var info := PictaExtract(url, env).value.info;
            var video := env.downloadJson(JsonUrl(MatchCanonical(url).value)).value;
            var docId := Member(video, "id");
            && info.id.Some? && info.id.value != []
            && info.id.value == if docId.Some? && docId.value.JStr? && docId.value.s != []
                                then docId.value.s else MatchCanonical(url).value
  {
    var videoId := MatchCanonical(url).value;
    var video := env.downloadJson(JsonUrl(videoId)).value;
    ExtractVideoId(video, Some(videoId), true, env.unifiedTimestamp);
  }

  /** The embed extractor returns a redirect carrying the URL unchanged and
      PictaIE's key. Every URL it accepts is one PictaIE accepts as well, with
      the embed digits at the start of PictaIE's identifier, so following the
      redirect is exactly PictaIE's extraction of the same URL and never stops
      at NoMatch. */
  lemma EmbedRedirect(url: string, env: Collaborators)
    requires MatchEmbed(url).Some?
    ensures EmbedExtract(url) == UrlResult(url, PictaIeKey)
    ensures MatchCanonical(EmbedExtract(url).url).Some?
    ensures MatchEmbed(url).value <= MatchCanonical(EmbedExtract(url).url).value
    ensures PictaExtract(EmbedExtract(url).url, env) != Failure(NoMatch)
  {
    EmbedMatchesCanonical(url);
  }
}
