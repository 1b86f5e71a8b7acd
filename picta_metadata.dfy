/**
 * `PictaBaseIE._extract_video`: the API's answer turned into the eight-key info
 * record. Every entry is read from the first element of the document's
 * `results` list. The title is read with plain subscripting (or `.get` when the
 * title is optional) and may raise; every other entry is read with `try_get`
 * and never raises.
 */
module PictaMetadata {
  import opened Wrappers
  import opened PyJson

  /** The dict `_extract_video` returns: one field per key, eight keys. The
      untyped entries keep whatever JSON value the API sent (JNull for None). */
  datatype VideoInfo = VideoInfo(
    id: Option<string>,
    title: Json,
    description: Option<string>,
    thumbnail: Json,
    uploader: Option<string>,
    timestamp: Option<int>,
    category: Option<seq<string>>,
    manifestUrl: Json)

  /** `x["results"][0][key]` */
  function FieldPath(key: string): seq<Step>
  {
    [Key("results"), Index(0), Key(key)]
  }

  /** `x["results"][0][outer][inner]` */
  function NestedPath(outer: string, inner: string): seq<Step>
  {
    [Key("results"), Index(0), Key(outer), Key(inner)]
  }

  /** The title when it is not required:
      `video.get("results")[0].get("nombre")`. */
  function OptionalTitle(video: Json): Result<Json, PyError>
  {
    match DictGet(video, "results")
    case Failure(e) => Failure(e)
    case Success(results) =>
      match Subscript(results, Index(0))
      case Failure(e) => Failure(e)
      case Success(first) => DictGet(first, "nombre")
  }

  /** `_extract_video(video, video_id, require_title)`; `unifiedTimestamp` stands
      for `int_or_none(unified_timestamp(...))`, applied to the creation date. */
  function ExtractVideo(video: Json, videoId: Option<string>, requireTitle: bool,
                        unifiedTimestamp: Json -> Option<int>): Result<VideoInfo, PyError>
  {
    var title := if requireTitle then Walk(video, FieldPath("nombre")) else OptionalTitle(video);
    match title
    case Failure(e) => Failure(e)
    case Success(t) =>
      var docId := TryGetStr(video, FieldPath("id"));
      var category := TryGetStr(video, NestedPath("canal", "nombre"));
      Success(VideoInfo(
        id := if docId.Some? && docId.value != [] then docId else videoId,
        title := t,
        description := TryGetStr(video, FieldPath("descripcion")),
        thumbnail := TryGet(video, FieldPath("url_imagen")),
        uploader := TryGetStr(video, NestedPath("usuario", "username")),
        timestamp := unifiedTimestamp(TryGet(video, FieldPath("fecha_creacion"))),
        category := if category.Some? && category.value != [] then Some([category.value]) else None,
        manifestUrl := TryGet(video, FieldPath("url_manifiesto"))))
  }

  // ---------------------------------------------------------------------------
  // Reference reading of the document, without Python's subscript rules.

  /** The first result object, when the document is an object whose `results`
      is a non-empty list starting with an object. */
  function FirstResult(video: Json): Option<map<string, Json>>
  {
    if && video.JObj?
       && "results" in video.fields
       && video.fields["results"].JArr?
       && |video.fields["results"].items| > 0
       && video.fields["results"].items[0].JObj?
    then Some(video.fields["results"].items[0].fields)
    else None
  }

  /** The member `key` of the first result, if there is one. */
  function Member(video: Json, key: string): Option<Json>
  {
    match FirstResult(video)
    case None => None
    case Some(m) => if key in m then Some(m[key]) else None
  }

  /** The member `inner` of the object that is the member `outer` of the first result. */
  function NestedMember(video: Json, outer: string, inner: string): Option<Json>
  {
    match Member(video, outer)
    case Some(JObj(m)) => if inner in m then Some(m[inner]) else None
    case _ => None
  }

  function OrNone(v: Option<Json>): Json
  {
    match v
    case Some(x) => x
    case None => JNull
  }

  // ---------------------------------------------------------------------------
  // Lemmas

  lemma FirstResultWalk(video: Json, rest: seq<Step>)
    ensures var first := Walk(video, [Key("results"), Index(0)]);
            Walk(video, [Key("results"), Index(0)] + rest) ==
              if first.Failure? then Failure(first.error) else Walk(first.value, rest)
    ensures FirstResult(video).Some? <==>
              Walk(video, [Key("results"), Index(0)]).Success? && Walk(video, [Key("results"), Index(0)]).value.JObj?
    ensures FirstResult(video).Some? ==>
              Walk(video, [Key("results"), Index(0)]) == Success(JObj(FirstResult(video).value))
  {
    WalkAppend(video, [Key("results"), Index(0)], rest);
    WalkKeyFirst(video, "results", [Index(0)]);
    if video.JObj? && "results" in video.fields {
      var results := video.fields["results"];
      assert Walk(results, [Index(0)]) == Subscript(results, Index(0));
    }
  }

  /** The `try_get` path `x["results"][0][key]` lands on a value exactly when
      the first result object has that member. */
  lemma FieldPathSpec(video: Json, key: string)
    ensures Walk(video, FieldPath(key)).Success? <==> Member(video, key).Some?
    ensures Member(video, key).Some? ==> Walk(video, FieldPath(key)).value == Member(video, key).value
  {
    assert FieldPath(key) == [Key("results"), Index(0)] + [Key(key)];
    FirstResultWalk(video, [Key(key)]);
    match Walk(video, [Key("results"), Index(0)])
    case Failure(e) =>
    case Success(w) =>
      WalkKeyFirst(w, key, []);
  }

  /** The same for `x["results"][0][outer][inner]`. */
  lemma NestedPathSpec(video: Json, outer: string, inner: string)
    ensures Walk(video, NestedPath(outer, inner)).Success? <==> NestedMember(video, outer, inner).Some?
    ensures NestedMember(video, outer, inner).Some? ==>
              Walk(video, NestedPath(outer, inner)).value == NestedMember(video, outer, inner).value
  {
    assert NestedPath(outer, inner) == [Key("results"), Index(0)] + [Key(outer), Key(inner)];
    FirstResultWalk(video, [Key(outer), Key(inner)]);
    match Walk(video, [Key("results"), Index(0)])
    case Failure(e) =>
    case Success(w) =>
      WalkKeyFirst(w, outer, [Key(inner)]);
      if w.JObj? && outer in w.fields {
        WalkKeyFirst(w.fields[outer], inner, []);
      }
  }

  /** The `.get` chain for an optional title raises exactly when the document
      has no first result object (no dict, a missing or empty `results`, a
      first result that is not a dict), and otherwise answers that object's
      `nombre`, or None when it has none. */
  lemma OptionalTitleSpec(video: Json)
    ensures OptionalTitle(video).Success? <==> FirstResult(video).Some?
    ensures OptionalTitle(video).Success? ==> OptionalTitle(video).value == OrNone(Member(video, "nombre"))
  {
    if video.JObj? && "results" in video.fields {
      var results := video.fields["results"];
      assert DictGet(video, "results") == Success(results);
    }
  }

  /** The record is built exactly when the title lookup does not raise: with
      the title required, the document must have a first result object with a
      `nombre` member; with it optional, a first result object is enough. A
      missing or empty `results` fails in both modes. */
  lemma ExtractVideoSucceeds(video: Json, videoId: Option<string>, requireTitle: bool,
                             unifiedTimestamp: Json -> Option<int>)
    ensures ExtractVideo(video, videoId, requireTitle, unifiedTimestamp).Success? <==>
              FirstResult(video).Some? && (requireTitle ==> "nombre" in FirstResult(video).value)
  {
    if requireTitle {
      FieldPathSpec(video, "nombre");
    } else {
      if video.JObj? && "results" in video.fields {
        var results := video.fields["results"];
        assert DictGet(video, "results") == Success(results);
      }
    }
  }

  /** The title is the first result's `nombre` exactly as sent, null included;
      a missing `nombre` (possible only when the title is optional) gives None. */
  lemma ExtractVideoTitle(video: Json, videoId: Option<string>, requireTitle: bool,
                          unifiedTimestamp: Json -> Option<int>)
    requires ExtractVideo(video, videoId, requireTitle, unifiedTimestamp).Success?
    ensures ExtractVideo(video, videoId, requireTitle, unifiedTimestamp).value.title == OrNone(Member(video, "nombre"))
  {
    ExtractVideoSucceeds(video, videoId, requireTitle, unifiedTimestamp);
    if requireTitle {
      FieldPathSpec(video, "nombre");
    } else {
      var results := video.fields["results"];
      assert DictGet(video, "results") == Success(results);
    }
  }

  /** Description and uploader are strings when the document holds a string
      there, and None whenever a step of the path is missing or the value is
      not a string. */
  lemma ExtractVideoStrings(video: Json, videoId: Option<string>, requireTitle: bool,
                            unifiedTimestamp: Json -> Option<int>, s: string)
    requires ExtractVideo(video, videoId, requireTitle, unifiedTimestamp).Success?
    ensures var info := ExtractVideo(video, videoId, requireTitle, unifiedTimestamp).value;
            && (info.description == Some(s) <==> Member(video, "descripcion") == Some(JStr(s)))
            && (info.description == None <==> !(Member(video, "descripcion").Some? && Member(video, "descripcion").value.JStr?))
            && (info.uploader == Some(s) <==> NestedMember(video, "usuario", "username") == Some(JStr(s)))
            && (info.uploader == None <==>
                  !(NestedMember(video, "usuario", "username").Some? && NestedMember(video, "usuario", "username").value.JStr?))
  {
    FieldPathSpec(video, "descripcion");
    NestedPathSpec(video, "usuario", "username");
  }

  /** Thumbnail, manifest URL and creation date are taken with no type check:
      whatever value is there, or None. */
  lemma ExtractVideoUntyped(video: Json, videoId: Option<string>, requireTitle: bool,
                            unifiedTimestamp: Json -> Option<int>)
    requires ExtractVideo(video, videoId, requireTitle, unifiedTimestamp).Success?
    ensures var info := ExtractVideo(video, videoId, requireTitle, unifiedTimestamp).value;
            && info.thumbnail == OrNone(Member(video, "url_imagen"))
            && info.manifestUrl == OrNone(Member(video, "url_manifiesto"))
            && info.timestamp == unifiedTimestamp(OrNone(Member(video, "fecha_creacion")))
  {
    FieldPathSpec(video, "url_imagen");
    FieldPathSpec(video, "url_manifiesto");
    FieldPathSpec(video, "fecha_creacion");
  }

  /** The category is a one-element list holding the channel name when that is
      a non-empty string, and None otherwise; it is never an empty list. */
  lemma ExtractVideoCategory(video: Json, videoId: Option<string>, requireTitle: bool,
                             unifiedTimestamp: Json -> Option<int>)
    requires ExtractVideo(video, videoId, requireTitle, unifiedTimestamp).Success?
    ensures var info := ExtractVideo(video, videoId, requireTitle, unifiedTimestamp).value;
            var channel := NestedMember(video, "canal", "nombre");
            && (info.category.Some? <==> channel.Some? && channel.value.JStr? && channel.value.s != [])
            && (info.category.Some? ==> info.category.value == [channel.value.s])
  {
    NestedPathSpec(video, "canal", "nombre");
  }

  /** The id is the first result's `id` when that is a non-empty string, and the
      caller's `video_id` otherwise (a numeric `id` is not taken). */
  lemma ExtractVideoId(video: Json, videoId: Option<string>, requireTitle: bool,
                       unifiedTimestamp: Json -> Option<int>)
    requires ExtractVideo(video, videoId, requireTitle, unifiedTimestamp).Success?
    ensures var info := ExtractVideo(video, videoId, requireTitle, unifiedTimestamp).value;
            var docId := Member(video, "id");
            info.id == if docId.Some? && docId.value.JStr? && docId.value.s != [] then Some(docId.value.s) else videoId
  {
    FieldPathSpec(video, "id");
  }
}
