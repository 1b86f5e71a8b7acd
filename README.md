# Picta extractors and version helpers, in Dafny

This project models the Picta extractors of picta-dl, a youtube-dl derivative for
the Cuban video platform Picta, together with the two version helpers of its
`setup.py`, and proves properties of the model.

- **URL patterns** (`PictaUrl`). `PictaIE` accepts
  `https?://(www.)?picta.cu/(medias|embed)/(?v=)?<id>` with `<id>` a run of
  `[0-9a-z-]`. `PictaEmbedIE` accepts only `https?://www.picta.cu/embed/(?v=)?<id>`
  with a digit-only `<id>`. Both are matched as Python's `re.match` does: anchored
  at the start only, greedy, case-sensitive. Each matcher is proved equal, in
  both directions, to a description of the accepted URLs that reads like the
  pattern. Every embed URL is also a `PictaIE` URL, and nothing after the
  identifier affects the match.
- **JSON reading** (`PyJson`). The API's decoded JSON document is a `Json` value.
  Python subscripting may raise KeyError, IndexError, TypeError or
  AttributeError. `try_get` answers None instead of raising, and with
  `compat_str` it answers None for anything that is not a string.
- **Metadata** (`PictaMetadata`). `_extract_video` builds the eight-key info
  record from the first element of `results`. Each entry is tied to a direct
  reading of the document: the title, the string fields, the untyped fields,
  the one-element category list and the id fallback.
- **Extraction** (`PictaExtract`). `PictaIE._real_extract` is an imperative
  method proved equal to a functional specification. Several things are proved
  about that specification: when it succeeds, when it fails, and that the
  returned format list is never empty. The request URL is proved to carry the
  identifier unchanged and injectively. `PictaEmbedIE._real_extract` is a
  redirect to `PictaIE`, and following it never fails at URL matching.
- **Version helpers** (`SetupVersion`). `version2tuple` splits the package
  version at dots, takes a fourth component as the commit, and unpacks the
  rest into year, month and day. `version2str` writes the four numbers back
  with dots. The model writes out Python's `str.split`, `int()` and `"%s"`.
  Proved properties:
  - when a version is accepted;
  - which error a rejected one gets: a bad fourth component first, then the
    first bad remaining component, then a wrong count;
  - the tuple's fields;
  - rendering then parsing is the identity;
  - `version2str` is idempotent.

The host framework's services are parameters of the model, collected in
`Collaborators`: the JSON download, the MPD manifest parser, the format sort
and the date parser.

A few of the code's behaviours differ from a natural reading of the
extractor's description; the model follows the code:
- The patterns carry no flags, so `HTTPS://` or `Picta.CU` are rejected.
- The document's `id` is taken only when it is a non-empty string. A numeric
  `id` is not converted; the identifier from the URL is used instead.
- The second test URL of `PictaEmbedIE` (`picta.py:149`, an `embed/` URL with a
  slug) is not accepted by that extractor's own pattern; only `PictaIE`'s
  pattern matches it (`PictaUrl.EmbedSlugExample`).

## Model

| member | source | states |
|---|---|---|
| `PyJson.Subscript` | picta_dl/extractor/picta.py:14 | definition, no ensures: Python's `v[k]` on a decoded value, raising KeyError, IndexError or TypeError; stated against the document by `PictaMetadata.FirstResultWalk`, `FieldPathSpec`, `NestedPathSpec` and `OptionalTitleSpec` |
| `PyJson.Walk` | picta_dl/extractor/picta.py:14-27 | definition, no ensures: a chain of subscripts such as `x["results"][0]["nombre"]`, applied left to right; its behaviour is stated by `WalkAppend`, `WalkKeyFirst` and `PictaMetadata.FieldPathSpec` |
| `PyJson.TryGet` | picta_dl/extractor/picta.py:24-27 | definition, no ensures: `try_get` with no expected type, the value at the path or None; stated against the document by `PictaMetadata.ExtractVideoUntyped` |
| `PyJson.TryGetStr` | picta_dl/extractor/picta.py:18-23 | definition, no ensures: `try_get(..., compat_str)`; stated against the document by `PictaMetadata.ExtractVideoStrings`, `ExtractVideoCategory` and `ExtractVideoId` |
| `PyJson.Truthy` | picta_dl/extractor/picta.py:112 | definition, no ensures: Python truthiness of a JSON value, used for the manifest URL test; its consequences are stated by `PictaExtract.ExtractSuccess` and `ExtractNoFormats` |
| `PyJson.WalkAppend` | picta_dl/extractor/picta.py:19 | a lookup path such as `x["results"][0]["descripcion"]` applies its subscripts left to right; the first that raises decides the outcome |
| `PyJson.WalkKeyFirst` | picta_dl/extractor/picta.py:22 | a path starting with a key reads only that member of a dict; other values raise KeyError or TypeError |
| `PictaUrl.LongestRun` | picta_dl/extractor/picta.py:49 | the greedy `[class]+` run is a prefix of the input, lies entirely in the class, and cannot be extended |
| `PictaUrl.LongestRunOfMaximal` | picta_dl/extractor/picta.py:49 | a maximal run followed by a non-class character is exactly what the greedy scan takes |
| `PictaUrl.MatchCanonical` | picta_dl/extractor/picta.py:48-50 | `PictaIE`'s `id` group is never empty and holds only `[0-9a-z-]` |
| `PictaUrl.MatchEmbed` | picta_dl/extractor/picta.py:129 | `PictaEmbedIE`'s `id` group is never empty and holds only digits |
| `PictaUrl.MatchCanonicalComplete` | picta_dl/extractor/picta.py:48-50 | every URL of `PictaIE`'s shape is matched, with any choice of scheme, `www.`, section and `?v=`, and the match yields exactly its identifier run |
| `PictaUrl.MatchCanonicalSpec` | picta_dl/extractor/picta.py:48-50 | `PictaIE`'s pattern matches with identifier `id` if and only if the URL is scheme, optional `www.`, `picta.cu/`, `medias/` or `embed/`, optional `?v=`, then `id` as a maximal run |
| `PictaUrl.MatchEmbedComplete` | picta_dl/extractor/picta.py:129 | every URL of `PictaEmbedIE`'s shape is matched and yields exactly its digit run |
| `PictaUrl.MatchEmbedSpec` | picta_dl/extractor/picta.py:129 | `PictaEmbedIE`'s pattern matches with identifier `id` if and only if the URL is scheme, `www.picta.cu/embed/`, optional `?v=`, then `id` as a maximal digit run |
| `PictaUrl.EmbedUrlIsCanonical` | picta_dl/extractor/picta.py:49 | an embed URL is the `PictaIE` URL with `www.` and the `embed/` section |
| `PictaUrl.EmbedMatchesCanonical` | picta_dl/extractor/picta.py:129 | every URL `PictaEmbedIE` accepts is accepted by `PictaIE`, whose identifier starts with the embed digits |
| `PictaUrl.CanonicalIgnoresTail` | picta_dl/extractor/picta.py:49 | the match is anchored at the start only: cutting the URL after the identifier and appending anything that does not continue the run gives the same identifier |
| `PictaUrl.EmbedRejectsNonDigit` | picta_dl/extractor/picta.py:129 | the embed pattern rejects an `embed/` path starting with neither a digit nor `?` |
| `PictaUrl.EmbedSlugOnlyCanonical` | picta_dl/extractor/picta.py:129 | an embed URL whose slug starts with a letter is matched by `PictaIE` with the whole slug and rejected by `PictaEmbedIE` |
| `PictaUrl.MediasSlugExample` | picta_dl/extractor/picta.py:54 | the first test URL yields its whole slug as the identifier |
| `PictaUrl.EmbedQueryExample` | picta_dl/extractor/picta.py:95 | `https://www.picta.cu/embed/?v=818` yields `818` under both patterns |
| `PictaUrl.EmbedSlugExample` | picta_dl/extractor/picta.py:149 | the slug embed test URL is matched by `PictaIE` with the whole slug and not by `PictaEmbedIE` |
| `PictaMetadata.FieldPathSpec` | picta_dl/extractor/picta.py:26-27 | the path `x["results"][0][key]` lands on a value exactly when the first result object has that member, and it lands on that member |
| `PictaMetadata.NestedPathSpec` | picta_dl/extractor/picta.py:21-23 | the path `x["results"][0][outer][inner]` lands on a value exactly when that nested member exists, and it lands on it |
| `PictaMetadata.FirstResultWalk` | picta_dl/extractor/picta.py:14 | `x["results"][0]` is an object exactly when the document has a first result object; longer paths continue from it |
| `PictaMetadata.OptionalTitle` | picta_dl/extractor/picta.py:16 | definition, no ensures: `video.get("results")[0].get("nombre")` |
| `PictaMetadata.OptionalTitleSpec` | picta_dl/extractor/picta.py:16 | the `.get` chain raises exactly when the document has no first result object, and otherwise gives that object's `nombre`, or None when it has none |
| `PictaMetadata.ExtractVideo` | picta_dl/extractor/picta.py:12-42 | definition, no ensures: `_extract_video`, building the eight-key record; its properties are the `ExtractVideo*` lemmas below |
| `PictaMetadata.ExtractVideoSucceeds` | picta_dl/extractor/picta.py:12-17 | the record is built if and only if the title lookup does not raise: a first result object is needed, with a `nombre` member when the title is required |
| `PictaMetadata.ExtractVideoTitle` | picta_dl/extractor/picta.py:13-17 | the title is the first result's `nombre` as sent, or None when it is optional and missing |
| `PictaMetadata.ExtractVideoStrings` | picta_dl/extractor/picta.py:18-23 | description and uploader are the document's strings when present as strings, and None in every other case (both directions) |
| `PictaMetadata.ExtractVideoUntyped` | picta_dl/extractor/picta.py:24-27 | thumbnail and manifest URL are taken with no type check, and the timestamp is the date parser applied to the creation date (or to None) |
| `PictaMetadata.ExtractVideoCategory` | picta_dl/extractor/picta.py:28-40 | the category is the one-element list of the channel name exactly when that is a non-empty string, None otherwise, never an empty list |
| `PictaMetadata.ExtractVideoId` | picta_dl/extractor/picta.py:33-34 | the id is the document's id when it is a non-empty string, and the caller's `video_id` otherwise |
| `PictaExtract.RealExtract` | picta_dl/extractor/picta.py:102-123 | the step-by-step extraction computes exactly `PictaExtract`: match, download, normalise, extend the empty format list from the manifest, refuse an empty list, sort, attach |
| `PictaExtract.PictaExtract` | picta_dl/extractor/picta.py:102-123 | definition, no ensures: `PictaIE._real_extract` as a value; `RealExtract` is proved equal to it and the `Extract*` lemmas state its behaviour |
| `PictaExtract.JsonUrl` | picta_dl/extractor/picta.py:104-106 | definition, no ensures: the API request URL for an identifier; stated by `JsonUrlSpec`, `JsonUrlInjective` and `MatchedIdQuerySafe` |
| `PictaExtract.GatherFormats` | picta_dl/extractor/picta.py:110-115 | definition, no ensures: no formats for a falsy manifest URL, the MPD parser's result otherwise |
| `PictaExtract.AttachFormats` | picta_dl/extractor/picta.py:110-123 | definition, no ensures: the part of `_real_extract` after the record is built; stated by `ExtractSuccess` and `ExtractNoFormats` |
| `PictaExtract.EmbedExtract` | picta_dl/extractor/picta.py:176-177 | definition, no ensures: `url_result(url, PictaIE.ie_key())`; stated by `EmbedRedirect` |
| `PictaExtract.JsonUrlSpec` | picta_dl/extractor/picta.py:104-106 | the request URL is the API base, then the fixed publication query, then the identifier, which can be read back from it |
| `PictaExtract.JsonUrlInjective` | picta_dl/extractor/picta.py:104-106 | different identifiers give different request URLs |
| `PictaExtract.MatchedIdQuerySafe` | picta_dl/extractor/picta.py:104-106 | for any URL `PictaIE` accepts, the query value is the identifier and holds no `&`, `#`, `=` or `?` |
| `PictaExtract.ExtractSuccess` | picta_dl/extractor/picta.py:110-123 | a record is returned only when the URL matched, the download and title succeeded, the manifest URL is truthy and the parser found formats; the record is unchanged and its formats are a non-empty permutation of the parser's list |
| `PictaExtract.ExtractNoFormats` | picta_dl/extractor/picta.py:117-118 | a falsy manifest URL or an empty parser result fails with "Cannot find video formats" |
| `PictaExtract.ExtractHappyPath` | picta_dl/extractor/picta.py:102-123 | the converse of `ExtractSuccess`: a matched URL, a successful download and title, a truthy manifest URL and a non-empty parser list give the normalised record with the sorted list |
| `PictaExtract.ExtractMpdError` | picta_dl/extractor/picta.py:112-115 | an error of the MPD parser is passed on unchanged as the extraction's error |
| `PictaExtract.ExtractEarlyFailures` | picta_dl/extractor/picta.py:103-108 | an unmatched URL fails at matching, a failed download passes its error on, and a document without a first result or `nombre` raises |
| `PictaExtract.ExtractId` | picta_dl/extractor/picta.py:108 | a successful extraction always has a non-empty id: the document's string id, or the identifier from the URL |
| `PictaExtract.EmbedRedirect` | picta_dl/extractor/picta.py:176-177 | the embed extractor returns the same URL with `PictaIE`'s key, and `PictaIE` accepts that URL, so following the redirect never fails at matching |
| `SetupVersion.Split` | setup.py:45 | `str.split(".")` gives at least one piece and no piece contains a dot |
| `SetupVersion.JoinSplit` | setup.py:45 | joining the pieces with dots gives back the string |
| `SetupVersion.SplitJoin` | setup.py:45 | splitting dot-free pieces joined with dots gives back the pieces |
| `SetupVersion.RemoveUnderscores` | setup.py:52 | removing the underscores between digit groups leaves only digits |
| `SetupVersion.PyInt` | setup.py:52 | definition, no ensures: `int()` on a string, None where Python raises; stated by `PyIntOfIntToStr`, `PyIntOfDigits` and `PyIntLeadingZero` |
| `SetupVersion.IntToStr` | setup.py:57 | definition, no ensures: `"%s" % n` on an integer; stated by `PyIntOfIntToStr` and `IntToStrNoDot` |
| `SetupVersion.IntToStrNoDot` | setup.py:57 | the decimal rendering of an integer contains no dot |
| `SetupVersion.NatToStrValue` | setup.py:57 | the decimal rendering of a natural number has that number as its value |
| `SetupVersion.PyIntOfIntToStr` | setup.py:52 | `int()` reads back every integer that `"%s"` writes |
| `SetupVersion.PyIntOfDigits` | setup.py:52 | `int()` on plain decimal digits is their value, leading zeros included |
| `SetupVersion.ParseAllFailureExtends` | setup.py:52 | once a component is refused, more components do not change the error |
| `SetupVersion.ParseAllStep` | setup.py:52 | each further component either keeps an earlier error, raises for itself, or appends its value |
| `SetupVersion.ParseAll` | setup.py:52 | definition, no ensures: `[int(value) for value in parts]`; stated by `ParseAllSpec`, `ParseAllFirstBad` and `ParseAllFailureExtends` |
| `SetupVersion.ParseComponents` | setup.py:52 | the loop over the components computes `ParseAll`: the first refused component raises, otherwise all values in order |
| `SetupVersion.ParseAllSpec` | setup.py:52 | the comprehension succeeds exactly when `int()` accepts every component, and then yields their values in order |
| `SetupVersion.ParseAllFirstBad` | setup.py:52 | the error names the first component `int()` refuses |
| `SetupVersion.ParseVersion` | setup.py:44-53 | definition, no ensures: `version2tuple` as a value; `Version2Tuple` is proved equal to it and the `Version*` lemmas state its behaviour |
| `SetupVersion.Unpack` | setup.py:52-53 | definition, no ensures: the comprehension over the remaining components and the unpacking into three names |
| `SetupVersion.Version2Tuple` | setup.py:44-53 | the step-by-step `version2tuple` (split, take and delete the fourth component, convert, unpack) computes exactly `ParseVersion` |
| `SetupVersion.VersionAccepted` | setup.py:44-53 | a version is accepted if and only if it has three or four dot-separated components and `int()` accepts each |
| `SetupVersion.VersionFields` | setup.py:46-53 | an accepted version's year, month and day are the first three components' values; the commit is the fourth's value, or the `commit` argument when there are three |
| `SetupVersion.VersionWrongCount` | setup.py:52-53 | with all components numeric, fewer than three fail unpacking with their count, and more than four fail with the count less the removed fourth |
| `SetupVersion.VersionBadCommit` | setup.py:46-49 | the fourth component is converted before the other three, so a non-numeric fourth component is the error even when earlier ones are bad too |
| `SetupVersion.VersionFirstBad` | setup.py:52 | with the fourth component accepted, the error names the first remaining component `int()` refuses |
| `SetupVersion.DigitsValueLeadingZero` | setup.py:52 | a leading zero does not change the value of a digit string |
| `SetupVersion.PyIntLeadingZero` | setup.py:52 | `int()` ignores a leading zero, so a zero-padded date component such as `06` reads as 6 |
| `SetupVersion.RenderIsJoin` | setup.py:57 | `"%s.%s.%s.%s"` is the four decimals joined with dots, none of which contains a dot |
| `SetupVersion.RenderTuple` | setup.py:57 | definition, no ensures: `"%s.%s.%s.%s" % version_tuple`; stated by `RenderIsJoin` and `ParseRender` |
| `SetupVersion.Version2Str` | setup.py:55-57 | definition, no ensures: `version2str`; stated by `Version2StrRoundTrip`, `Version2StrNormalises` and `PaddedDateVersion` |
| `SetupVersion.ParseRender` | setup.py:55-57 | parsing a rendered tuple gives the tuple back, whatever default commit is passed |
| `SetupVersion.Version2StrRoundTrip` | setup.py:55-57 | `version2str` of a rendered tuple returns it unchanged |
| `SetupVersion.Version2StrNormalises` | setup.py:55-57 | `version2str`'s output has four components, denotes the same tuple as its input, and maps to itself |
| `SetupVersion.PaddedDateVersion` | setup.py:44-57 | a date version whose month and day carry a leading zero is written back as the plain numbers with the commit appended |
| `SetupVersion.Version2StrDateExample` | setup.py:44-57 | `2020.06.01` with the default commit becomes `2020.6.1.0` |

## Left out

- Network and host framework: `_download_json`, `_extract_mpd_formats`,
  `_sort_formats` and `unified_timestamp` are parameters of the model. Their
  behaviour is not modelled.
- PictaExtract.ExtractSuccess: the permutation of the formats holds only if the
  sort just reorders the list. That property is a precondition of the lemma,
  not a proved fact, because the sort is not part of this model.
- The in-place sort is modelled as a function that returns the sorted list. The
  list is not shared with anything else, so no aliasing is lost.
- `try_get`'s catching of exceptions other than subscripting errors does not
  arise here. The lookups are fixed subscript paths.
- JSON floats are not modelled. The fields that could hold them are either
  passed through untouched or read as strings.
- The regex `\d` in `PictaIE`'s pattern and Python's `int()` also accept
  non-ASCII decimal digits. The model accepts ASCII digits only.
- `int()` on a version component: only base 10 and the characters of
  `str.isspace` are modelled. No other text form `int()` accepts can occur in a
  dotted version string.
- SetupVersion.Version2Tuple takes the version string as a parameter. The
  source reads the module's `__version__`, whose definition is not part of
  this model.
- The extractor's test data (`_TESTS` downloads, checksums, expected metadata),
  `IE_NAME`, `IE_DESC` and the info-dict post-processing the host does after
  `_real_extract` are not modelled. Neither is the rest of `setup.py`
  (packaging, the PyInstaller build command).
- Python exceptions are modelled as error values. Their class hierarchy and
  messages are not: only the `ExtractorError` message "Cannot find video
  formats" is kept.
