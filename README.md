# Kodi IPTV/EPG reconciliation engine, in Dafny

This project models the data logic of the Kodi IPTV Simple Client wrapper
(`kodi_epg_api`). Four Python scripts reimplement the same engine:

- **Playlist merge.** A comma-separated URL setting names M3U sources. Each
  piece is loaded by its first whitespace-separated token. Channels are
  merged first come, first served: a channel joins `pl_add` only if its name
  is not already in `channel_list`.
- **Channel correction.** Each merged channel is copied and looked up by its
  original name in the correction table (`iptv_corrected.json`). A channel
  with no entry is dropped. In the current script, a channel whose entry has
  a truthy `disable` is dropped too. Otherwise `name`, `extras` and a fixed
  list of attributes are each overwritten, and only when the entry gives a
  truthy value.
- **Guide rewrite.** In the parsed XMLTV guide, the text of each
  `display-name` child of each top-level `channel` element is replaced by its
  value in the guide table (`epg_corrected.json`).

Files:

- `outcomes.dfy` (`Outcomes`): `Option`, the Python exceptions that can
  leave a script function (`MyException` is `HttpStatus(code)`), and the
  HTTP status codes the scripts use.
- `pystr.dfy` (`PyStr`): `str.split(",")` and `str.split()`, with Python's
  `isspace` character set.
- `channels.dfy` (`Channels`): the `Channel` record, the merge as a function
  (`Merge`, `Gather`, `MergedPlaylist`), the merge loops (`MergeSources`,
  `AddChannels`), and their properties.
- `correction.dfy` (`Correction`): correction entries and tables, a
  capability record `Capabilities` with the two correctors `V24` and
  `Legacy`, the correction as a function (`CorrectAll`), and the correction
  loop `CorrectChannels`.
- `guide.dfy` (`Guide`): the XML element tree, the two lookup modes, the
  rewrite as a function (`Rewritten`), and the rewrite loop `RewriteGuide`.
- `simple_client_v24.dfy`, `simple_client.dfy`, `iptv_extractor.dfy`,
  `epg_extractor.dfy`: one module per script. Each composes the engine with
  that script's error handling.

The variants differ as the code does:

- The earlier correctors (`Legacy`) ignore `disable` and never touch
  `tvg-logo`.
- The earlier correctors write the channel number through the playlist
  library's `IPTVAttr.TVG_CHNO`. In that library this is the attribute
  `tvg-chno`. The current script writes an attribute literally named
  `tvg_chno`. The library is not part of this model, so `tvg-chno` is an
  assumption about it.
- The earlier guide rewriters use `table[text]` and ignore a missing key, so
  any value present is applied, even an empty string or a JSON null
  (`Lookup.ByKey`). The current one applies only a truthy value
  (`Lookup.ByTruthyValue`).
- The earlier web script always runs the correction and then uses the flag
  to choose which list to serve. The current one corrects only when
  `filtered` is set. Because correction works on copies, both serve the
  merged list unchanged when unfiltered.

Behaviour of the code worth noting:

- A falsy (empty) override is treated like an absent one.
- `disable` matters only in the current script.
- The earlier guide rewriter applies any value present for a key, not only
  a replacement text.
- In the earlier web script and the stand-alone guide script, a guide
  response that is not XML is not caught. It escapes as `ParseError`
  instead of becoming a service-unavailable failure.
- In the two web scripts, the `except (AttributeError, IndexError)` and
  `except MalformedPlaylistException` clauses wrap the whole reading loop.
  An AttributeError (no URL string), an IndexError (a piece with no token)
  and a malformed playlist become 400, 400 and 500. Any other exception
  passes through uncaught. `iptv_extractor.py` catches nothing.

## Model

| member | source | states |
|---|---|---|
| `PyStr.Split` | kodi_epg_api/src/webAPI_IPTV_SimpleClient_v24.py:134 | `urls.split(",")` always yields at least one piece. |
| `PyStr.JoinSplit` | kodi_epg_api/src/webAPI_IPTV_SimpleClient_v24.py:134 | Joining the pieces with `,` gives the URL string back, and no piece contains a comma. |
| `PyStr.SplitJoin` | kodi_epg_api/src/webAPI_IPTV_SimpleClient_v24.py:134 | Splitting the join of comma-free parts gives the parts back, so split and join are inverses. |
| `PyStr.WordsShape` | kodi_epg_api/src/webAPI_IPTV_SimpleClient_v24.py:135 | Every word of `url.split()` is non-empty and contains no whitespace. There are no words at all exactly when the piece is all whitespace, which is the case where `[0]` raises IndexError. |
| `PyStr.FirstWord` | kodi_epg_api/src/webAPI_IPTV_SimpleClient_v24.py:135 | For leading whitespace, then a token, then nothing or a whitespace-led rest, the first word is that token. |
| `Channels.MergeNames` | kodi_epg_api/src/webAPI_IPTV_SimpleClient_v24.py:136-140 | The merged playlist holds exactly the names read, all pairwise distinct. |
| `Channels.MergeIsFirstOccurrences` | kodi_epg_api/src/webAPI_IPTV_SimpleClient_v24.py:134-140 | Position k of the merged playlist is the channel at the k-th position that is first for its name. These positions rise across sources in source order, then in document order. Every first position appears, and nothing else does. |
| `Channels.MergeAbsorbs` | kodi_epg_api/src/webAPI_IPTV_SimpleClient.py:111-117 | Channels whose names were all read earlier leave the merged playlist unchanged, because the first one wins. |
| `Channels.MergeOfDistinct` | kodi_epg_api/src/iptv_extractor.py:26-32 | A channel list with no repeated names is its own merge. |
| `Channels.MergeRepeated` | kodi_epg_api/src/iptv_extractor.py:26-32 | Reading the same channels twice merges to the same playlist as reading them once. |
| `Channels.FirstSourceWins` | kodi_epg_api/src/iptv_extractor.py:26-32 | The first channel with a given name in an earlier source is kept, and it is the only merged channel with that name, whatever later sources hold. |
| `Channels.DistinctNameCount` | kodi_epg_api/src/webAPI_IPTV_SimpleClient_v24.py:152 | A channel list with distinct names has exactly as many names as channels. |
| `Channels.GatherFailures` | kodi_epg_api/src/webAPI_IPTV_SimpleClient_v24.py:134-135 | Reading the sources can fail only with IndexError (a piece with no token) or with the malformed-playlist exception. |
| `Channels.BadRequests` | kodi_epg_api/src/webAPI_IPTV_SimpleClient_v24.py:134-146 | A missing URL string is mapped to 400. A first piece with no token raises IndexError. A blank piece anywhere makes the merge fail with 400, or with 500 if an earlier source is malformed. |
| `Channels.BlankPieceFails` | kodi_epg_api/src/webAPI_IPTV_SimpleClient.py:111-112 | A piece with no token makes reading fail, whatever the other pieces are. |
| `Channels.PieceToken` | kodi_epg_api/src/iptv_extractor.py:27 | Only a piece's first token names its source. Leading whitespace and anything after the token's terminating whitespace are ignored. |
| `Channels.RepeatedSource` | kodi_epg_api/src/webAPI_IPTV_SimpleClient_v24.py:134-141 | Naming one comma-free source twice, as `u,u`, gives the same outcome as naming it once. |
| `Channels.AddChannels` | kodi_epg_api/src/webAPI_IPTV_SimpleClient_v24.py:135-140 | The inner loop extends `pl_add` to the merge of all channels read so far. It keeps `channel_list` equal to the merged names and `tmp_dict`'s keys equal to all names read. |
| `Channels.MergeSources` | kodi_epg_api/src/webAPI_IPTV_SimpleClient_v24.py:126-152 | The loops compute the merged playlist of the URL setting, or the first exception that ends reading. On success `tmp_dict`'s keys are the merged names, so the logged count equals the merged length. |
| `Correction.OverriddenAt` | kodi_epg_api/src/webAPI_IPTV_SimpleClient_v24.py:168-173 | Each attribute is overwritten independently. A targeted attribute gets the entry's value when that value is truthy. Any other attribute keeps its presence and value. |
| `Correction.CorrectedFields` | kodi_epg_api/src/webAPI_IPTV_SimpleClient_v24.py:158-173 | The corrected copy takes `name` and `extras` from the entry only when they are truthy. It keeps url and duration, and its attributes are as in `OverriddenAt`. |
| `Correction.GroupTitleOnly` | kodi_epg_api/src/iptv_extractor.py:41-54 | An entry that supplies only a group title changes that attribute and nothing else, for either corrector. |
| `Correction.LegacyKeepsLogo` | kodi_epg_api/src/webAPI_IPTV_SimpleClient.py:141-154 | The earlier corrector never adds, removes or changes `tvg-logo`. |
| `Correction.V24SetsLogo` | kodi_epg_api/src/webAPI_IPTV_SimpleClient_v24.py:173 | The current corrector replaces `tvg-logo` when the entry gives a truthy one. |
| `Correction.CorrectorsDistinct` | kodi_epg_api/src/webAPI_IPTV_SimpleClient_v24.py:168-173 | Neither corrector writes the same attribute from two entry keys. |
| `Correction.CorrectAllSelects` | kodi_epg_api/src/webAPI_IPTV_SimpleClient_v24.py:157-175 | The filtered playlist is, in merge order, the corrected copy of every channel that has an entry (and, for the current corrector, is not disabled), and of no other channel. Its length is at most the merged length. |
| `Correction.DroppedChannels` | kodi_epg_api/src/webAPI_IPTV_SimpleClient_v24.py:159-164 | A channel with no entry for its original name, or with a truthy `disable` where that is honoured, contributes nothing to the output. |
| `Correction.LegacyIgnoresDisable` | kodi_epg_api/src/webAPI_IPTV_SimpleClient.py:134-156 | For the earlier corrector, the output does not depend on the entries' `disable` values. |
| `Correction.CorrectChannels` | kodi_epg_api/src/iptv_extractor.py:34-56 | The correction loop (copy, look up, skip or correct field by field, append) computes the filtered playlist. |
| `Guide.RewriteGuide` | kodi_epg_api/src/epg_extractor.py:35-40 | The nested loops over `channel` and `display-name` elements compute the rewritten guide. |
| `Guide.RewrittenShape` | kodi_epg_api/src/epg_extractor.py:35-40 | The rewrite changes only text: every element keeps its tag, attributes and children, and the node count is unchanged. |
| `Guide.OnlyDisplayNamesChange` | kodi_epg_api/src/epg_extractor.py:35-40 | Only the texts of `display-name` children of top-level `channel` elements change. The root's text, every top-level element that is not a channel, the channels' own tags, attributes and texts, and every grandchild that is not a display-name come back unchanged. A display-name keeps its tag, attributes and children, and gets its original text looked up once. |
| `Guide.DisplayNamesRewritten` | kodi_epg_api/src/webAPI_IPTV_SimpleClient_v24.py:219-222 | The display-name texts after the rewrite are those before it, in order, each looked up once by its original text. There is no chained substitution. |
| `Guide.NoMatchNoChange` | kodi_epg_api/src/epg_extractor.py:37-40 | If no text of a display-name under a top-level channel is a table key, the guide is unchanged, whatever other elements' texts are. |
| `Guide.ModesAgree` | kodi_epg_api/src/webAPI_IPTV_SimpleClient.py:188-193 | When every table value is non-empty, the key lookup and the truthy lookup give the same guide. |
| `Guide.ModesDiffer` | kodi_epg_api/src/webAPI_IPTV_SimpleClient_v24.py:221-222 | For an empty or null table value, the key lookup applies it and the truthy lookup keeps the original text. |
| `SimpleClientV24.GetIptv` | kodi_epg_api/src/webAPI_IPTV_SimpleClient_v24.py:112-184 | A merge failure is mapped to 400 or 500. Otherwise the result is the current corrector's output when `filtered`, and exactly the merged playlist when not filtered. |
| `SimpleClientV24.GetGuide` | kodi_epg_api/src/webAPI_IPTV_SimpleClient_v24.py:187-229 | An unreadable or unparsable guide file gives 503. Otherwise `original` returns the tree as read, and not `original` returns the truthy-lookup rewrite. |
| `SimpleClientV24.BbcExample` | kodi_epg_api/src/webAPI_IPTV_SimpleClient_v24.py:134-175 | Two sources both list `BBC1`, and the entry renames it and sets its group. The result is the first source's channel with only the name and `group-title` changed. |
| `SimpleClientV24.ItvExample` | kodi_epg_api/src/webAPI_IPTV_SimpleClient_v24.py:219-222 | With the table `ITV -> ITV1 HD`, display-names `ITV` and `Unknown` become `ITV1 HD` and `Unknown`, with the same node count. |
| `SimpleClient.GetIptv` | kodi_epg_api/src/webAPI_IPTV_SimpleClient.py:94-162 | A merge failure is mapped to 400 or 500. Otherwise the flag selects the earlier corrector's output or the merged playlist, which the correction leaves unchanged. |
| `SimpleClient.GetGuide` | kodi_epg_api/src/webAPI_IPTV_SimpleClient.py:165-200 | A failed fetch gives 503 and nothing is rewritten. A response that is not XML escapes as a parse error. Otherwise the result is the key-lookup rewrite. |
| `IptvExtractor.Extract` | kodi_epg_api/src/iptv_extractor.py:18-58 | The result is the earlier corrector's output for the merged playlist. IndexError and the malformed-playlist exception escape uncaught. |
| `EpgExtractor.Extract` | kodi_epg_api/src/epg_extractor.py:22-47 | A failed fetch or failed status exits (SystemExit) before any rewrite. A response that is not XML escapes as a parse error. Otherwise the result is the key-lookup rewrite. |

## Left out

- HTTP routes, the OpenAPI schema tweak, the `HTTPException` mapping in the
  handlers, argparse and `uvicorn.run`. These are transport and process
  startup. The scripts' functions are modelled up to the exception they
  raise.
- Logging and `logging_debug`. The only logged value with data meaning, the
  size of `tmp_dict`, is returned by `Channels.MergeSources`.
- Reading the correction tables (`json.load`). Each table is a given map.
  An entry's string-valued keys are a `map<string, string>`, where an
  absent, null or empty value supplies nothing. `extras` is a list and
  `disable` is its truth value. JSON values of other types (a number as a
  name, say) are not modelled.
- The playlist library: `loadu`, `get_channels`, `append_channel`, `copy`
  and `to_m3u_plus_playlist`. Loading is the parameter `load`, which returns
  the channels or the malformed-playlist exception. A playlist is a
  sequence of channels, and serialisation is left abstract. The model
  assumes `copy()` duplicates the attribute map.
- An AttributeError or IndexError raised inside `loadu` or `get_channels`
  would also be caught and become 400. `load` never raises either, so the
  model does not produce that case.
- Channels.RepeatedSource: each URL is modelled as one fixed playlist, so
  two reads of the same URL agree. The program calls `playlist.loadu`
  once per piece, and two fetches of one URL could return different
  content.
- Network and transport failures of `loadu` are not caught by the scripts
  and are not modelled.
- `requests.get`, `open`, `ElementTree.fromstring` and `tostring`. The
  obtained guide is the parameter `GuideSource`: parsed, unreachable (fetch
  or read failure that the script catches), or not XML. The XML declaration
  and serialisation are left abstract. Failures the scripts do not catch
  (a request timeout, say) are not modelled.
- Guide.RewriteGuide: a parsed ElementTree edited in place is modelled as a
  value rebuilt child by child. A parsed tree shares no nodes, so nothing
  is lost except object identity. Element tails are not modelled.
- `iptv_extractor.py` keeps no `tmp_dict`. `IptvExtractor.Extract` uses the
  shared merge loop, which also computes that key set, and ignores it.
- Concurrency of the async handlers. The handlers share no mutable state.
