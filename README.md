# pywhids core, modelled in Dafny

pywhids is the Python client library of the WHIDS endpoint-detection manager,
together with three MISP plugins built on it, two of which this project
models (the sightings and IOC synchronisation plugins). It models and proves
properties of its pure logic and of the state it keeps:

- **Events** (`event.dfy`): an event is a nested JSON document. `Event.get`
  walks it along a `/`-separated path. `parse_sysmon_hashes` turns a Sysmon
  `Hashes` field (`MD5=..,SHA256=..`) into a dict kept in insertion order, with
  names and values lower-cased.
- **Timestamps** (`utils.dfy`): `removesuffix`, and the rewriting that
  `parse_rfc3339_nano_timestamp` does before it hands an RFC 3339 (section 5.6)
  timestamp to `datetime.fromisoformat`. That rewriting picks the zone, cuts or
  zero-pads the fraction to six digits and fails on malformed input.
- **Sightings plugin** (`sightings.dfy`): the `SightCache` class holds, per
  source, the last time each value was reported. `SightingsUpdater` pulls
  indicator values out of Sysmon events, filters them through the cache
  cooldown, sends one sighting and records the values it sent.
- **IOC synchronisation plugin** (`sync_iocs.dfy`): reads the uuids of the MISP
  index and emits each event's attributes. It sorts them into IOCs to add and
  IOCs to delete, by `to_ids`, the allowed types and the `since` date. It then
  issues the deletions before the additions.
- **Artifacts** (`artifacts.dfy`): the name logic of one artifact file. This is
  its path, its original name and extension, and whether it is a file dump.
  It also covers the queries over an event's file list: lookup, report
  presence and pattern selection.
- **Client** (`client.dfy`): joining the manager URL and an API path, the
  status/error decision on a manager reply, the `since` query parameter, and
  the flattening of the artifact listing.

Shared helpers are Python's string operations on `seq<char>` (`text.dfy`),
filters over sequences (`seqs.dfy`), and `Option`/`Result` (`wrappers.dfy`).

The models take the source's own form:

- Loops are methods with invariants. Most are proved against reference
  functions: `parse_sysmon_hashes`, `SightCache.update`/`filter`,
  `sysmon_sightings`, `_file`, `artifacts`, `iocs_from_attributes`,
  `emit_attributes`, `sync_iocs` and `Client.artifacts`. The loop of
  `uuids_from_search` is proved against a quantified contract instead.
- `on_event` has no loop of its own. It is a method that calls the
  extraction loop and the cache methods, and its contract states the new
  state for each outcome.
- Classes are used where the source mutates fields: `SightCache` and
  `SightingsUpdater`. `Client` holds the session fields.
- Side effects are parameters or recorded results:
  - The clock readings, the IP parser, the MISP index result and `get_event`
    are parameters.
  - Whether `add_sighting` returned is a parameter.
  - The manager calls of `sync_iocs` are returned as an ordered call log.
  - The sightings sent are appended to the `sent` field.

Two behaviours of the code worth knowing:

- `artifacts_excl_report_event` uses `re.search` with
  `(^(report|event)\.json(\.gz)?$)`. Python's `$` also matches just before a
  final newline, so a name like `"report.json\n"` is excluded too
  (`Artifacts.ReportOrEvent`).
- `sync_iocs` builds every IOC with the module-global `args.source`, ignoring
  its own `source` parameter (edr-plugins/misp/sync_iocs.py:81, 85). The model
  deliberately differs from the code here and uses the parameter. Run as a
  script, the two are the same value (edr-plugins/misp/sync_iocs.py:135).

## Model

| member | source | states |
|---|---|---|
| Events.SysmonHashes | pywhids/event.py:9-16 | Reference definition of `parse_sysmon_hashes`: a string is parsed segment by segment from the empty dict, any other value gives the empty dict. Its properties are carried by ParseSysmonHashes, ParseFailsIff, SkipWithoutEquals and LastSegmentWins. |
| Events.ParseSysmonHashes | pywhids/event.py:9-16 | The loop's dict is the reference parse of the comma segments. A non-string input gives the empty dict. Every name and value of the result is lower-case and no name occurs twice. |
| Events.ParseSegments | pywhids/event.py:12-15 | Parsing one segment after another keeps the dict lower-case and its names distinct. |
| Events.ParseFailsIff | pywhids/event.py:14 | Parsing fails, which is the failed two-way unpack, exactly when some comma segment holds two or more `=`. |
| Events.SkipWithoutEquals | pywhids/event.py:13 | Inserting a segment without `=` anywhere in the segment list does not change the result. |
| Events.LastSegmentWins | pywhids/event.py:15 | After a final `name=value` segment, the lower-cased name maps to the lower-cased value, overwriting any earlier segment of that name. |
| Events.ParseSegmentsConcat | pywhids/event.py:12-15 | Parsing a concatenation of segment lists parses the first list, then continues from its dict with the second; the first error stops it. |
| Events.Assign | pywhids/event.py:15 | Dict assignment: the key set gains the key, the key maps to the new value, other keys keep theirs, every entry is the new pair or an old entry, and a new key goes at the end. |
| Events.AssignInPlace | pywhids/event.py:15 | Re-assigning a key already present keeps the length and every entry in its place; only that key's entry takes the new value, so insertion order, and the order of the values, is unchanged. |
| Events.AssignDistinct | pywhids/event.py:15 | Assignment never introduces a duplicate key. |
| Events.Lookup | pywhids/event.py:52-61 | `Event._get`, defined by its branches; its properties are carried by LookupSingle, LookupDescend and LookupConcat. |
| Events.Get | pywhids/event.py:63-64 | `Event.get`: leading slashes stripped, then split at `/` and looked up. Its properties are carried by GetLeadingSlash and GetSegments. |
| Events.Channel | pywhids/event.py:24-26 | `Event.channel`, the lookup of the segments `Event`, `System`, `Channel`; ChannelIsGet proves it equal to `get("/Event/System/Channel")`. |
| Events.LookupSingle | pywhids/event.py:54-57 | A one-segment path gives the key's value when the key is present, and nothing otherwise. This documents a branch of Lookup; the composition law is LookupConcat. |
| Events.LookupDescend | pywhids/event.py:58-61 | A longer path gives nothing when the head key is missing or does not hold a dict; otherwise it is the lookup of the tail inside that dict. This documents a branch of Lookup; the composition law is LookupConcat. |
| Events.LookupConcat | pywhids/event.py:52-61 | Looking up `p + q` is looking up `p`, then `q` inside the dict found there. |
| Events.GetLeadingSlash | pywhids/event.py:63-64 | A leading `/` does not change what `get` returns (`"/a/b"` and `"a/b"` agree). |
| Events.GetSegments | pywhids/event.py:63-64 | `get` of `/` followed by slash-free segments joined by `/` looks up exactly those segments. |
| Events.ChannelIsGet | pywhids/event.py:24-26 | `channel` is `get("/Event/System/Channel")`. |
| Text.Split | pywhids/event.py:12 | `str.split(c)` yields one more piece than there are separators, and no piece contains the separator. |
| Text.JoinSplit | pywhids/event.py:64 | Splitting separator-free pieces joined by the separator gives the pieces back. |
| Text.SplitJoin | pywhids/event.py:12 | Joining the pieces of a split with the separator gives the original text. |
| Text.Lower | pywhids/event.py:15 | `str.lower` keeps the length, maps each character by itself and yields lower-case text. |
| Text.LStrip | pywhids/event.py:64 | `lstrip(c)` removes a prefix made only of `c`, and the result does not start with `c`. |
| Text.RStrip | pywhids/client.py:36 | `rstrip(c)` removes a suffix made only of `c`, and the result does not end with `c`. |
| Utils.RemoveSuffix | pywhids/utils.py:28-33 | An empty suffix gives `s` unchanged; a non-empty suffix that `s` ends with is removed, so result plus suffix is `s`; otherwise `s` is unchanged. |
| Utils.SplitZone | pywhids/utils.py:9-17 | A time part with one `-` yields offset `-…`; otherwise one `+` yields `+…`; otherwise a trailing `Z` is stripped and yields `+00:00`; with no marker no zone is found. |
| Utils.SixDigits | pywhids/utils.py:22-24 | The fraction is exactly six characters: its first six when longer, padded with `0` on the right when shorter. |
| Utils.ParseStamp | pywhids/utils.py:6-24 | Input without exactly one `T` fails; otherwise the result is the parse of the date before the `T` and the time after it. |
| Utils.ParseTime | pywhids/utils.py:8-24 | A time part without a zone fails, which is the `ValueError`; a clock part without exactly one `.` fails; otherwise the result is the date, the clock, the six-digit fraction and the offset at those separators. |
| Utils.NormalizeTimestamp | pywhids/utils.py:6-25 | The text `parse_rfc3339_nano_timestamp` hands to `fromisoformat`, or the error its parse raises. Its properties are carried by RenderShape, DatePassThrough and ZuluIsUtc. |
| Utils.RenderShape | pywhids/utils.py:25 | The text handed to `fromisoformat` starts with the date and `T` and ends with `.`, the fraction and the offset. |
| Utils.DatePassThrough | pywhids/utils.py:7-25 | A timestamp that normalises has exactly one `T`, its text up to the `T` starts the result unchanged, and its fraction has six digits. |
| Utils.ZuluIsUtc | pywhids/utils.py:15-17 | A `Z`-terminated time part without `-` or `+` normalises with offset `+00:00`. |
| Sightings.SightCache.constructor | edr-plugins/misp/sightings.py:76-77 | A new cache is empty. |
| Sightings.SightCache.Update | edr-plugins/misp/sightings.py:79-84 | The new cache is the old one with the source's map (created when missing) stamped with `now` for every value given. |
| Sightings.Recorded | edr-plugins/misp/sightings.py:79-84 | Reference definition of `SightCache.update`: the source's map, created when missing, with every value stamped. Its properties are carried by RecordedFacts and StampedFacts. |
| Sightings.RecordedFacts | edr-plugins/misp/sightings.py:79-84 | After an update the source is present, every value given maps to `now`, other values of the source keep their time, and every other source is unchanged. |
| Sightings.StampedFacts | edr-plugins/misp/sightings.py:83-84 | Stamping adds exactly the stamped values to the keys, sets each to `now` and leaves the rest alone. |
| Sightings.Kept | edr-plugins/misp/sightings.py:89-98 | Reference definition of the filter loop for a known source: the candidates that are eligible under the cooldown, in order. Its properties are carried by KeptIff and KeptIsSubsequence. |
| Sightings.SightCache.Filter | edr-plugins/misp/sightings.py:86-98 | The output is the candidates the cooldown rule lets through, in order, and it is the input itself for a source never updated. The method has no `modifies` clause, so the cache is unchanged. |
| Sightings.KeptIff | edr-plugins/misp/sightings.py:92-97 | A candidate survives exactly when it is absent from the source's map or strictly more than `delta` has passed since its time; duplicates are judged independently, so every copy of an eligible value survives. |
| Sightings.KeptIsSubsequence | edr-plugins/misp/sightings.py:92-98 | The filter's output is a subsequence of its input. |
| Sightings.FreshSourceKeepsAll | edr-plugins/misp/sightings.py:87-88 | For a source never updated the filter keeps every candidate. |
| Sightings.Cooldown | edr-plugins/misp/sightings.py:79-98 | A value reported at time `t` is filtered out until more than `delta` after `t` and passes afterwards. |
| Sightings.NoRepeatWithinCooldown | edr-plugins/misp/sightings.py:152-164 | Within the cooldown after a report, none of the reported values passes the filter for that source again. |
| Sightings.ParsedIps | edr-plugins/misp/sightings.py:130-135 | Every kept value is the parsed form of some `;`-segment; every segment that parses contributes its parsed form. |
| Sightings.SightingsUpdater.constructor | edr-plugins/misp/sightings.py:103-109 | A new updater has a fresh empty cache, the given TTL and nothing sent. |
| Sightings.SightingsUpdater.SysmonSightings | edr-plugins/misp/sightings.py:111-141 | The loop over `SIGHTINGS_PATHS` yields the reference extraction: absent paths are skipped, and each present path contributes by its kind, in table order. |
| Sightings.SightingsUpdater.ExtractPaths | edr-plugins/misp/sightings.py:112-141 | The loop over any path table yields the reference extraction from the empty list. |
| Sightings.SightingsUpdater.AppendPath | edr-plugins/misp/sightings.py:115-139 | One iteration appends the path's contribution to the list built so far, or stops with its error; an absent path appends nothing. |
| Sightings.SightingsUpdater.AppendHashes | edr-plugins/misp/sightings.py:119-123 | A hash field appends the values of `parse_sysmon_hashes`, in dict order, or fails when that parse fails. |
| Sightings.SightingsUpdater.AppendIps | edr-plugins/misp/sightings.py:129-136 | `QueryResults` appends the segments that parse as IP addresses, in order; a non-string value fails. |
| Sightings.AccumulateIsConcat | edr-plugins/misp/sightings.py:112-141 | Accumulating per-path contributions equals what was accumulated followed by their concatenation; the first failure decides the error. |
| Sightings.ExtractIsConcatenation | edr-plugins/misp/sightings.py:112-141 | The accumulating loop equals what was accumulated followed by the per-path contributions concatenated in order; the first failing path decides the error. |
| Sightings.SightingsInTableOrder | edr-plugins/misp/sightings.py:51-71 | `sysmon_sightings` is the concatenation of the table's per-path contributions in table order. |
| Sightings.HashSightingsLower | edr-plugins/misp/sightings.py:119-123 | A hash field contributes lower-case strings only. |
| Sightings.HostnameSentinel | edr-plugins/misp/sightings.py:115-128 | On the destination and source hostname paths, a missing value or the sentinel `-` contributes nothing; any other value is contributed as is. |
| Sightings.Display | edr-plugins/misp/sightings.py:147 | `str()` of a looked-up value in the source f-string: `None` for a missing value or JSON null, `True`/`False`, decimal digits for an integer, a string as itself. |
| Sightings.SourceOf | edr-plugins/misp/sightings.py:145-147 | The source key: the displayed endpoint uuid and the displayed hostname, joined by a vertical bar. OnEvent uses it for the filter, the sighting and the update. |
| Sightings.SightingsUpdater.OnEvent | edr-plugins/misp/sightings.py:143-164 | Extraction runs only on the Sysmon channel. An extraction failure or an empty filtered list sends nothing and leaves the cache alone. Otherwise exactly one sighting carrying the filtered values, `to_ids` 1 and the source (endpoint uuid and hostname joined by a bar) is sent. The cache then records exactly those values, and only if the send returned. |
| Artifacts.Path | pywhids/artifacts.py:21-25 | The path starts with the URL, has `/` right after it and ends with the name. |
| Artifacts.PathParts | pywhids/artifacts.py:21 | For a name without `/`, the last `/` of the path separates the URL and the name, which can be read back. |
| Artifacts.Stripped | pywhids/artifacts.py:33 | All four cases: a `.bin.gz` name loses `.bin.gz`; a `.gz` name not ending in `.bin.gz` loses only `.gz`; a `.bin` name not ending in `.gz` loses `.bin`; any other name is unchanged. |
| Artifacts.OriginalName | pywhids/artifacts.py:31-34 | Fails exactly when the stripped name has no `_`, which is the `IndexError`; otherwise it is the text after the first `_` of the stripped name. |
| Artifacts.OriginalNameOfDump | pywhids/artifacts.py:31-34 | A name `tag_original.bin.gz` with no `_` in the tag gives back `original`. |
| Artifacts.SplitExt | pywhids/artifacts.py:39 | `os.path.splitext` on POSIX paths: root and extension concatenate to the input. The extension is non-empty exactly when some `.` has no `.` or `/` after it and a character other than `.` before it in its path component; it is then a `.` followed by text containing neither `.` nor `/`. |
| Artifacts.SplitExtAt | pywhids/artifacts.py:39 | When the path has an extension dot, `splitext` splits exactly at it. |
| Artifacts.SplitExtOfStem | pywhids/artifacts.py:36-39 | A stem ending in an ordinary character, followed by `.x`, splits at that dot. |
| Artifacts.SplitExtOfDotfile | pywhids/artifacts.py:36-39 | A leading-dot file name such as `dir/.bashrc` has no extension. |
| Artifacts.OriginalExt | pywhids/artifacts.py:36-39 | The extension ends the stripped name and is empty or a single dot-suffix. It is non-empty exactly when the stripped name has an extension dot, and is then the text from that dot on. |
| Artifacts.IsFiledump | pywhids/artifacts.py:53-54 | `is_filedump`: the name ends in `.bin` or `.bin.gz`; FiledumpIff relates it to the `.gz`-stripped name. |
| Artifacts.FiledumpIff | pywhids/artifacts.py:53-54 | A name is a file dump exactly when, after dropping a trailing `.gz`, it still ends in `.bin`. |
| Artifacts.Filenames | pywhids/artifacts.py:79-81 | One name per entry, in list order (a pointwise unfolding; HasFileIff and HasReportIff use it). |
| Artifacts.FirstNamed | pywhids/artifacts.py:103-106 | Nothing is found exactly when no entry has the name; otherwise the result is an entry with the name and no earlier entry has it. |
| Artifacts.File | pywhids/artifacts.py:103-106 | The scan returns the first entry with the name, or nothing. |
| Artifacts.HasFile | pywhids/artifacts.py:100-101 | `_has_file`: the name is among the entry names; HasFileIff proves it holds exactly when `_file` finds an entry. |
| Artifacts.HasFileIff | pywhids/artifacts.py:100-106 | `_has_file` holds exactly when `_file` finds an entry. |
| Artifacts.ArtifactNamed | pywhids/artifacts.py:108-112 | Absent exactly when no entry has the name; otherwise the artifact is built from the first matching entry, with the record's base URL and endpoint uuid. |
| Artifacts.HasReport | pywhids/artifacts.py:114-115 | `has_report`: `report.json.gz` or `report.json` is present; HasReportIff restates it over the entries. |
| Artifacts.HasReportIff | pywhids/artifacts.py:114-115 | A report is present exactly when some entry is named `report.json` or `report.json.gz`. |
| Artifacts.ArtifactsOf | pywhids/artifacts.py:120-127 | The generator yields, in list order, the artifacts of exactly the entries whose match verdict differs from `exclude`. |
| Artifacts.SelectedMatch | pywhids/artifacts.py:124-127 | Every yielded artifact matches when `exclude` is false and does not match when it is true. |
| Artifacts.ArtifactsPartition | pywhids/artifacts.py:120-127 | The include and the exclude call of one pattern split the file list between them, counting repeats. |
| Artifacts.ArtifactsInOrder | pywhids/artifacts.py:122-127 | The selected entries are a subsequence of the file list. |
| Artifacts.ReportOrEvent | pywhids/artifacts.py:117-118 | The verdict of `re.search` with the report/event pattern: one of the four names, optionally followed by a single final newline. ExclReportEventExact and ReportIsExcluded carry its consequences. |
| Artifacts.ArtifactsExclReportEvent | pywhids/artifacts.py:117-118 | Yields the exclude-selection of the report/event pattern; no yielded name is one of the four report or event names. |
| Artifacts.ExclReportEventExact | pywhids/artifacts.py:117-118 | An entry is kept exactly when the pattern does not match its name, with its full multiplicity. |
| Artifacts.ReportIsExcluded | pywhids/artifacts.py:114-118 | When a report is present, the exclude-selection leaves out at least one entry. |
| ApiClient.ApiRoute | pywhids/client.py:35-38 | The URL's trailing slashes and the path's leading slashes are removed, and one `/` joins them. The character after the joining `/` is not a `/`. When the stripped URL is non-empty, the character before it is not a `/` either. |
| ApiClient.RStripSlashes | pywhids/client.py:36 | Extra trailing slashes do not change the stripped URL. |
| ApiClient.LStripSlashes | pywhids/client.py:37 | Extra leading slashes do not change the stripped path. |
| ApiClient.RouteIgnoresExtraSlashes | pywhids/client.py:36-37 | Adding trailing slashes to the URL or leading slashes to the path gives the same route. |
| ApiClient.RouteOfCleanParts | pywhids/client.py:35-38 | A URL without a trailing slash and a path without a leading slash are joined unchanged with one `/`. |
| ApiClient.Request | pywhids/client.py:40-47 | Data is returned exactly when the status is 200 and the error text is empty. Status 200 with an error text raises `APIError` with it. Any other status raises `UnexpectedStatusError` with the code. |
| ApiClient.ApiTimestamp | pywhids/client.py:14-17 | The timestamp is exactly the ISO text followed by `Z`: one character longer, starting with the ISO text and ending with `Z`. |
| ApiClient.SinceQuery | pywhids/client.py:55-58 | The query has a `since` parameter exactly when `since` is a datetime, and then holds its API timestamp. |
| ApiClient.Group | pywhids/client.py:62-63 | One record per entry of a uuid's list, in order, each tagged with that uuid (a pointwise unfolding; the partners are FlattenedLength and FlattenedUuids). |
| ApiClient.FlattenedAppend | pywhids/client.py:61-63 | Flattening a listing in two parts gives the first part's records before the second's. |
| ApiClient.FlattenedSingle | pywhids/client.py:61-63 | A one-key listing yields exactly that key's group. |
| ApiClient.FlattenedLength | pywhids/client.py:61-63 | One record per (uuid, entry) pair. |
| ApiClient.FlattenedUuids | pywhids/client.py:61-63 | A uuid not in the listing owns no record. |
| ApiClient.AppendGroup | pywhids/client.py:62-63 | The inner loop appends one record per entry of the uuid's list, in order. |
| ApiClient.FlattenListing | pywhids/client.py:61-63 | The nested loops yield the reference flattening of the listing. |
| ApiClient.Client.constructor | pywhids/client.py:22-33 | The session holds the URL, the key, the verify flag and the `X-Api-key` header. |
| ApiClient.Client.Artifacts | pywhids/client.py:53-63 | Requests the artifacts route with the `since` query. A failing reply gives that error. Otherwise the nested loops yield the listing flattened in key-then-list order. |
| SyncIocs.UuidOf | edr-plugins/misp/sync_iocs.py:37-40 | An object result gives its `uuid` attribute; a dict gives its `uuid` key, and nothing when the key is missing. |
| SyncIocs.UuidsFromSearch | edr-plugins/misp/sync_iocs.py:34-41 | Succeeds exactly when every result has a uuid (else the `KeyError`), and then gives one uuid per result, in order. |
| SyncIocs.IocFromAttribute | edr-plugins/misp/sync_iocs.py:50-51 | The IOC takes the attribute's uuid, value and type, its event uuid as group uuid, and the given source (a field-by-field unfolding; the partner is IocsFromAttributesFacts). |
| SyncIocs.IocsFromAttributes | edr-plugins/misp/sync_iocs.py:43-48 | The loop yields the IOCs of exactly the allowed-type attributes, in order, with the given group uuid. |
| SyncIocs.IocsFromAttributesFacts | edr-plugins/misp/sync_iocs.py:43-48 | Every IOC has an allowed type, the given group uuid and the given source; there is one per allowed attribute. |
| SyncIocs.Tagged | edr-plugins/misp/sync_iocs.py:58-62 | Tagging sets each attribute's event uuid and changes nothing else (a pointwise unfolding; the partner is EmittedTags). |
| SyncIocs.YieldTagged | edr-plugins/misp/sync_iocs.py:57-59 | The inner loop appends the tagged attributes in order. |
| SyncIocs.YieldEvent | edr-plugins/misp/sync_iocs.py:56-63 | One event yields its own attributes, then each object's attributes, all tagged with its uuid. |
| SyncIocs.EmitAttributes | edr-plugins/misp/sync_iocs.py:54-63 | The generator yields the reference emission: event after event, in uuid order. |
| SyncIocs.EmittedTags | edr-plugins/misp/sync_iocs.py:54-63 | Every emitted attribute is tagged with one of the requested uuids. |
| SyncIocs.EmittedAppend | edr-plugins/misp/sync_iocs.py:55-63 | Emitting two uuid lists one after the other emits the first list's attributes first. |
| SyncIocs.IndexQueryFor | edr-plugins/misp/sync_iocs.py:69-74 | The index is restricted to published events unless `all` is set, and filtered by timestamp exactly when `since` is given. |
| SyncIocs.Sync | edr-plugins/misp/sync_iocs.py:65-90 | Sends the index query. It fails exactly when some index result lacks a uuid. Otherwise it issues the delete call, then the add call, for the attributes emitted for the index's uuids. |
| SyncIocs.Classify | edr-plugins/misp/sync_iocs.py:76-87 | The loop's two lists are the IOCs of the attributes that pass the add test and the delete test, each in emission order. |
| SyncIocs.AtMostOneList | edr-plugins/misp/sync_iocs.py:80-87 | Counting repeats, the two lists together hold no attribute more often than the emission does. |
| SyncIocs.Classification | edr-plugins/misp/sync_iocs.py:77-87 | An emitted attribute is added exactly when it is recent, has `to_ids` and an allowed type. It is deleted exactly when it is recent, lacks `to_ids` and has an allowed type. An attribute dated before `since` lands nowhere. |
| SyncIocs.ListsInOrder | edr-plugins/misp/sync_iocs.py:76-87 | Both lists are subsequences of the emission. |
| SyncIocs.CallOrder | edr-plugins/misp/sync_iocs.py:89-90 | The delete call comes before the add call, and every IOC sent has an allowed type and the sync's source. |

## Left out

- I/O and foreign calls are parameters or recorded results; they are not modelled further:
  - HTTP through `requests`.
  - PyMISP, including `add_sighting`, `search_index` and `get_event`.
  - The manager's `add_iocs`/`delete_iocs`.
  - `Artifact.content`, `Client.endpoint`, `EventArtifacts.endpoint` (with its lazy cache), `event` and `report`. These download and JSON-decode files.
- Event streams, the asyncio/websocket loop, the reporting plugin and the `__main__` blocks are not part of this model. One consequence: the CLI's `timedelta(args.cache_ttl)` (edr-plugins/misp/sightings.py:195) reads the TTL as days although its help text says minutes.
- `ipaddress.ip_address` is the abstract parameter `parseIp`. `re` is modelled only for the one fixed pattern of `artifacts_excl_report_event`; `artifacts` takes the compiled pattern's verdict as a function.
- `datetime.fromisoformat` is not modelled. Timestamps are modelled as the text handed to it. A MISP timestamp's date is a day number, and a `datetime` is its `isoformat(timespec="seconds")` text.
- ApiClient.ApiTimestamp: does not model the tz handling, whose `t.replace(...)` result is discarded (pywhids/client.py:16), nor the `+00:00Z` text an aware datetime would give.
- Text.Lower: maps only ASCII `A`-`Z`; Python's full Unicode case mapping is not modelled.
- Sightings.Display: renders JSON lists and dicts as the placeholders `[...]` and `{...}`, not Python's `str` of them. Numbers are integers, since floats are not modelled.
- Sightings.SightCache.Update: stamps every value with one clock reading `now`, where the source reads `datetime.now()` once per value.
- Cache keys are Dafny values. Python's hashing makes `1` and `True` the same key and rejects lists and dicts as keys (`TypeError`); neither is modelled.
- `emit_attributes` mutates the attribute objects it yields; the model yields tagged copies. Aliasing between two events that share attribute objects is therefore not captured.
- Generators are modelled as the full sequence they yield; their laziness is not.
- Default arguments are explicit parameters that callers pass: `cache_ttl=timedelta(minutes=1)` (edr-plugins/misp/sightings.py:103), `pattern=".*", exclude=False` (pywhids/artifacts.py:120), `verify=True` (pywhids/client.py:22), `since=None` (pywhids/client.py:53) and `source=""` (edr-plugins/misp/sync_iocs.py:50). A call that relies on a default is the call with that value.
- Logging is not modelled: the `print` in `on_event` (edr-plugins/misp/sightings.py:162) and the `print_stderr` of each IOC (edr-plugins/misp/sync_iocs.py:82, 86).
- ApiClient.Request: the body is a decoded reply with an `error` text and a `data` field. A body that is not JSON (`resp.json()` raising), a missing `error` or `data` key (`KeyError`) and an `error` that is not a string (any such value is unequal to `""` and raises `APIError`) are not modelled (pywhids/client.py:43-46).
- Artifacts.SplitExt: follows POSIX `posixpath.splitext` only; on Windows `ntpath` also treats `\` as a separator, which is not modelled.
- An exception raised by `on_event` propagates out of the stream consumer's loop (pywhids/streams.py:58-64) and ends it. The model's extraction-failure outcome of `OnEvent` stands for that raise; the consumer loop is not part of this model.
- `Event.event_id`, `timestamp`, `signature`, `json` and `data` are direct `get` calls or serialisation, and have no separate lemmas.
- `EventArtifacts.creation` and `event_hash` are not modelled; they read fields of the record's JSON.
- A missing `name`, `size`, `timestamp`, `files` or `base-url` key in an artifact record (`KeyError`) is not modelled: records are typed.
- The `IOC` class (pywhids/ioc.py) is a plain datatype. Its random-id branch is not modelled, and neither is its `uuid` parameter shadowing the `uuid` module.
