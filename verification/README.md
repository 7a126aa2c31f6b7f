# rupnp core in Dafny

This project models the core of rupnp. rupnp is a Ruby UPnP library built on EventMachine. It has two halves:

- A **control point** discovers devices with SSDP. It sends `M-SEARCH` and listens for `NOTIFY`. It builds a remote device from the notification and its description, calls SOAP actions on remote services, and subscribes to GENA events.
- A **device** announces itself with SSDP `NOTIFY` messages (`ssdp:alive`, `ssdp:byebye`, `ssdp:update`). It answers `M-SEARCH` requests.

There is one Dafny module per core Ruby file, plus two shared modules:

- `RubyText` models the Ruby `String`, `Array` and `Hash` operations the code relies on: `downcase`, `upcase`, `strip`, `chomp`, `to_i`, `Integer#to_s`, `readline`, `each_line`, `Array#delete` and `Hash#[]` returning nil.
- `HttpMatch` models the regular expressions of the two HTTP codecs and of the event subscriber. Each is an explicit leftmost, greedy, backtracking search. Its soundness is stated in the function's own contract and its completeness in lemmas.

Parts of the model that follow the code rather than the documentation:

- **Codecs.** `Http` models `RUPNP::HTTP`. `SsdpHttp` models `RUPNP::SSDP::HTTP`, which differs from it in two regular expressions. Every SSDP class (the searcher, the listener and the search responder) ends up using `SSDP::HTTP`, and that codec rejects every SSDP request line (Findings, first two rows). The consumers `SsdpSearcher`, `SsdpListener` and `SearchResponder` are therefore modelled with the `RUPNP::HTTP` patterns, which is the behaviour the code evidently intends. `SsdpListener.ReceiptWithSsdpCodec` and `SearchResponder.OutcomeAsWritten` keep the codec as written.
- **`update_expiration`.** `RemoteDevice#update_expiration` reads `@notification`, not its argument (lib/rupnp/cp/remote_device.rb:295-298). So `update` refreshes the expiration from the first notification it stored. `CpRemoteDevice.RemoteDevice.Update` does the same.
- **`confgid`.** `fetch` reads the header `confgid.upnp.org`, while `update` reads `configid.upnp.org`. So a notification's `CONFIGID.UPNP.ORG` is never seen by `fetch`. `CpRemoteDevice.ConfigIdSpelling` states this.
- **Control point event server.** `CP::EventServer` compares an event's full callback URL with the request URI. A device sends the path part only, so a real notification finds no event. The model keeps the comparison as written (`CpEventServer.Decide`). It also leaves out the `@add_event_url` channel, which the server never reads. Nothing in the library calls `CP::EventServer.add_event` either. So removing the stray `}` of the callback URL (Findings) does not by itself deliver a notification through this server: `CpRemoteService.CallbackPathMissesCpEventServer` states that the corrected callback path equals no event's callback URL. The corrected half of that finding is stated against the pair table that `RUPNP::EventServer` keeps.
- **`SubscribeResponse`.** A second `subscribe_to_event` call overwrites `@callback_url` before the first response arrives. `CpRemoteService.RemoteService.SubscribeResponse` reads the current value, as the code does.
- **`boolean`.** The data type `boolean` is in none of the conversion lists. The code then converts the value to nothing, and a response holding it gives `{}`. `CpRemoteService.ConvertByList` states this.
- **Notifier and device.** Lines that cannot run as written are modelled by what they evidently mean:
  - `options.delete[:try_number]`, a method call that is then indexed, is read as `options.delete(:try_number)`;
  - `subtype` and `options` are read as `@subtype` and `@options` outside `initialize`;
  - `DEFAULT_M_SEARCH_TRY`, which `Notifier` cannot see, becomes `SsdpNotifier.DefaultNotifyTry`, which is 2;
  - in lib/rupnp/device.rb, each configuration value is read from the caller's hash; the code indexes the `CONFIG` key arrays with a Symbol, which raises TypeError (lines 71 and 75);
  - the default boot id 1 goes to `@boot_id`; the code assigns `@bootid`, which nothing reads (line 81).
- **Parameters.** Clock, randomness and environment values are parameters:
  - `Time.now` is `now`;
  - `Time.parse` is `parseDate`;
  - `usn2udn` is a function parameter;
  - `SSDP.notify`, which no file of the library defines (lib/rupnp/ssdp.rb defines only `search` and `listen`), is an external call that `UpnpDevice.Device.Notify` records; as written, the first call would raise NoMethodError;
  - `USearchResponder` does not itself include `peer_info`, `log` or `urn_are_equivalent?`; the model assumes the class that includes it supplies them;
  - the random wait is a `seed`;
  - `DATE`, `USER_AGENT` and `HOST_IP` are strings;
  - the `EVENT_SUB_DEFAULT_*` constants are arguments;
  - the subscribed URI's host is `uriHost`;
  - the SOAP response is a given value.
- **Time.** Times are whole seconds.

## Model

| member | source | states |
|---|---|---|
| `Tools.BuildUrl` | lib/rupnp/tools.rb:11-14 | the URL starts with the base; exactly one '/' joins base and rest: one is added iff the base has none at its end and one leading '/' of the rest is dropped; the length follows |
| `Tools.BuildUrlSlashInsensitive` | lib/rupnp/tools.rb:11-14 | all four placements of the joining slash give the same URL `base/rest` |
| `BuildUrlMixin.BuildUrl` | lib/rupnp/build_url.rb:5-8 | the URL is the base followed by the rest without its leading '/', with a '/' between them iff the base has none at its end |
| `BuildUrlMixin.AgreesWithTools` | lib/rupnp/build_url.rb:5-8 | the mixin and `Tools.build_url` compute the same URL for every input |
| `Tools.SnakeCase` | lib/rupnp/tools.rb:21-24 | the result holds no upper-case letter |
| `Tools.InsertUnderscoresAtEveryBoundary` | lib/rupnp/tools.rb:22 | the one-pass `gsub` puts an underscore exactly before each upper-case letter that follows a character which is neither upper case nor '_' (an independent per-position definition) |
| `Tools.InsertUnderscoresNoUpper` | lib/rupnp/tools.rb:22 | a text with no upper-case letter is left unchanged by the `gsub` |
| `Tools.SnakeCaseIdempotent` | lib/rupnp/tools.rb:21-24 | snake-casing a snake-cased name changes nothing |
| `Tools.InsertUnderscoresOnlyAddsUnderscores` | lib/rupnp/tools.rb:22 | removing the underscores from the `gsub`'s result gives back the input without its underscores |
| `Tools.DowncaseKeepsUnderscores` | lib/rupnp/tools.rb:23 | downcasing commutes with removing underscores |
| `Tools.SnakeCaseOnlyInsertsUnderscores` | lib/rupnp/tools.rb:22-23 | snake-case differs from downcase only in the underscores it inserts |
| `Tools.SnakeCaseIconList` | lib/rupnp/tools.rb:17 | `iconList` becomes `icon_list`, as documented |
| `Tools.SnakeCaseEventSubUrl` | lib/rupnp/tools.rb:18 | `eventSubURL` becomes `event_sub_url`, as documented |
| `Tools.MajorVersion` | lib/rupnp/tools.rb:46-47 | `split(/-/).first`: the dash-free prefix that ends at the first dash or at the end; None iff the text is all dashes (Ruby drops trailing empty fields) |
| `Tools.MajorVersionOf` | lib/rupnp/tools.rb:46-47 | a version `major` followed by nothing or by `-...` has major version `major` |
| `Tools.UrnAreEquivalent` | lib/rupnp/tools.rb:31-55 | a result (true or false) exists iff both texts, with a leading `urn:` removed, match the URN pattern; None is the NoMethodError of indexing a nil match |
| `Tools.UrnAreEquivalentSymmetric` | lib/rupnp/tools.rb:43-54 | equivalence, and its failure, do not depend on the order of the arguments |
| `Tools.StripUrnPrefixOfText` | lib/rupnp/tools.rb:32-39 | a URN text with or without `urn:` is reduced to the same body `domain:kind:type:version` |
| `Tools.UrnCapturesOf` | lib/rupnp/tools.rb:32-42 | a well-formed URN's match captures the last word run of the domain, then kind, type and version |
| `Tools.UrnEquivalence` | lib/rupnp/tools.rb:41-54 | two well-formed URNs are equivalent iff their domains' last word runs, kinds and types are equal and their major versions are equal |
| `Tools.StandardDomain` | lib/rupnp/tools.rb:41 | the standard domain `schemas-upnp-org` is captured as `org` |
| `Tools.MinorVersionIgnored` | lib/rupnp/tools.rb:46-50 | URNs that differ only after the first '-' of the version are equivalent |
| `Tools.MajorVersionsDiffer` | lib/rupnp/tools.rb:46-54 | URNs whose major versions differ are not equivalent, whatever else they share |
| `HttpMatch.MatchRequestLine` | lib/rupnp/http.rb:34 | a match keeps the whole line as `cmd`; its verb is non-empty and drawn from the verb class; its version is three characters |
| `HttpMatch.RequestLineMatchIsLeftmostGreedy` | lib/rupnp/http.rb:34 | whenever the line has any match, the search finds one that starts no later; at the same start, it has the same verb and a path that is no shorter (greedy `(.*)`) |
| `HttpMatch.SlashSeparatorSplitsRequestText` | lib/rupnp/http.rb:34-35 | a request line `VERB path HTTP/d.d` CR LF is split into exactly that verb, path and version |
| `HttpMatch.SpacesSeparatorNeedsSpaceBeforeDigit` | lib/rupnp/ssdp/http.rb:22 | `HTTP\s+(\d\.\d)` can only match a line in which some white space is directly followed by a digit |
| `HttpMatch.SpacesSeparatorRejectsRequestText` | lib/rupnp/ssdp/http.rb:22 | hence every request line written `HTTP/d.d` fails the SSDP pattern |
| `HttpMatch.MatchHeaderLine` | lib/rupnp/http.rb:20 | a match has a non-empty name from the name class and a value with no line break |
| `HttpMatch.HeaderLineMatchIsLeftmost` | lib/rupnp/http.rb:20 | whenever a name followed by ':' occurs in the line, the line matches, at the leftmost such name |
| `HttpMatch.HeaderLineOf` | lib/rupnp/http.rb:20 | `Name:rest` with a name from the class matches with that name and the first line of `rest` after white space |
| `HttpMatch.DottedHeaderLine` | lib/rupnp/ssdp/http.rb:12 | with the class `[\w-]`, a dotted name `a.b.c:` matches only its last segment `c` |
| `HttpMatch.HeaderEntry` | lib/rupnp/http.rb:20-23 | a line gives an entry iff it matches; the key is non-empty and has no upper-case letter |
| `HttpMatch.HeaderMap` | lib/rupnp/http.rb:18-25 | every key of the headers hash is non-empty and lower case |
| `HttpMatch.HeaderMapKeys` | lib/rupnp/http.rb:19-23 | a key is in the hash iff some line gives an entry with that key |
| `HttpMatch.HeaderMapLastWins` | lib/rupnp/http.rb:19-23 | the value stored under a key is the one from the last line that gives that key |
| `HttpMatch.HeaderMapOfNoHeaders` | lib/rupnp/ssdp/http.rb:9-18 | lines none of which match give an empty hash |
| `HttpMatch.HeaderMapStep` | lib/rupnp/http.rb:19-23 | one more line either leaves the hash unchanged or stores its entry, replacing an earlier value |
| `HttpMatch.CollectHeaders` | lib/rupnp/http.rb:18-25 | the `each_line` loop builds exactly the headers hash of all lines |
| `HttpMatch.StatusSearchIffEndsWith` | lib/rupnp/http.rb:11 | the unanchored `=~ /\s*HTTP\/1.1 200 OK\r\n\z/i` succeeds iff the line ends with a status-OK text |
| `HttpMatch.StatusOkShape` | lib/rupnp/http.rb:11 | an accepted line ends with CR LF, has `200` and `OK` (either case) in place, and is at least 17 characters long |
| `HttpMatch.StatusOkCaseInsensitive` | lib/rupnp/http.rb:11 | acceptance does not change when the line is downcased (`/i`) |
| `HttpMatch.StatusOkAnyPrefix` | lib/rupnp/http.rb:11 | text before the status does not change acceptance (no `^` anchor) |
| `HttpMatch.StatusOkCanonical` | lib/rupnp/http.rb:11 | `HTTP/1.1 200 OK` CR LF and its lower-case form are status-OK texts |
| `HttpMatch.StatusOkAccepts` | lib/rupnp/http.rb:11 | any line that ends with a status-OK text is accepted |
| `HttpMatch.StatusOkNeedsCrLf` | lib/rupnp/http.rb:11 | a line that does not end with CR LF is refused |
| `HttpMatch.MatchResponseLine` | lib/rupnp/cp/event_subscriber.rb:35 | a match gives non-empty digits and a non-empty reason with no line break |
| `HttpMatch.ResponseLineOf` | lib/rupnp/cp/event_subscriber.rb:35-37 | `HTTP/1.1 <digits> <reason>` gives exactly those digits and that reason |
| `RubyText.ReadLine` | lib/rupnp/http.rb:33 | `readline` raises (None) iff the data is empty; otherwise the line and the rest make up the data |
| `RubyText.IntToSRoundTrip` | lib/rupnp/ssdp/notifier.rb:53 | `to_i` reads back what `Integer#to_s` wrote, for every integer |
| `RubyText.ArrayDelete` | lib/rupnp/control_point.rb:104 | `Array#delete` removes every occurrence of the value and keeps every other element as often as before |
| `RubyText.ArrayDeleteKeepsOrder` | lib/rupnp/control_point.rb:104 | deleting from a concatenation deletes from each part, so the kept elements stay in order |
| `Http.IsHttpStatusOk` | lib/rupnp/http.rb:10-12 | None (EOFError) iff the data is empty; otherwise true iff the first line ends with a status-OK text, and the rest is what is left to read |
| `Http.GetHttpVerb` | lib/rupnp/http.rb:32-39 | None iff the data is empty; a parsed line keeps the whole first line as `cmd`, has a non-empty verb and a three-character version; the rest is left to read |
| `Http.GetHttpHeaders` | lib/rupnp/http.rb:17-26 | the hash holds each matching line's entry, named with `[\w.-]`, stripped, the last line winning |
| `Http.GetHttpVerbOfRequest` | lib/rupnp/http.rb:34-35 | any `VERB path HTTP/d.d` line parses to that verb, path and version |
| `Http.GetHttpVerbOfNotify` | lib/rupnp/http.rb:34-35 | `NOTIFY * HTTP/1.1` parses to verb NOTIFY, path `*`, version 1.1 |
| `Http.GetHttpVerbOfMSearch` | lib/rupnp/http.rb:34-35 | `M-SEARCH * HTTP/1.1` parses to verb M-SEARCH, path `*`, version 1.1 |
| `Http.HeaderEntryOfDottedName` | lib/rupnp/http.rb:20-22 | a dotted header name is kept whole and downcased, with its stripped value |
| `Http.BootIdHeaderKeyedWhole` | lib/rupnp/http.rb:20-22 | `BOOTID.UPNP.ORG: 7` is stored under `bootid.upnp.org` |
| `SsdpHttp.IsHttpStatusOk` | lib/rupnp/ssdp/http.rb:5-7 | as `RUPNP::HTTP`: None iff empty data; true iff the first line ends with a status-OK text |
| `SsdpHttp.StatusCheckAgrees` | lib/rupnp/ssdp/http.rb:5-7 | the two codecs' status checks agree on every input |
| `SsdpHttp.GetHttpVerb` | lib/rupnp/ssdp/http.rb:20-27 | None iff empty data; a parsed line has a non-empty `\w+` verb and keeps the line as `cmd` |
| `SsdpHttp.GetHttpHeaders` | lib/rupnp/ssdp/http.rb:9-18 | the hash of all matching lines, with names from `[\w-]` |
| `SsdpHttp.GetHttpVerbRejectsRequest` | lib/rupnp/ssdp/http.rb:22 | every `VERB path HTTP/d.d` line whose path does not start with a digit gives nil |
| `SsdpHttp.GetHttpVerbRejectsNotify` | lib/rupnp/ssdp/http.rb:22 | `NOTIFY * HTTP/1.1` gives nil |
| `SsdpHttp.GetHttpVerbRejectsMSearch` | lib/rupnp/ssdp/http.rb:22 | `M-SEARCH * HTTP/1.1` gives nil |
| `SsdpHttp.HeaderEntryOfDottedName` | lib/rupnp/ssdp/http.rb:12-14 | a dotted header name is keyed by its last segment only |
| `SsdpHttp.BootIdHeaderKeyedOrg` | lib/rupnp/ssdp/http.rb:12-14 | `BOOTID.UPNP.ORG: 7` is stored under `org` |
| `MSearch.Build` | lib/rupnp/ssdp/m_search.rb:12-21 | an `M-SEARCH *` request with exactly HOST, MAN, MX, ST and USER-AGENT; HOST is the multicast address, MAN is `"ssdp:discover"` with its quotes, ST and USER-AGENT are passed through, MX is empty when no wait time is given |
| `MSearch.MxText` | lib/rupnp/ssdp/m_search.rb:16 | the MX text is empty iff no wait time is given, and otherwise reads back as the wait time |
| `MSearch.MxReadsBack` | lib/rupnp/ssdp/m_search.rb:16 | the MX header of a built request reads back as the requested wait time |
| `Ssdp.KnownTarget` | lib/rupnp/ssdp.rb:13-16 | only the symbols `:all` and `:root` have a known target text |
| `Ssdp.Resolve` | lib/rupnp/ssdp.rb:20 | `:all` becomes `ssdp:all`, `:root` becomes `upnp:rootdevice`, any other target is unchanged |
| `Ssdp.ResolveIdempotent` | lib/rupnp/ssdp.rb:20 | resolving twice is resolving once |
| `Ssdp.SearchOptions.constructor` | lib/rupnp/ssdp.rb:19-22 | the options hash starts with no search target and the given wait time and try number |
| `Ssdp.Search` | lib/rupnp/ssdp.rb:19-22 | the options get the resolved target, the rest unchanged; the new searcher sends an M-SEARCH for that target, the try number or 2 times |
| `SsdpSearcher.Copies` | lib/rupnp/ssdp/searcher.rb:32-35 | `n.times` sends n copies, none for a negative count |
| `SsdpSearcher.ReceiptOf` | lib/rupnp/ssdp/searcher.rb:43-49 | empty data raises; otherwise a reply is accepted iff its status line is a 200 OK |
| `SsdpSearcher.Searcher.constructor` | lib/rupnp/ssdp/searcher.rb:21-28 | the M-SEARCH is built from target, wait time and user agent; the count defaults to 2 |
| `SsdpSearcher.Searcher.PostInit` | lib/rupnp/ssdp/searcher.rb:31-36 | the M-SEARCH datagram is sent to the multicast group, count times; nothing else changes |
| `SsdpSearcher.Searcher.ReceiveData` | lib/rupnp/ssdp/searcher.rb:39-50 | an accepted reply pushes exactly its header hash to the discovery channel; any other pushes nothing |
| `SsdpSearcher.DefaultSendsTwo` | lib/rupnp/ssdp/searcher.rb:24 | by default the request goes out twice |
| `SsdpListener.Classify` | lib/rupnp/ssdp/listener.rb:29-38 | nil is "no HTTP command"; verb M-SEARCH is ignored; a notification is exactly an upcased NOTIFY on `*` with version 1.1 |
| `SsdpListener.ReceiptOf` | lib/rupnp/ssdp/listener.rb:21-40 | empty data raises; every other datagram is classified |
| `SsdpListener.ReceiptWithSsdpCodec` | lib/rupnp/ssdp/listener.rb:27 | the same with the codec the class really includes: empty data raises |
| `SsdpListener.WarningOf` | lib/rupnp/ssdp/listener.rb:29-37 | a warning is logged exactly for an unparsed line and for an unknown command |
| `SsdpListener.Listener.constructor` | lib/rupnp/ssdp/listener.rb:14-18 | no notification, no warning yet |
| `SsdpListener.Listener.ReceiveData` | lib/rupnp/ssdp/listener.rb:21-41 | a notification pushes exactly its header hash; a warning is recorded exactly when one is due; nothing else changes |
| `SsdpListener.NotifyIsNotification` | lib/rupnp/ssdp/listener.rb:34-40 | `NOTIFY * HTTP/1.1` is a notification |
| `SsdpListener.NotifyDroppedWithSsdpCodec` | lib/rupnp/ssdp/listener.rb:27-31 | with the SSDP codec as written, the same datagram is "no HTTP command" |
| `SsdpListener.MSearchIsIgnored` | lib/rupnp/ssdp/listener.rb:32-33 | an M-SEARCH is ignored without a warning |
| `SsdpListener.VerbCase` | lib/rupnp/ssdp/listener.rb:32-35 | `notify` in lower case is a notification, while `m-search` in lower case is an unknown command (the M-SEARCH test is case-sensitive) |
| `SsdpNotifier.NormaliseType` | lib/rupnp/ssdp/notifier.rb:17 | `:root` becomes `upnp:rootdevice`; any other type is its own text |
| `SsdpNotifier.NtsValue` | lib/rupnp/ssdp/notifier.rb:56 | the NTS value is `ssdp:` followed by the subtype |
| `SsdpNotifier.Usn` | lib/rupnp/ssdp/notifier.rb:43-47 | a `uuid...` type is its own USN; any other is `uuid:<uuid>::<type>` |
| `SsdpNotifier.PreviousBootId` | lib/rupnp/ssdp/notifier.rb:83 | `(boot_id - 1) & 0x7fffffff`: within 31 bits, one less, with 0 wrapping to 2^31-1 |
| `SsdpNotifier.NotifyHeaders` | lib/rupnp/ssdp/notifier.rb:48-89 | alive has 10 headers, byebye 6, update 9 |
| `SsdpNotifier.AliveHeaderNames` | lib/rupnp/ssdp/notifier.rb:49-63 | the alive headers, in order: HOST, CACHE-CONTROL, LOCATION, NT, NTS, SERVER, USN, BOOTID, CONFIGID, SEARCHPORT |
| `SsdpNotifier.ByeByeHeaderNames` | lib/rupnp/ssdp/notifier.rb:64-74 | the byebye headers, in order: HOST, NT, NTS, USN, BOOTID, CONFIGID |
| `SsdpNotifier.ByeByeHasNoLocation` | lib/rupnp/ssdp/notifier.rb:64-74 | a byebye carries neither LOCATION nor CACHE-CONTROL |
| `SsdpNotifier.UpdateHeaderNames` | lib/rupnp/ssdp/notifier.rb:75-88 | the update headers, in order: HOST, LOCATION, NT, NTS, USN, BOOTID, CONFIGID, NEXTBOOTID, SEARCHPORT |
| `SsdpNotifier.UpdateBootIds` | lib/rupnp/ssdp/notifier.rb:83-85 | an update announces the previous boot id as BOOTID and the current one as NEXTBOOTID |
| `SsdpNotifier.NotificationTypeHeaders` | lib/rupnp/ssdp/notifier.rb:55-58 | every notification carries its type as NT, its subtype as NTS, its USN and the multicast HOST |
| `SsdpNotifier.AliveTypeHeaders` | lib/rupnp/ssdp/notifier.rb:55-58 | the same for alive |
| `SsdpNotifier.ByeByeTypeHeaders` | lib/rupnp/ssdp/notifier.rb:68-70 | the same for byebye |
| `SsdpNotifier.UpdateTypeHeaders` | lib/rupnp/ssdp/notifier.rb:80-82 | the same for update |
| `SsdpNotifier.AliveHeaderAt` | lib/rupnp/ssdp/notifier.rb:49-63 | every alive header is found by name with its own value (names are distinct) |
| `SsdpNotifier.UpdateHeaderAt` | lib/rupnp/ssdp/notifier.rb:75-88 | every update header is found by name with its own value |
| `SsdpNotifier.Notifier.constructor` | lib/rupnp/ssdp/notifier.rb:16-23 | the type is normalised; the try number is removed from the options and becomes the count, 2 by default |
| `SsdpNotifier.Notifier.NotifyRequest` | lib/rupnp/ssdp/notifier.rb:42-90 | the request announces the notifier's type as NT |
| `SsdpNotifier.Notifier.PostInit` | lib/rupnp/ssdp/notifier.rb:26-33 | the request is appended count times (none if negative), the earlier datagrams stay, and the connection is closed |
| `SearchResponder.UuidAt` | lib/rupnp/ssdp/search_responder.rb:47 | a captured UUID is a non-empty run of hex digits and dashes |
| `SearchResponder.UrnKindAt` | lib/rupnp/ssdp/search_responder.rb:51 | a captured kind is non-empty and follows `urn:` |
| `SearchResponder.StDispatch` | lib/rupnp/ssdp/search_responder.rb:35-62 | a callback is always for at least one target; the lemmas below say which |
| `SearchResponder.AllTargets` | lib/rupnp/ssdp/search_responder.rb:36-44 | `ssdp:all` answers for the root device, the uuid, the device URN and each service URN, in that order |
| `SearchResponder.UuidTarget` | lib/rupnp/ssdp/search_responder.rb:47-50 | `uuid:x` is answered iff x is the device's uuid |
| `SearchResponder.DeviceUrnTarget` | lib/rupnp/ssdp/search_responder.rb:53-56 | a device URN is answered iff it is equivalent to the device's URN, and raises iff equivalence raises |
| `SearchResponder.OneEquivalentCounts` | lib/rupnp/ssdp/search_responder.rb:58 | the `one?` test holds iff exactly one service URN is equivalent |
| `SearchResponder.ServiceUrnTarget` | lib/rupnp/ssdp/search_responder.rb:57-60 | a service URN is answered iff exactly one of the device's services is equivalent to it |
| `SearchResponder.ClampedMx` | lib/rupnp/ssdp/search_responder.rb:67-69 | MX is read with `to_i` and capped at 5 |
| `SearchResponder.RandRange` | lib/rupnp/ssdp/search_responder.rb:71 | `rand(m)` draws below \|m\|, and below 1 when m is 0 |
| `SearchResponder.WaitBoundAsWritten` | lib/rupnp/ssdp/search_responder.rb:67-71 | the bound of the random wait as written is at least 1 |
| `SearchResponder.WaitBound` | lib/rupnp/ssdp/search_responder.rb:67-71 | the corrected bound lies in 1..5; it is MX when MX is in 1..5 and 5 when MX is larger |
| `SearchResponder.NegativeMxEscapesCap` | lib/rupnp/ssdp/search_responder.rb:67-71 | as written, MX = -n with n > 5 gives a wait bound of n, above the cap |
| `SearchResponder.WaitBoundAgrees` | lib/rupnp/ssdp/search_responder.rb:67-71 | for a positive MX the corrected bound is the code's bound |
| `SearchResponder.Wait` | lib/rupnp/ssdp/search_responder.rb:71 | the random wait is below the bound |
| `SearchResponder.Schedule` | lib/rupnp/ssdp/search_responder.rb:64-80 | unicast answers at once; multicast without MX is discarded; multicast with MX arms a timer below its bound |
| `SearchResponder.DecideSearch` | lib/rupnp/ssdp/search_responder.rb:26-80 | a search never reads past the request; a delayed answer is multicast with MX and uses its bound; an immediate one is unicast |
| `SearchResponder.Decide` | lib/rupnp/ssdp/search_responder.rb:16-30 | nil is an unknown command; NOTIFY is ignored; a `M-SEARCH * 1.1` line goes to the search; anything else is an unknown command |
| `SearchResponder.DecideAsWritten` | lib/rupnp/ssdp/search_responder.rb:16-24 | as written, on a parsed line it agrees with `Decide` |
| `SearchResponder.OutcomeOf` | lib/rupnp/ssdp/search_responder.rb:8-30 | only empty data raises on reading |
| `SearchResponder.OutcomeAsWritten` | lib/rupnp/ssdp/search_responder.rb:13-16 | with the codec as written, only empty data raises on reading |
| `SearchResponder.NilRequestLineCrashes` | lib/rupnp/ssdp/search_responder.rb:16 | as written, an unparsed line raises NoMethodError; corrected, it is an unknown command |
| `SearchResponder.MSearchCrashesAsWritten` | lib/rupnp/ssdp/search_responder.rb:14-16 | with the SSDP codec, every `M-SEARCH * HTTP/1.1` request raises |
| `SearchResponder.NotifyIsIgnored` | lib/rupnp/ssdp/search_responder.rb:16-18 | a NOTIFY is ignored |
| `SearchResponder.MSearchIsDispatched` | lib/rupnp/ssdp/search_responder.rb:20-30 | an `M-SEARCH * HTTP/1.1` request is decided on its headers |
| `SearchResponder.WrongManIsRefused` | lib/rupnp/ssdp/search_responder.rb:27-30 | a missing MAN, or one other than `"ssdp:discover"`, is refused |
| `SearchResponder.OnlyMSearchIsAnswered` | lib/rupnp/ssdp/search_responder.rb:20-30 | an answer, immediate or delayed, implies an M-SEARCH line with the right MAN |
| `SearchResponder.DelayIsBounded` | lib/rupnp/ssdp/search_responder.rb:66-72 | a delayed answer waits less than its bound, at most 5 seconds, and less than MX when MX is in 1..5 |
| `SearchResponder.MxDecidesMulticastOnly` | lib/rupnp/ssdp/search_responder.rb:65-80 | without MX a multicast search is discarded, while a unicast one is answered at once |
| `SearchResponder.ResponseUsn` | lib/rupnp/ssdp/search_responder.rb:88-94 | the USN is `uuid:<uuid>::<st>` for the root device and for URN targets, and `uuid:<uuid>` otherwise |
| `SearchResponder.ResponseUsnOfTargets` | lib/rupnp/ssdp/search_responder.rb:88-94 | the USN for the root device, the uuid and a URN target, as written out |
| `SearchResponder.NoUrnLine` | lib/rupnp/ssdp/search_responder.rb:90 | a `uuid:` target has no line starting `urn` |
| `SearchResponder.ResponseLines` | lib/rupnp/ssdp/search_responder.rb:95-108 | a response has 12 lines |
| `SearchResponder.Responder.constructor` | lib/rupnp/ssdp/usearch_responder.rb:13-15 | the responder keeps its device and options; nothing sent, no timer |
| `SearchResponder.Responder.Responses` | lib/rupnp/ssdp/search_responder.rb:87-111 | one response per target, in order |
| `SearchResponder.Responder.SendResponses` | lib/rupnp/ssdp/search_responder.rb:87-111 | the responses for the targets are sent, in order; nothing else changes |
| `SearchResponder.Responder.ReceiveData` | lib/rupnp/ssdp/search_responder.rb:8-84 | the outcome is `OutcomeOf` the datagram; an immediate answer is sent, a delayed one arms one timer below its bound, anything else sends nothing |
| `SearchResponder.Responder.Act` | lib/rupnp/ssdp/search_responder.rb:64-83 | carries out an outcome: send, arm one timer with a wait below the bound, or nothing |
| `ControlPoint.FindFrom` | lib/rupnp/control_point.rb:118-120 | the first device from position i with the given UDN, or none iff there is none |
| `ControlPoint.FindIndex` | lib/rupnp/control_point.rb:118-120 | the first device with the given UDN, or none iff there is none |
| `ControlPoint.RejectUdn` | lib/rupnp/control_point.rb:144 | `reject!`: every kept device was there and has another UDN; the list shrinks iff some device had the UDN |
| `ControlPoint.RejectUdnKeepsOthers` | lib/rupnp/control_point.rb:144 | a device with another UDN keeps its number of occurrences |
| `ControlPoint.ByeByeLogAsWritten` | lib/rupnp/control_point.rb:144-145 | as written, removing a device raises NoMethodError; otherwise "nothing removed" |
| `ControlPoint.RemovalRaisesAsWritten` | lib/rupnp/control_point.rb:145 | a device that has the UDN is removed, and then the code raises |
| `ControlPoint.ByeByeLog` | lib/rupnp/control_point.rb:144-145 | corrected: the removal is logged iff a device was removed |
| `ControlPoint.ControlPoint.constructor` | lib/rupnp/control_point.rb:43-51 | the wait time defaults to 5 and the other options are kept; no device, event server or timer yet |
| `ControlPoint.ControlPoint.FindDeviceByUdn` | lib/rupnp/control_point.rb:118-120 | the first known device with the UDN, none iff no device has it |
| `ControlPoint.ControlPoint.AddDevice` | lib/rupnp/control_point.rb:98-112 | a new device is appended and announced; a known UDN is replaced iff the new expiration is later; a device known only by USN raises on the nil lookup; afterwards the device is known |
| `ControlPoint.ControlPoint.OnNotification` | lib/rupnp/control_point.rb:137-149 | alive creates a remote device; byebye removes every device with the UDN and logs it; any other NTS is logged as unknown; nothing else changes |
| `ControlPoint.ControlPoint.OnDiscoveryResponse` | lib/rupnp/control_point.rb:153-156 | each discovery response creates a remote device |
| `ControlPoint.ControlPoint.SearchDevicesAndListen` | lib/rupnp/control_point.rb:125-157 | the search target is resolved into the options; a timer of wait time + 1 is armed, after which the listener starts unless only searching |
| `ControlPoint.ControlPoint.Start` | lib/rupnp/control_point.rb:61-64 | search, then listen after wait time + 1 |
| `ControlPoint.ControlPoint.SearchOnly` | lib/rupnp/control_point.rb:70-74 | search with a copy of the options and no listener |
| `ControlPoint.ControlPoint.SearchTimeout` | lib/rupnp/control_point.rb:129-136 | the fired timer goes; a listener starts iff that timer asked for one |
| `ControlPoint.ControlPoint.StartEventServer` | lib/rupnp/control_point.rb:79-84 | the port and server are set only once; the URL channel exists |
| `ControlPoint.ControlPoint.AddEventUrl` | lib/rupnp/control_point.rb:81 | the pair is appended to the URL channel |
| `ControlPoint.ControlPoint.StopEventServer` | lib/rupnp/control_point.rb:89-93 | no server and no port afterwards |
| `ControlPoint.AddDeviceKeepsUdnsUnique` | lib/rupnp/control_point.rb:98-112 | appending an unknown device or replacing a known one keeps at most one device per UDN |
| `ControlPoint.ByeByeRemovesUdn` | lib/rupnp/control_point.rb:141-145 | after a byebye no device has the UDN, and UDNs stay unique |
| `CpRemoteDevice.FetchBootId` | lib/rupnp/cp/remote_device.rb:121-128 | NEXTBOOTID, else BOOTID, read with `to_i`; none iff both are missing |
| `CpRemoteDevice.FetchConfigId` | lib/rupnp/cp/remote_device.rb:129-130 | the config id is read from `confgid.upnp.org` iff that key is present |
| `CpRemoteDevice.ConfigIdSpelling` | lib/rupnp/cp/remote_device.rb:129 | a notification with BOOTID and CONFIGID gets a boot id but no config id |
| `CpRemoteDevice.MaxAgeFrom` | lib/rupnp/cp/remote_device.rb:299 | a captured max-age is a non-empty run of digits |
| `CpRemoteDevice.MaxAgeAt` | lib/rupnp/cp/remote_device.rb:299 | the same, for a match at a given position |
| `CpRemoteDevice.MaxAgeOfNotifierHeader` | lib/rupnp/cp/remote_device.rb:299 | the notifier's `max-age = n` reads back as n |
| `CpRemoteDevice.NoMaxAgeInEmpty` | lib/rupnp/cp/remote_device.rb:299 | an empty CACHE-CONTROL has no max-age |
| `CpRemoteDevice.Issued` | lib/rupnp/cp/remote_device.rb:303 | an empty DATE means now; otherwise the parsed date |
| `CpRemoteDevice.Expiration` | lib/rupnp/cp/remote_device.rb:294-304 | non-alive notifications expire after the default max-age; alive ones raise iff CACHE-CONTROL has no max-age; an expiration is never before the issue time |
| `CpRemoteDevice.AliveExpiresAfterMaxAge` | lib/rupnp/cp/remote_device.rb:294-304 | an alive notification with `max-age = n` and a date expires n seconds after that date |
| `CpRemoteDevice.VersionText` | lib/rupnp/cp/remote_device.rb:202-203 | the UPnP version is `major.minor` |
| `CpRemoteDevice.LocationDir` | lib/rupnp/cp/remote_device.rb:216 | the location up to and including its last '/' |
| `CpRemoteDevice.LocationDirOf` | lib/rupnp/cp/remote_device.rb:216 | a location `dir/file` gives back `dir/` |
| `CpRemoteDevice.UrlBase` | lib/rupnp/cp/remote_device.rb:211-218 | unless the device speaks UPnP 1.1, a URLBase is kept as is when it ends in '/' and gets one '/' appended otherwise; without URLBase, or on UPnP 1.1, the location's directory; either way the base ends with '/' or is empty |
| `CpRemoteDevice.UrlBaseSlashInsensitive` | lib/rupnp/cp/remote_device.rb:211-218 | a URLBase `b` and `b/` give the same base; a device without URLBase, or on UPnP 1.1, at `dir/file` gets `dir/` |
| `CpRemoteDevice.RemoveUuid` | lib/rupnp/cp/remote_device.rb:231 | removing `uuid:` never lengthens the text |
| `CpRemoteDevice.RemoveUuidOfUdn` | lib/rupnp/cp/remote_device.rb:231 | a UDN `uuid:x` gives x |
| `CpRemoteDevice.RemoveUuidIsOnePass` | lib/rupnp/cp/remote_device.rb:231 | `gsub` is one pass: `uuiuuid:d:` becomes `uuid:` |
| `CpRemoteDevice.DeviceInfoOf` | lib/rupnp/cp/remote_device.rb:220-234 | the required fields are copied, and each missing optional field becomes "" |
| `CpRemoteDevice.RemoteDevice.constructor` | lib/rupnp/cp/remote_device.rb:108-116 | the device keeps its notification; nothing fetched yet |
| `CpRemoteDevice.RemoteDevice.UpdateExpiration` | lib/rupnp/cp/remote_device.rb:294-304 | DATE and CACHE-CONTROL are copied from the stored notification; the expiration is set, or the call raises iff an alive notification has no max-age |
| `CpRemoteDevice.RemoteDevice.CopyHeaders` | lib/rupnp/cp/remote_device.rb:180-185 | ST, USN, SERVER, LOCATION and EXT are copied from the notification |
| `CpRemoteDevice.RemoteDevice.Fetch` | lib/rupnp/cp/remote_device.rb:120-141 | no boot id fails with "no BOOTID"; otherwise the ids and headers are copied, the expiration is set, and the description is requested from LOCATION, or the fetch fails without one |
| `CpRemoteDevice.RemoteDevice.DescriptionUnavailable` | lib/rupnp/cp/remote_device.rb:134-139 | a failed description request fails the device |
| `CpRemoteDevice.RemoteDevice.IsBadDescription` | lib/rupnp/cp/remote_device.rb:196-209 | good iff root, device namespace, spec version 1.x with a minor and a device are present; raises iff the minor is missing; the namespace and version are kept |
| `CpRemoteDevice.RemoteDevice.DescriptionReceived` | lib/rupnp/cp/remote_device.rb:143-162 | a good description with a UDN succeeds with its URL base, UDN without `uuid:` and device info; a bad one fails; success only with a good description |
| `CpRemoteDevice.RemoteDevice.Update` | lib/rupnp/cp/remote_device.rb:168-174 | the expiration is refreshed; the boot id becomes NEXTBOOTID (0 when missing); the config id changes only when CONFIGID is given |
| `CpRemoteService.SubscriptionCounter.constructor` | lib/rupnp/cp/remote_service.rb:39 | the class-wide counter starts at 0 |
| `CpRemoteService.SubscriptionCounter.Next` | lib/rupnp/cp/remote_service.rb:44-46 | each subscription gets the next number |
| `CpRemoteService.EventPathsDistinct` | lib/rupnp/cp/remote_service.rb:148 | different numbers give different event paths |
| `CpRemoteService.EventPath` | lib/rupnp/cp/remote_service.rb:177 | an event path starts with '/' |
| `CpRemoteService.CallbackUrlAsWritten` | lib/rupnp/cp/remote_service.rb:149 | as written, the callback URL ends with a stray `}` |
| `CpRemoteService.CallbackUrl` | lib/rupnp/cp/remote_service.rb:149 | corrected: `http://host:port/event<n>` |
| `CpRemoteService.IntToSHasNoSlash` | lib/rupnp/cp/remote_service.rb:149 | a number's text has no '/' |
| `CpRemoteService.RequestPathOf` | lib/rupnp/cp/remote_service.rb:149 | the request path of `http://host:port/path` is `/path` |
| `CpRemoteService.CallbackMissesRegistrationAsWritten` | lib/rupnp/cp/remote_service.rb:149 | as written, notifications to the callback URL find no registered event |
| `CpRemoteService.CallbackFindsRegistration` | lib/rupnp/cp/remote_service.rb:149 | corrected, they find the event registered for that path in a pair table such as `RUPNP::EventServer`'s (the pair-table server only) |
| `CpRemoteService.CallbackPathMissesCpEventServer` | lib/rupnp/cp/remote_service.rb:149 | under `CP::EventServer`, which compares full callback URLs (lib/rupnp/cp/event_server.rb:55), the corrected callback path still finds no event |
| `CpRemoteService.ScpdVerdictAsWritten` | lib/rupnp/cp/remote_service.rb:186-199 | as written, raises iff the version is incomplete or the state table is missing; good iff acceptable |
| `CpRemoteService.ScpdVerdict` | lib/rupnp/cp/remote_service.rb:186-199 | corrected, raises iff the version is incomplete; good iff acceptable |
| `CpRemoteService.MissingStateTableRaisesAsWritten` | lib/rupnp/cp/remote_service.rb:194-195 | a missing state table raises as written, and is a bad SCPD when corrected |
| `CpRemoteService.ScpdVerdictsAgree` | lib/rupnp/cp/remote_service.rb:186-199 | with a state table, or with no root, both verdicts agree |
| `CpRemoteService.ActionsOf` | lib/rupnp/cp/remote_service.rb:212 | actions exist iff the action list has an action |
| `CpRemoteService.Extracted` | lib/rupnp/cp/remote_service.rb:216-218 | an extracted action has its arguments moved out of the argument list, and a name |
| `CpRemoteService.MissingArgumentList` | lib/rupnp/cp/remote_service.rb:217 | the first action without an argument list, none iff every action has one |
| `CpRemoteService.ExtractedPrefix` | lib/rupnp/cp/remote_service.rb:216-220 | actions before k are extracted, later ones untouched |
| `CpRemoteService.ActionMethodName` | lib/rupnp/cp/remote_service.rb:225-227 | the method name is snake case: no upper-case letter |
| `CpRemoteService.StateVariableFor` | lib/rupnp/cp/remote_service.rb:264-266 | the first state variable with the related name, none iff there is none |
| `CpRemoteService.TypeListsDisjoint` | lib/rupnp/cp/remote_service.rb:50-58 | the integer, float, string, true and false type lists are disjoint |
| `CpRemoteService.ConvertByList` | lib/rupnp/cp/remote_service.rb:272-288 | integers by `to_i`, floats kept, strings as text, the two boolean lists as true and false; no value iff the type is in no list; `boolean` is in none |
| `CpRemoteService.ProcessSoapResponse` | lib/rupnp/cp/remote_service.rb:258-289 | an empty successful response is `{}`; otherwise the hash holds at most the argument's snake-cased name; no state table raises |
| `CpRemoteService.OutArguments` | lib/rupnp/cp/remote_service.rb:249 | exactly the arguments whose direction is `out` |
| `CpRemoteService.CallOutcome` | lib/rupnp/cp/remote_service.rb:229-256 | parameters that are not a hash raise ArgumentError; a single argument that is not `out` gives nil |
| `CpRemoteService.MergeOutsRaisedStays` | lib/rupnp/cp/remote_service.rb:250-252 | once merging an out argument raises, the whole call raises |
| `CpRemoteService.MergeOutsKeys` | lib/rupnp/cp/remote_service.rb:248-253 | every key of the merged hash is the snake-cased name of an out argument |
| `CpRemoteService.MergeOutsOfEmptyResponse` | lib/rupnp/cp/remote_service.rb:259-261 | an empty successful response merges to `{}` |
| `CpRemoteService.MergeOutArguments` | lib/rupnp/cp/remote_service.rb:248-253 | the `each` loop merges exactly the outputs of the out arguments |
| `CpRemoteService.CallOutputsAreOutArguments` | lib/rupnp/cp/remote_service.rb:246-254 | every output key of a call is the snake-cased name of an `out` argument of the action |
| `CpRemoteService.EmptyResponseGivesEmptyHash` | lib/rupnp/cp/remote_service.rb:259-261 | a call with an empty successful response returns `{}` |
| `CpRemoteService.IntegerOutArgument` | lib/rupnp/cp/remote_service.rb:241-245 | a single integer out argument is returned under its snake-cased name, read with `to_i` from the response body |
| `CpRemoteService.RemoteService.constructor` | lib/rupnp/cp/remote_service.rb:96-109 | type and id are copied; the SCPD, control and event URLs are built on the URL base; nothing fetched yet |
| `CpRemoteService.RemoteService.IsBadDescription` | lib/rupnp/cp/remote_service.rb:186-199 | the corrected verdict; the namespace and the version text are kept as far as they were read |
| `CpRemoteService.RemoteService.ExtractServiceStateTable` | lib/rupnp/cp/remote_service.rb:201-209 | the state variables are stored as a list |
| `CpRemoteService.RemoteService.ExtractActions` | lib/rupnp/cp/remote_service.rb:211-222 | actions are extracted in order; an action without an argument list raises after the earlier ones are extracted |
| `CpRemoteService.RemoteService.ScpdGetterFailed` | lib/rupnp/cp/remote_service.rb:116-119 | the service fails with "cannot get SCPD" |
| `CpRemoteService.RemoteService.ScpdReceived` | lib/rupnp/cp/remote_service.rb:121-131 | a bad SCPD fails and changes nothing else; a good one stores the state table and the actions and succeeds unless an action raises |
| `CpRemoteService.RemoteService.CallAction` | lib/rupnp/cp/remote_service.rb:229-256 | the call's result is `CallOutcome` |
| `CpRemoteService.RemoteService.SubscribeToEvent` | lib/rupnp/cp/remote_service.rb:142-161 | the event server is started once; the subscription gets the next number and callback URL; the SUBSCRIBE request carries host, agent, callback, `upnp:event` and the timeout |
| `CpRemoteService.SubscribeVerdictAsWritten` | lib/rupnp/cp/remote_service.rb:170-174 | as written, a status other than 200 is only logged; a 200 whose TIMEOUT has no digits, or that has no TIMEOUT, raises; otherwise the TIMEOUT's number is the timeout |
| `CpRemoteService.SubscribeVerdict` | lib/rupnp/cp/remote_service.rb:170-174 | corrected, a 200 never raises and subscribes for 1800 seconds when the TIMEOUT gives no number; other statuses are not subscribed |
| `CpRemoteService.SubscribeVerdictsAgree` | lib/rupnp/cp/remote_service.rb:170-174 | wherever the code as written does not raise, the corrected verdict is the same |
| `CpRemoteService.InfiniteSubscribeRaisesAsWritten` | lib/rupnp/cp/remote_service.rb:174 | a 200 with `Second-infinite` or without TIMEOUT raises as written; corrected, `Second-infinite` subscribes for 1800 seconds |
| `CpRemoteService.RemoteService.SubscribeResponse` | lib/rupnp/cp/remote_service.rb:167-180 | corrected: a 200 creates an event with the SID and the timeout of `SubscribeVerdict`, and registers it under its event path; any other status changes nothing |
| `UpnpDevice.DeviceUrn` | lib/rupnp/device.rb:123-125 | `schemas-upnp-org:device:<type>:<version>` |
| `UpnpDevice.NotifyTargets` | lib/rupnp/device.rb:160-165 | the root, the uuid, the device URN and each service URN, in that order |
| `UpnpDevice.Announcements` | lib/rupnp/device.rb:160-165 | one notification per target, all with the same subtype and options |
| `UpnpDevice.New` | lib/rupnp/device.rb:62-68 | initialization fails iff a required option is missing; otherwise the device is configured, with config id 1 |
| `UpnpDevice.Device.constructor` | lib/rupnp/device.rb:62-83 | the options are copied, the uuid is the generated one unless given, the config id is 1 |
| `UpnpDevice.Device.Urn` | lib/rupnp/device.rb:123-125 | the device's URN from its type and version |
| `UpnpDevice.Device.NotifyOptions` | lib/rupnp/device.rb:152-159 | the notifier options carry max-age, IP, uuid, boot id, config id and search port |
| `UpnpDevice.Device.Notify` | lib/rupnp/device.rb:151-166 | one notification per target is sent |
| `UpnpDevice.Device.Start` | lib/rupnp/device.rb:86-104 | alive with the old options, then boot id + 1 within 31 bits, and the notify timer |
| `UpnpDevice.Device.Stop` | lib/rupnp/device.rb:106-112 | byebye for every target |
| `UpnpDevice.Device.UpdateConfig` | lib/rupnp/device.rb:118-121 | the config id grows within 24 bits, then alive is announced again |
| `UpnpDevice.UpdateAnnouncesPreviousBoot` | lib/rupnp/device.rb:100 | after a boot-id increment, an update announces the boot id before it |
| `UpnpService.Service.constructor` | lib/rupnp/service.rb:18-27 | type and URLs are read from the description; no action yet |
| `UpnpService.Service.Fetch` | lib/rupnp/service.rb:29-36 | fails iff there is no SCPD URL |
| `UpnpService.FetchWithoutScpd` | lib/rupnp/service.rb:30-33 | a service without an SCPD URL fails |
| `GenaEvent.TimeoutHeader` | lib/rupnp/event.rb:65 | `Second-<n>` |
| `GenaEvent.RenewedTimeoutAsWritten` | lib/rupnp/event.rb:78-79 | as written, a timeout exists iff the header has digits |
| `GenaEvent.RenewedTimeout` | lib/rupnp/event.rb:78-79 | corrected, the header's digits, or the fallback when there are none |
| `GenaEvent.RenewedTimeoutOfHeader` | lib/rupnp/event.rb:78 | `Second-n` reads back as n |
| `GenaEvent.InfiniteTimeoutRaisesAsWritten` | lib/rupnp/event.rb:78-79 | `Second-infinite` raises as written and gives the fallback when corrected |
| `GenaEvent.Event.ArmedTimer` | lib/rupnp/event.rb:99-106 | the timer fires before the timeout by the margin, and renews iff auto-renew is on |
| `GenaEvent.Event.constructor` | lib/rupnp/event.rb:43-54 | auto-renew defaults to true, the margin to its default, and the timer is armed |
| `GenaEvent.Event.SetTimer` | lib/rupnp/event.rb:96-107 | a previous timer is cancelled and a new one armed |
| `GenaEvent.Event.Fire` | lib/rupnp/event.rb:57-65 | auto-renew sends a renewal SUBSCRIBE; otherwise the event is told it timed out |
| `GenaEvent.Event.RenewResponse` | lib/rupnp/event.rb:71-84 | a 200 renews the timeout, re-arms the timer and announces the renewal; anything else changes nothing |
| `GenaEvent.Event.Push` | lib/rupnp/event.rb:82 | one message is appended |
| `GenaEvent.Event.CancelSubscription` | lib/rupnp/event.rb:89-91 | raises NotImplementedError |
| `CpEventServer.StatusOf` | lib/rupnp/cp/event_server.rb:47-102 | 200 iff delivered; 412 for a wrong NT, NTS or SID |
| `CpEventServer.CallbackIndex` | lib/rupnp/cp/event_server.rb:55 | the first event with the callback URL, none iff there is none |
| `CpEventServer.Decide` | lib/rupnp/cp/event_server.rb:47-99 | each error status holds exactly when its check is the first to fail; delivery exactly to the first event with the URL, when NT, NTS and its own SID are right, with SEQ read by `to_i` |
| `CpEventServer.DeviceNotifyDelivered` | lib/rupnp/cp/event_server.rb:47-99 | a property-change NOTIFY with the subscription's SID reaches its event with its sequence number |
| `CpEventServer.EventTable.constructor` | lib/rupnp/cp/event_server.rb:13 | the table starts empty |
| `CpEventServer.EventTable.AddEvent` | lib/rupnp/cp/event_server.rb:15-17 | the event is appended |
| `CpEventServer.EventTable.RemoveEvent` | lib/rupnp/cp/event_server.rb:30-32 | every entry of that event goes |
| `CpEventServer.EventTable.ProcessHttpRequest` | lib/rupnp/cp/event_server.rb:42-103 | the status is the verdict's; `Allow: NOTIFY` iff 405; only a delivery changes an event, by one message |
| `UpnpEventServer.UrlIndex` | lib/rupnp/event_server.rb:25 | the first pair for the URL, none iff there is none |
| `UpnpEventServer.EventFor` | lib/rupnp/event_server.rb:25-27 | the event of the first pair for the URL, when it is one |
| `UpnpEventServer.Decide` | lib/rupnp/event_server.rb:23-42 | ignored iff no event; forwarded iff a property-change NOTIFY; other verbs are logged |
| `UpnpEventServer.EventServer.constructor` | lib/rupnp/event_server.rb:11-21 | no URL yet |
| `UpnpEventServer.EventServer.AddUrl` | lib/rupnp/event_server.rb:17-20 | the pair is appended |
| `UpnpEventServer.EventServer.ProcessHttpRequest` | lib/rupnp/event_server.rb:23-42 | a forwarded request pushes SID, SEQ and content to its event; nothing else changes |
| `UpnpEventServer.FirstRegistrationWins` | lib/rupnp/event_server.rb:25 | a later pair does not hide an earlier one |
| `UpnpEventServer.RegisteredEventFound` | lib/rupnp/event_server.rb:25 | a new URL finds its event |
| `CpEventSubscriber.StatusFields` | lib/rupnp/cp/event_subscriber.rb:36-37 | `status` is the reason and `status_code` the digits |
| `CpEventSubscriber.Reply` | lib/rupnp/cp/event_subscriber.rb:28-47 | empty data raises; a hash is pushed iff the status line matches |
| `CpEventSubscriber.FillHeaders` | lib/rupnp/cp/event_subscriber.rb:39-43 | the loop adds exactly the chomped `\w+` header entries |
| `CpEventSubscriber.HeaderEntryOfLine` | lib/rupnp/cp/event_subscriber.rb:40-41 | `Name: value` CR LF gives the downcased name and the value |
| `CpEventSubscriber.ReplyStatusFields` | lib/rupnp/cp/event_subscriber.rb:35-37 | the reason keeps its '\r' (`.` matches it) |
| `CpEventSubscriber.EventSubscriber.constructor` | lib/rupnp/cp/event_subscriber.rb:14-17 | nothing sent or received |
| `CpEventSubscriber.EventSubscriber.PostInit` | lib/rupnp/cp/event_subscriber.rb:20-23 | the message is sent once |
| `CpEventSubscriber.EventSubscriber.ReceiveData` | lib/rupnp/cp/event_subscriber.rb:28-47 | exactly the reply's hash is pushed, when there is one |
| `UpnpEventSubscriber.StatusFields` | lib/rupnp/event_subscriber.rb:24-27 | both status fields are always set, nil when unmatched |
| `UpnpEventSubscriber.Reply` | lib/rupnp/event_subscriber.rb:19-36 | a hash is pushed iff the data is not empty |
| `UpnpEventSubscriber.FillHeaders` | lib/rupnp/event_subscriber.rb:29-33 | the loop adds exactly the header entries |
| `UpnpEventSubscriber.EventSubscriber.constructor` | lib/rupnp/event_subscriber.rb:9-12 | nothing sent or received |
| `UpnpEventSubscriber.EventSubscriber.PostInit` | lib/rupnp/event_subscriber.rb:14-17 | the message is sent once |
| `UpnpEventSubscriber.EventSubscriber.ReceiveData` | lib/rupnp/event_subscriber.rb:19-36 | exactly one hash is pushed unless the data is empty |
| `UpnpEventSubscriber.AgreesWithGuardedSubscriber` | lib/rupnp/event_subscriber.rb:19-36 | it pushes what the control point's subscriber pushes, or nil status fields where that one pushes nothing |

## Left out

- Sockets, multicast membership, TTL options (`set_ttl`, lib/rupnp/ssdp/multicast_connection.rb) and EventMachine's reactor: datagrams are strings and sends are appended to a sequence.
- EventMachine timers, deferrables and `tick_loop`: a timer is a recorded value, and its firing is a method call (`SearchTimeout`, `Fire`).
- Log messages, apart from the listener's and the responder's warnings.
- The Savon client set-up and the SOAP call itself (lib/rupnp/cp/remote_service.rb:291-302): the response is a given value.
- `to_f`: a float value keeps its text, because Dafny has no floating point here.
- `define_singleton_method`: `CallAction` takes the action it would define.
- `extract_icons`, `extract_services`, `extract_devices` and `create_method_from_service`: they need XML fetches whose results the model takes as given.
- XML and Nori parsing: descriptions and SCPDs are given as datatypes.
- The user's block on an event's messages.
- The `||=` defaults of options hashes that are never read by the core.
- UUID generation and the `uname` shell call: the UUID and the system name are parameters.
- lib/rupnp/ssdp/msearch_responder.rb, lib/rupnp/discover.rb, lib/rupnp/ssdp/generic_request.rb and lib/upnp/ are not part of this model.
- The 500 branch of the control point's event server (lib/rupnp/cp/event_server.rb:64-69) cannot occur: every table entry is an event.
- The transport errback of `Event#renew_subscription`: it changes nothing, so it is modelled by not calling `RenewResponse`.
- The device's optional description fields beyond those `DeviceInfoOf` copies.
- `SearchResponder.StDispatch`: its own contract only says a callback has a target. Which targets is stated per ST form by `AllTargets`, `UuidTarget`, `DeviceUrnTarget` and `ServiceUrnTarget`.
- `SearchResponder.ResponseLines`: its contract states the line count only. The USN line is stated by `ResponseUsn`.
- `SsdpNotifier.Notifier.NotifyRequest`: its contract states the NT header only. The other headers are stated by the header lemmas.

## Findings

| source | as written | input that shows it | evidently intended | confidence | as-written member | corrected member |
|---|---|---|---|---|---|---|
| lib/rupnp/ssdp/http.rb:22 | `HTTP\s+(\d\.\d)` requires white space between `HTTP` and the version | `NOTIFY * HTTP/1.1` CR LF gives nil, so the listener drops every notification | `HTTP\/(\d\.\d)`, as in lib/rupnp/http.rb:34 | not executed | `SsdpListener.NotifyDroppedWithSsdpCodec` | `SsdpListener.NotifyIsNotification` |
| lib/rupnp/ssdp/http.rb:12 | header names are `[\w-]+`, so a dotted name keeps only its last segment | `BOOTID.UPNP.ORG: 7` is stored under `org`, so `fetch` fails with "no BOOTID" | `[\w\.-]+`, as in lib/rupnp/http.rb:20 | not executed | `SsdpHttp.BootIdHeaderKeyedOrg` | `Http.BootIdHeaderKeyedWhole` |
| lib/rupnp/ssdp/search_responder.rb:16 | `h[:verb]` is read before `h` is checked for nil | any datagram whose first line does not parse, including every `M-SEARCH * HTTP/1.1` under the SSDP codec, raises NoMethodError | check for nil first and warn | not executed | `SearchResponder.NilRequestLineCrashes` | `SearchResponder.Decide` |
| lib/rupnp/control_point.rb:145 | `rejected.udn` is called on what `reject!` returns, an Array | a byebye for a known UDN removes the device and then raises NoMethodError | log the UDN that was removed | not executed | `ControlPoint.RemovalRaisesAsWritten` | `ControlPoint.ByeByeLog` |
| lib/rupnp/ssdp/search_responder.rb:67-71 | MX is capped from above only, and `rand` of a negative number draws below its absolute value | MX = -10 gives waits of up to 9 seconds | a wait below min(MX, 5), at least 1 | not executed | `SearchResponder.NegativeMxEscapesCap` | `SearchResponder.DelayIsBounded` |
| lib/rupnp/cp/remote_service.rb:149 | the callback URL ends with a stray `}` | event 1 subscribes with `http://ip:port/event1}`, which matches no registered path | `http://ip:port/event1`, which reaches the event in a pair-table server such as `RUPNP::EventServer`; `CP::EventServer` needs further changes (see Control point event server) | not executed | `CpRemoteService.CallbackMissesRegistrationAsWritten` | `CpRemoteService.CallbackFindsRegistration` |
| lib/rupnp/cp/remote_service.rb:194-195 | `serviceStateTable` is indexed without a nil check | an SCPD without a state table raises NoMethodError | report a bad SCPD | not executed | `CpRemoteService.MissingStateTableRaisesAsWritten` | `CpRemoteService.ScpdVerdict` |
| lib/rupnp/event.rb:78-79 | `.match(/(\d+)/)[1]` on the TIMEOUT header | `Second-infinite` raises NoMethodError | fall back to a default timeout | not executed | `GenaEvent.InfiniteTimeoutRaisesAsWritten` | `GenaEvent.RenewedTimeout` |
| lib/rupnp/cp/remote_service.rb:174 | `match(/(\d+)/)[1]` indexes the match before the `1800` fallback is reached | a 200 reply to SUBSCRIBE with `TIMEOUT: Second-infinite`, or without TIMEOUT, raises NoMethodError and registers no event | subscribe for 1800 seconds | not executed | `CpRemoteService.InfiniteSubscribeRaisesAsWritten` | `CpRemoteService.SubscribeVerdict` |
