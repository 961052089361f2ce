# Session presence server, modelled in Dafny

This project models the session registry of `server.js`, a socket.io server that tracks anonymous
visitor sessions and lets a pool of admin sockets watch and steer them. The server keeps three pieces
of state:

- `sessions`, a `Map` from session id to a free-form session record. It keeps insertion order.
- `admins`, the `Set` of admin socket ids.
- `totalVisits`, a lifetime counter.

Five socket events change that state:

- `register_user` creates a session, or re-claims an existing one.
- `disconnect` takes a session offline.
- `register_admin` adds an admin and replays every session to it.
- `user_update` merges a partial update into the caller's session.
- `admin_redirect` marks a session "redirected" and sends its room a redirect.

`emitDashboardStats` sends the aggregate counts to the admins. `saveLogsToFile` writes the registry to
disk, and the registry is loaded from that file at startup.

Modules:

- `Js` (js.dfy): JavaScript values and records, truthiness, and property reads.
- `Ip` (ip.dfy): the address a registering client is recorded under. It is the trimmed first entry of
  `X-Forwarded-For`, or else the socket's remote address.
- `Sessions` (sessions.dfy): the insertion-ordered Map. It is held as a sequence of distinct keys plus a
  map. This module also holds the snapshot form (a sequence of entries) and the round trip through it.
- `Dashboard` (dashboard.dfy): the `dashboard_stats` aggregate.
- `Merge` (merge.dfy): the two-pass merge that `user_update` performs, and the single-pass merge its
  comment describes.
- `Server` (server.dfy): the class `SessionServer`. Its fields are the registry, the admin set, the
  visit counter, every socket's `socket.data`, the events emitted so far (`outbox`) and the snapshots
  written so far (`snapshots`). Each socket handler is a method that updates those fields.

Every handler preserves two invariants:

- `Valid()`: the key order lists each Map key once, and a socket is in `admins` exactly when its
  `socket.data.isAdmin` is set.
- `ClaimsPresent()`: every session id a connected socket has claimed is in the registry. No handler
  deletes a record. So while this holds, `user_update` never takes its create-a-placeholder branch, and
  it changes neither the key set nor the key order.

Behaviours of the code worth noting:

- `user_update` does not append `questions` to the stored list. It stores two copies of the incoming
  list; see Findings.
- `user_update` stores `highlightFields` on the record; see Findings.
- `disconnect` sends only `user_offline`, not the updated record. It saves and sends the dashboard
  whenever the socket held a claim, even if that session is missing.
- `lastUpdate` is not refreshed by `register_user` on a known id, by `disconnect` or by
  `admin_redirect`.

## Model

| member | source | states |
|---|---|---|
| Js.Truthy | server.js:25 | JavaScript truthiness, as `filter((s) => s.online)` tests it; no contract of its own, used by Dashboard.CountOnlineIsOnlineIds |
| Js.TruthyStr | server.js:58 | `!sessionId` on an optional string id: absent and `""` are falsy; no contract of its own, used by the RegisterUser, Disconnect and UserUpdate contracts |
| Js.Get | server.js:25 | `s.online` reads `undefined` for a missing property; no contract of its own |
| Ip.IsTrimmable | server.js:55 | the WhiteSpace and LineTerminator code points `trim()` removes; no contract of its own, used by Ip.Trim and Ip.TrimUnpads |
| Ip.FirstField | server.js:55 | `split(",")[0]` is a prefix of the header without a comma, ending at the first comma if there is one |
| Ip.Trim | server.js:55 | `trim()` gives a string no longer than its input, with no white space at either end |
| Ip.TrimUnpads | server.js:55 | trimming `lead + core + trail` returns exactly `core` when `lead`/`trail` are white space and `core` is unpadded |
| Ip.TrimIdempotent | server.js:55 | trimming twice is trimming once |
| Ip.FirstFieldOf | server.js:55 | the first field of `field + rest` is `field` when `field` has no comma and `rest` is empty or starts with one |
| Ip.ResolveIp | server.js:54-56 | without a (truthy) forwarded header the ip is the remote address; with one it has no comma, no padding and is no longer than the header |
| Ip.ResolveIpForwarded | server.js:54-56 | for a header `lead + addr + trail + rest` the recorded ip is exactly `addr` |
| Sessions.IdsAreElements | server.js:18 | the id set of the key order is exactly the keys it lists |
| Sessions.DistinctFresh | server.js:62-63 | in the key order, no key occurs before its own position |
| Sessions.DistinctPositions | server.js:62-63 | no two positions of the key order hold the same key |
| Sessions.DistinctAppend | server.js:62-63 | `sessions.set` of a new key appends it; the order stays duplicate-free and its id set grows by that key |
| Sessions.Entries | server.js:43 | `Object.fromEntries(sessions)` in insertion order; no contract of its own, its meaning is stated by Sessions.SnapshotRoundTrip |
| Sessions.Values | server.js:25 | `[...sessions.values()]` in insertion order; no contract of its own, used by Dashboard.CountOnlineIsOnlineIds |
| Sessions.MapOf | server.js:37-39 | the Map a snapshot loads into has exactly the snapshot's keys |
| Sessions.LoadStep | server.js:37-39 | loading one more entry appends its key to the order and sets it in the Map, and the key is new |
| Sessions.MapOfAt | server.js:37-39 | every entry of a snapshot with distinct keys is loaded verbatim |
| Sessions.SnapshotRoundTrip | server.js:35-45 | loading what `saveLogsToFile` wrote gives back the same key order and the same records |
| Sessions.DistinctCard | server.js:23 | a duplicate-free key order has as many ids as elements |
| Sessions.SizeIsOrderLength | server.js:23 | `sessions.size` is the length of the key order |
| Dashboard.IsOnline | server.js:25 | `s.online` is truthy; no contract of its own |
| Dashboard.CountOnline | server.js:25 | the online count is at most the number of records |
| Dashboard.CountOnlineAlong | server.js:25 | counting online records along distinct keys counts the online ids among them |
| Dashboard.CountOnlineIsOnlineIds | server.js:25 | `[...sessions.values()].filter(s => s.online).length` is the number of online sessions |
| Dashboard.AggregateCounts | server.js:22-33 | `totalUsers` is the registry's size, `totalOnlineUsers` the online records, never more than `totalUsers`; `totalVisits` and `totalHandlers` are passed through |
| Dashboard.Aggregate | server.js:23-32 | the `dashboard_stats` object; no contract of its own, its meaning is stated by Dashboard.AggregateCounts |
| Merge.HighlightOf | server.js:150 | `highlightFields` with its default `[]` for a missing or `undefined` value; no contract of its own, carried by ApplyUpdate's broadcast |
| Merge.FieldsOf | server.js:150 | the payload without `highlightFields`; no contract of its own, used by Merge.CopyFields and Merge.MergePayload |
| Merge.PriorQuestions | server.js:161 | the elements of the stored `questions`, or none when it is missing or falsy; no contract of its own, used by Merge.IntendedAppendsQuestions |
| Merge.CopyPass | server.js:153-155 | closed form of the first loop; no contract of its own, Merge.CopyFields is proved equal to it |
| Merge.AppendPass | server.js:158-165 | closed form of the second loop; no contract of its own, Merge.AppendFields is proved equal to it |
| Merge.AsWrittenMerge | server.js:150-165 | the two passes as the handler runs them; no contract of its own, its meaning is stated by Merge.MergePayload, Merge.AsWrittenDoublesQuestions and Merge.AsWrittenStoresHighlightFields |
| Merge.IntendedMerge | server.js:157-165 | the single pass the comment describes; no contract of its own, its meaning is stated by Merge.IntendedAppendsQuestions, Merge.IntendedKeepsHighlightFields and Merge.MergesAgreeElsewhere |
| Merge.CopyFields | server.js:153-155 | the first loop leaves the session overlaid with `fields` |
| Merge.AppendFields | server.js:158-165 | the second loop appends an array `questions` to the stored questions and overwrites every other payload key |
| Merge.MergePayload | server.js:150-165 | the two loops together: keys are the union; every payload key but an array `questions` holds the payload value; an array `questions` holds two copies of itself; other keys keep their values |
| Merge.MergeSinglePass | server.js:157-165 | the single pass the comment describes: skip `highlightFields`, append `questions`, overwrite the rest |
| Merge.AsWrittenDoublesQuestions | server.js:153-161 | as written, an array `questions` ends as two copies of the incoming list, whatever was stored |
| Merge.AsWrittenStoresHighlightFields | server.js:150-165 | as written, a payload's `highlightFields` is stored on the record |
| Merge.IntendedAppendsQuestions | server.js:159-161 | the intended merge leaves the stored questions followed by the new ones |
| Merge.IntendedKeepsHighlightFields | server.js:150-155 | the intended merge never adds or changes `highlightFields` on the record |
| Merge.MergesAgreeElsewhere | server.js:153-165 | apart from `questions` and `highlightFields`, both merges give the same keys and values |
| Merge.AsWrittenAppendsOnlyOverItself | server.js:159-161 | the two merges agree on `questions` exactly when the stored questions equal the incoming ones |
| Merge.AsWrittenLosesStoredQuestions | server.js:153-161 | stored `[a, b]` merged with `[c]` gives `[c, c]` as written and `[a, b, c]` as intended |
| Server.NewVisitorRecord | server.js:63-69 | the record of a first registration; no contract of its own, its fields are stated by Server.AdmittedRecord |
| Server.PlaceholderRecord | server.js:141-147 | the record `user_update` creates for a missing id; no contract of its own, its fields are stated by Server.PlaceholderKeepsRecords |
| Server.Admitted | server.js:62-74 | the record registration leaves; no contract of its own, its meaning is stated by Server.AdmittedRecord |
| Server.Updated | server.js:150-167 | the record an update leaves; no contract of its own, its meaning is stated by Server.UpdatedRecord |
| Server.ResolvedId | server.js:58-60 | the client's id when truthy, else the fresh id; no contract of its own, RegisterUser states that this id is admitted, claimed and sent back |
| Server.Replay | server.js:125-130 | the replay events; no contract of its own, its meaning is stated by Server.ReplayEachOnce |
| Server.AdmittedRecord | server.js:62-74 | after registration the record is online from the resolved ip; a known record keeps every other field; a new one is idle, `onlineStatus` "online", stamped `now`, with exactly those five fields |
| Server.UpdatedRecord | server.js:150-167 | after an update `lastUpdate` is `now`; other payload keys hold the payload values, `highlightFields` included; an array `questions` is doubled; keys the payload lacks keep their values |
| Server.WithPlaceholder | server.js:140-148 | after the placeholder step the claimed id is in the registry |
| Server.PlaceholderKeepsRecords | server.js:140-148 | the placeholder step keeps every stored record and adds at most the claimed id, with an online, "login submitted" record holding the id and no questions, stamped `now` |
| Server.ReplayEachOnce | server.js:125-130 | the admin replay has one event per record, each carrying that record, covering every session and none twice |
| Server.SessionServer.constructor | server.js:35-40 | the registry starts as the saved snapshot, entry by entry and verbatim, or empty; no admins, no visits, no sockets |
| Server.SessionServer.SetSession | server.js:63 | `sessions.set`: the record is replaced, and a new key goes to the end of the order while a known key keeps its place |
| Server.SessionServer.EmitDashboardStats | server.js:22-33 | one `dashboard_stats` event carrying the aggregate of the current state |
| Server.SessionServer.SaveLogsToFile | server.js:42-45 | one snapshot of every entry, in insertion order |
| Server.SessionServer.ReplayTo | server.js:125-130 | the loop emits exactly the replay of the registry to the socket |
| Server.SessionServer.Claim | server.js:77 | the socket's `sessionId` becomes the id; claims stay present when the id is |
| Server.SessionServer.Forget | server.js:96-98 | the socket leaves `admins` and the socket table |
| Server.SessionServer.Connect | server.js:47 | a new socket starts with empty `socket.data` |
| Server.SessionServer.Admit | server.js:62-74 | the registry step of registration: the id maps to its admitted record, and the order grows only for a new id |
| Server.SessionServer.Enter | server.js:62-77 | admit plus claim; the order grows by one exactly for a new id |
| Server.SessionServer.RegisterUser | server.js:49-92 | the resolved id is admitted and claimed, sent back, and the record and then the dashboard go to the admins; `totalVisits` goes up by one exactly when no id was supplied, and stays at most the number of sessions |
| Server.SessionServer.MarkOffline | server.js:103-111 | a known record gets `online = false` and one `user_offline` notice; an unknown id changes nothing |
| Server.SessionServer.Leave | server.js:103-113 | offline step, then one snapshot and one dashboard event, in that order |
| Server.SessionServer.Disconnect | server.js:95-114 | the socket leaves `admins`; without a claim nothing else changes; with one, the claimed record (if present) goes offline with one notice, then a save and a dashboard event |
| Server.SessionServer.RegisterAdmin | server.js:117-133 | set insertion (a repeat leaves the count alone), the dashboard, then every record replayed in insertion order |
| Server.SessionServer.EnsureSession | server.js:140-148 | a claimed id the registry lacks gets the placeholder record at the end of the order |
| Server.SessionServer.ApplyUpdate | server.js:150-175 | the record is replaced by its update, sent to the admins with `highlightFields` (default `[]`), and the registry saved |
| Server.SessionServer.UserUpdate | server.js:136-176 | without a claim nothing changes; with one, only the claimed record changes, to its update, with one broadcast and one save; while claims are present no key is added |
| Server.SessionServer.AdminRedirect | server.js:180-193 | an unknown id changes and sends nothing; a known id gets only `status = "redirected"` and one `redirect_user` to its room |

## Left out

- Express, HTTP, socket.io setup and `server.listen` are transport plumbing. Room membership (`socket.join`) and delivery are not modelled. An emit is recorded in `outbox`, tagged with its audience.
- `console.log` calls are logging only and are left out.
- The two files in config/ and handlers/ are not part of this model.
- File I/O and JSON are not modelled. `saveLogsToFile` appends the registry's entries, in insertion order, to `snapshots`. The constructor takes the saved entries, if any, as a parameter. The key order that `JSON.parse` gives array-index-like keys (which are enumerated first) is not modelled. A malformed snapshot file, which makes the source throw at startup, is not modelled either.
- `uuidv4()` and `Date.now()` are parameters. The fresh id is required to be non-empty and unused, as `uuidv4()` guarantees. `user_update` reads the clock twice. The model uses one `now` for both reads; the second read overwrites `lastUpdate`, so the stored and emitted record is the same.
- JSON numbers are integers (`Num(int)`). Floating point is not modelled.
- An event's record is the record's value at the time of the emit. Records are held by value. The source holds them by reference, but they are only reachable through the Map and are serialised when emitted. So object aliasing is not modelled.
- Handlers run one at a time, to completion. This matches the Node event loop, so concurrency is not modelled.
- Client-supplied values are simplified:
  - The id `register_user` receives is an optional string. Non-string ids are not modelled.
  - The `user_update` payload is an object. A `null` or missing payload, which makes the source throw, is not modelled.
  - `admin_redirect`'s `sessionId` is any JSON value. It matches a session only when it is a string key of the Map.
- Server.SessionServer.AdminRedirect: the payload is taken as already destructured into `sessionId` and `nextPage`. A `null` or missing payload makes `({ sessionId, nextPage })` at server.js:180 throw; that is not modelled.
- Merge.MergePayload: a payload key `__proto__` is treated as an ordinary key. In the source, `session[key] = ...` at server.js:154 and server.js:163 goes through the `Object.prototype.__proto__` setter, so no such key is stored or saved.
- Server.UpdatedRecord: the same holds for a `__proto__` payload key, which the model stores like any other key.
- Ip.ResolveIp: the remote address is always a string. `req.socket.remoteAddress` at server.js:56 can be `undefined` once the socket has closed; JSON then drops `ip` from the record, which the model does not capture.
- Merge.PriorQuestions: a stored `questions` that is truthy but not an array counts as no questions. In the source, spreading a string gives its characters, and spreading a number, `true` or a non-array object throws. This only affects the intended merge: in the as-written merge the first loop has already stored the payload's array.
- Server.WithPlaceholder: its own contract states only that the id is present. The rest is stated by Server.PlaceholderKeepsRecords, and what the update then stores by Server.UpdatedRecord and by `UserUpdate`.
- Object key enumeration order (`Object.keys`) is not modelled. The merge loops take the keys in any order, and the result does not depend on it.

## Findings

| source | as written | input that shows it | evidently intended | confidence | as-written member | corrected member |
|---|---|---|---|---|---|---|
| server.js:153-161 | the first loop already overwrites `questions` with the payload's list, so the append pass appends it to itself and the stored questions are lost | stored `questions: [a, b]`, payload `{ questions: [c] }` gives `[c, c]` | append once, giving `[a, b, c]` (comment at server.js:159) | high, not executed | Merge.AsWrittenLosesStoredQuestions | Merge.IntendedAppendsQuestions |
| server.js:150-165 | the second loop walks `payload`, not `fields`, so `highlightFields` is written onto the record | payload `{ status: "x", highlightFields: ["status"] }` stores `highlightFields: ["status"]` | `highlightFields` is only forwarded to admins, never stored (it is split off at server.js:150) | medium, not executed | Merge.AsWrittenStoresHighlightFields | Merge.IntendedKeepsHighlightFields |

The handler `Server.SessionServer.UserUpdate` keeps the as-written merge, because that is what the
server does. The corrected merge, `Merge.MergeSinglePass`, is defined and proved next to it.
