# Presence globe: the viewer's replica

This project models the viewer side of a real-time presence globe. A server
sends every viewer two kinds of messages. `add-marker` carries a participant's
`Position`: `lat`, `lng`, `id`, and optionally `city` and `country`.
`remove-marker` carries only an `id`. The viewer's `onMessage` handler keeps
two pieces of state in step:

- `positions`, a JavaScript `Map` from id to `{location: [lat, lng], size: 0.09}`.
  `add-marker` calls `set`, which inserts or overwrites. `remove-marker` calls
  `delete`, which does nothing for an absent id.
- `players`, the list shown in the "online" panel. `add-marker` appends one
  `{id, city, country}` entry, with a missing or empty city or country shown as
  `"Unknown"`. `remove-marker` filters out every entry with that id.

Once per animation frame the globe reads `[...positions.values()]`.

Modules, one per concern:

- `Shared` (`shared.dfy`) holds the message contract from `src/shared.ts`.
  `Position` is a datatype whose `lat`, `lng` and `id` are required and whose
  `city` and `country` are `Option<string>`. `OutgoingMessage` is a datatype with
  exactly the two variants, and its `TypeTag` gives the wire tag.
- `Sequences` (`sequences.dfy`) models `Array.prototype.filter` as `Filter`.
  Its contract gives membership, multiplicity and relative order.
- `OrderedMaps` (`ordered_map.dfy`) models a JavaScript `Map` with string keys.
  It pairs a Dafny `map` with the keys in insertion order, because a JavaScript
  Map iterates in that order. `set` on a present key keeps the key's place, and
  a key set again after `delete` goes last.
- `Client` (`client.dfy`) holds the handler. `Step` is the handler as a function
  on a `ViewerState`. The class `Viewer` has the two fields, an `OnMessage`
  method proved equal to `Step`, and a read-only `Snapshot` method with a loop.
  The invariant `Valid` says that the panel's ids are exactly the map's keys.
- `History` (`history.dfy`) holds lemmas over whole message streams applied to a
  fresh viewer: last write wins, the id/key agreement, and how many panel
  lines an id gets.

Latitude and longitude are modelled as `real`. The handler only copies them,
so no arithmetic or precision is involved.

Three facts about the code shape the model:

- Nothing is validated. Text that is not JSON makes `JSON.parse` throw out of
  the handler before any state changes, and a parsed value is cast to
  `OutgoingMessage` without a check. The handler tests only
  `type === "add-marker"`. The model starts from an already decoded
  `OutgoingMessage`.
- The snapshot comes out in the map's insertion order. `Map.values()` visits
  keys in that order, and the model's `Values` keeps it.
- A duplicate `add-marker` lists an id twice in the panel. It overwrites the
  map entry but appends a second panel line for the same id.

## Model

| member | source | states |
|---|---|---|
| `Shared.OutgoingMessage.TypeTag` | src/shared.ts:12-20 | the tag is always "add-marker" or "remove-marker"; it is "add-marker" exactly for the variant carrying a Position and "remove-marker" exactly for the variant carrying only an id |
| `Sequences.Filter` | src/client/index.tsx:62 | `filter` keeps exactly the elements passing the test, each as often as before, as a subsequence of the input; it keeps duplicate-freedom, and it returns its input unchanged when every element passes |
| `Sequences.FilterIdempotent` | src/client/index.tsx:62 | filtering twice by the same test equals filtering once |
| `OrderedMaps.EmptyMap` | src/client/index.tsx:36 | `new Map()` holds no entries and iterates over no keys |
| `OrderedMaps.OrderedMap.Set` | src/client/index.tsx:45-48 | `set(k, v)` maps k to v and leaves every other key and value as it was; a present key keeps its iteration position, and a new key is appended last |
| `OrderedMaps.OrderedMap.Delete` | src/client/index.tsx:60 | `delete(k)` removes k, leaves every other key and value as it was, and keeps the order of the rest; for an absent k the map is unchanged |
| `OrderedMaps.OrderedMap.Values` | src/client/index.tsx:93 | `values()` yields one value per key in iteration order, as many as the map's size, and exactly the map's values |
| `OrderedMaps.OverwriteKeepsShape` | src/client/index.tsx:45-48 | setting a present key changes neither the map's size nor its key order |
| `OrderedMaps.InsertGrows` | src/client/index.tsx:45-48 | setting a new key grows the map by one and puts the key last in iteration order |
| `OrderedMaps.DeleteThenSetGoesLast` | src/client/index.tsx:45-60 | a key deleted and then set again moves to the end of the iteration order, after the keys that remain |
| `OrderedMaps.DeleteIdempotent` | src/client/index.tsx:60 | deleting the same key twice equals deleting it once |
| `Client.MarkerOf` | src/client/index.tsx:45-48 | the stored marker has location `(lat, lng)` copied from the position and size 0.09; `Client.AddSetsMarker` proves the map stores exactly it |
| `Client.OrUnknown` | src/client/index.tsx:54-55 | an absent or empty city or country becomes "Unknown", any other text is kept, and the result is never empty |
| `Client.PlayerOf` | src/client/index.tsx:52-56 | the panel entry has the position's id, and its city and country when present and non-empty, "Unknown" otherwise; `Client.AddAppendsPlayer` proves it is the entry appended |
| `Client.WithoutPlayer` | src/client/index.tsx:62 | the remove updater keeps only entries with another id, each as often as before, in their relative order, and returns the panel unchanged when no entry has the id; it is `Sequences.Filter` with that test, and `Client.RemoveFiltersPlayers` proves it is what remove-marker applies |
| `Client.AppendPlayer` | src/client/index.tsx:50-57 | the add updater appends exactly one entry, with the position's id and the fallback city and country, after the unchanged earlier entries |
| `Client.Initial` | src/client/index.tsx:23-36 | a fresh viewer has an empty map and an empty panel, and the two agree |
| `Client.Step` | src/client/index.tsx:41-64 | handling any message keeps the marker map well formed (every key listed once in iteration order) |
| `Client.AddSetsMarker` | src/client/index.tsx:43-48 | after add-marker, the map holds `position.id ↦ {location: (lat, lng), size: 0.09}` and every other key is present, absent and valued as before |
| `Client.DuplicateAddOverwrites` | src/client/index.tsx:45-48 | add-marker for an id already in the map keeps the map's size and key order |
| `Client.LaterAddWins` | src/client/index.tsx:45-48 | of two add-markers for one id, the second position's location is the one stored |
| `Client.AddAppendsPlayer` | src/client/index.tsx:50-57 | add-marker leaves the panel equal to the old panel plus one entry `{id, city or "Unknown", country or "Unknown"}` |
| `Client.DuplicateAddListsTwice` | src/client/index.tsx:43-57 | add-marker for an id the replica already holds leaves two panel entries with that id |
| `Client.RemoveDeletesMarker` | src/client/index.tsx:60 | after remove-marker, the id is not in the map and every other key is present, absent and valued as before |
| `Client.RemoveFiltersPlayers` | src/client/index.tsx:62 | remove-marker keeps every panel entry with another id as often as before, in the same relative order, and keeps no entry with the removed id |
| `Client.StrayRemoveIsNoOp` | src/client/index.tsx:58-63 | remove-marker for an id the replica does not hold leaves the whole state unchanged |
| `Client.RemoveIdempotent` | src/client/index.tsx:58-63 | applying the same remove-marker twice gives the same state as applying it once |
| `Client.StepPreservesValid` | src/client/index.tsx:41-64 | if the panel's ids equal the map's keys before a message, they do after it |
| `Client.Viewer.constructor` | src/client/index.tsx:23-36 | the component starts in the initial state, with the invariant holding |
| `Client.Viewer.OnMessage` | src/client/index.tsx:41-64 | the handler updates the map and the panel in place exactly as `Step` does, and it keeps the id/key agreement |
| `Client.Viewer.Snapshot` | src/client/index.tsx:93 | the per-frame read returns exactly the map's values, one per key in iteration order; it has no modifies clause, so it changes nothing |
| `History.RunPreservesValid` | src/client/index.tsx:41-64 | from any state where the panel's ids equal the map's keys, the agreement holds after any message stream |
| `History.AgreementFromStart` | src/client/index.tsx:41-64 | for a fresh viewer and any stream, the set of panel ids equals the map's key set |
| `History.LastWriteWins` | src/client/index.tsx:41-64 | after any stream, a fresh viewer maps an id to the marker of its last add-marker; it holds no entry when the id's last message was a remove-marker or when the id never appeared |
| `History.LiveKeys` | src/client/index.tsx:41-64 | after any stream, an id is a key of a fresh viewer's map if and only if its last message was an add-marker |
| `History.PanelCountsAdds` | src/client/index.tsx:50-62 | after any stream, a fresh viewer's panel lists an id once for each add-marker since the id's last remove-marker |
| `History.OrderWithinOneId` | src/client/index.tsx:41-64 | add, remove, add leaves the id present; add, remove, remove leaves it absent |

## Left out

- The server, and the coordinator that assigns ids, looks up locations and broadcasts to viewers. They are not part of this model because their source is not among the modelled files.
- The socket connection and `JSON.parse` (src/client/index.tsx:38-42). These are network I/O and a foreign decoder. The model starts from a decoded `OutgoingMessage`. A runtime value that does not fit the union, such as one with missing fields, is not modelled.
- Messages whose `type` is neither tag (src/client/index.tsx:43,58). In the code such a value takes the remove branch and calls `delete(message.id)`. The model does not cover this case because `OutgoingMessage` has only its two variants and values outside the union are excluded.
- An `add-marker` without a `position` (src/client/index.tsx:45). The code throws a `TypeError` there before any state changes. The model excludes it for the same reason.
- Globe rendering (src/client/index.tsx:67-156): the `createGlobe` settings, the canvas, the SVG title overlay and the JSX. These are presentation and foreign library calls. The part the globe reads, the snapshot, is modelled.
- The rotation counter `phi` (src/client/index.tsx:96-97). It is floating-point animation state.
- React plumbing: `useRef`, `useState`, `useEffect`, `createRoot`. Each `setPlayers` updater is applied immediately and in message order. React applies queued updaters in that same order.
- The precision of `lat`, `lng` and the size `0.09`. They are modelled as `real` because the handler only copies them.
