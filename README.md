# nab-lmdb-storage relay, modelled in Dafny

This project models the decision logic of the notabug LMDB storage relay. The
relay sits between a socket-cluster transport and an LMDB graph store. It
answers validated read requests from the store and hands validated writes to
the store. It fans each committed diff out to per-soul channels and re-uploads
stored Things through the transport. It also wraps the HTTP server's store
adapter in a validation gate.

The transport becomes append-only logs on the relay objects: `log` records the
`publishToChannel` calls, `sent` the `socket.send` calls and `uploads` the
graphs passed to `socket.put`. Every `lmdb.put` the relay issues is recorded in
`puts`. The store is a `map<Soul, Node>` together with its keys in cursor
order. Graph data is a sequence of `(soul, node)` entries in JavaScript key
order, with `None` standing for a falsy node.

Modules, one per source file:

- `GunTypes`: souls, nodes, graph data, messages, channel names, the Thing
  route, and the truthiness filter shared by all write paths.
- `GraphConnector`, for `src/NabLmdbGraphConnector.ts`: the point lookup, the
  store's reply to a read, the cursor order and the two Thing-id scans.
- `Storage`, for `src/NabLmdbStorage.ts`: the diff fan-out, the write-path
  filter, read routing and Thing upload, on the class `NabLmdbStorage`.
- `GunPeer`, for `src/Gun.ts`: the Gun peer variant of the same paths, on the
  class `Gun`.
- `Server`, for `src/server.ts`: the validation gate and the message that
  `validateGraph` builds.

Three behaviours of the code worth noting:

- The scans walk from the first key not below `nab/things/` to the end of the
  keyspace. They do not stop where the prefix ends (`ScanPassesPrefixEnd`).
- `publishDiff` splits a diff whenever it does not have exactly one soul.
  This includes an empty diff, which publishes only the whole message.
- The upload graph is the object literal `{[thingSoul]: thing, [dataSoul]:
  thingData}`. When the two souls are equal it has a single key.

## Model

| member | source | states |
|---|---|---|
| `GunTypes.RequestedSoul` | src/NabLmdbStorage.ts:67 | the requested soul is non-empty exactly when `get['#']` is present and non-empty, and is then that value |
| `GunTypes.DataSoul` | src/NabLmdbStorage.ts:131 | a root node links to a data soul exactly when its `data` field is a link with a non-empty target |
| `GunTypes.TruthyEntriesMembers` | src/Gun.ts:101-105 | the kept entries are exactly the input entries whose node is truthy |
| `GunTypes.TruthyEntriesAppend` | src/Gun.ts:101-105 | filtering commutes with concatenation, so the kept entries stay in key order |
| `GunTypes.TruthyEntriesDistinct` | src/NabLmdbStorage.ts:229-239 | filtering graph data with distinct keys yields graph data with distinct keys |
| `GraphConnector.LexLessTransitive` | src/NabLmdbGraphConnector.ts:12-17 | the cursor's key order is transitive |
| `GraphConnector.RangeStart` | src/NabLmdbGraphConnector.ts:12 | `goToRange` positions the cursor after every key below the prefix, on a key that is not below it, or at the end |
| `GraphConnector.RangeStartSplits` | src/NabLmdbGraphConnector.ts:12-19 | on a sorted keyspace a key is visited exactly when it is not below `nab/things/`, whether or not it has that prefix |
| `GraphConnector.ScannedKeysAreTruthy` | src/NabLmdbGraphConnector.ts:12-18 | on a sorted keyspace every key from the range start on is non-empty, so `while (soul)` stops only at the end of the keyspace |
| `GraphConnector.PrefixIsNotBelow` | src/NabLmdbGraphConnector.ts:12 | a key that starts with the prefix is never below it, so `goToRange` never skips it |
| `GraphConnector.ScanPassesPrefixEnd` | src/NabLmdbGraphConnector.ts:12-19 | a key after the Thing range (`nab/zzz`) is visited while a key before it (`a`) is not |
| `GraphConnector.MatchedId` | src/NabLmdbGraphConnector.ts:15-16 | a key yields a Thing id exactly when the route matches it with a non-empty `thingId` |
| `GraphConnector.ThingIds` | src/NabLmdbGraphConnector.ts:14-19 | the visitor receives at most one id per visited key |
| `GraphConnector.ThingIdsMembers` | src/NabLmdbGraphConnector.ts:14-19 | the visitor receives an id exactly when some visited key yields it |
| `GraphConnector.ThingIdsSplit` | src/NabLmdbGraphConnector.ts:14-19 | the ids of consecutive runs of cursor positions follow each other, so visits come in key order |
| `GraphConnector.GetReply` | src/NabLmdbStorage.ts:71-80 | the store's reply to a read carries the request id, and carries `{soul: node}` exactly when the soul is stored |
| `GraphConnector.NabLmdbGraphConnector.ReadNode` | src/NabLmdbGraphConnector.ts:24-26 | the lookup returns the stored node when the soul is stored and absent otherwise, and reads only |
| `GraphConnector.NabLmdbGraphConnector.EachThingId` | src/NabLmdbGraphConnector.ts:9-22 | the visitor is called once per visited key with a truthy match, with that id, in key order; `count` is the number of visited keys; nothing is written |
| `GraphConnector.NabLmdbGraphConnector.EachThingIdAsync` | src/NabLmdbGraphConnector.ts:28-41 | the awaited visitor's state is threaded through the ids in key order, one visit finishing before the next starts; `count` is the number of visited keys |
| `Storage.DiffFanOut` | src/NabLmdbStorage.ts:210-241 | no diff means no publication; otherwise the whole message goes first to `gun/put/diff` and the total is 1 plus the number of truthy deltas; a single soul reuses the original message on its channel only if its delta is truthy; otherwise the j-th further message is the split message of the j-th truthy delta |
| `Storage.SplitCoversTruthySouls` | src/NabLmdbStorage.ts:229-240 | in the split case a soul's own delta is published on its channel exactly when that delta is truthy |
| `Storage.SplitIdsDistinct` | src/NabLmdbStorage.ts:234-239 | in the split case all message ids are pairwise distinct, none equals the original id, and the per-soul channels are pairwise distinct |
| `Storage.TwoSoulDiffExample` | src/NabLmdbStorage.ts:210-241 | a put of A and B under `m1` publishes `m1` on `gun/put/diff`, then `m1/A` on `gun/nodes/A` and `m1/B` on `gun/nodes/B` |
| `Storage.KeptEntriesMembers` | src/NabLmdbStorage.ts:99-108 | `putGraph` holds exactly the entries with a non-empty soul and a truthy node, nodes unchanged |
| `Storage.KeptEntriesAppend` | src/NabLmdbStorage.ts:99-108 | the write filter commutes with concatenation, so `putGraph` keeps the key order of `msg.put` |
| `Storage.KeptEntriesVersusTruthy` | src/NabLmdbStorage.ts:99-108 | this filter equals the plain truthiness filter exactly when no truthy node sits under the empty soul |
| `Storage.PersistDecision` | src/NabLmdbStorage.ts:87-119 | a message causes a store write exactly when it has a `put` with a truthy node under a non-empty soul; that write is the only one, carries the request id and exactly those entries |
| `Storage.GetRouting` | src/NabLmdbStorage.ts:63-80 | a falsy message or one without a soul publishes nothing; otherwise the reply always goes last to `gun/@{msgId}`, and when the soul is not stored the request is first published once on `gun/get/missing` |
| `Storage.UploadGraphSpec` | src/NabLmdbStorage.ts:127-155 | a graph is sent exactly when the root node, its `data` link and the linked node exist; it has distinct keys, exactly the root and data souls, each mapped to its stored node |
| `Storage.UploadsFold` | src/NabLmdbStorage.ts:159-161 | folding the awaited upload over the scanned ids appends their uploads in id order |
| `Storage.UploadsAreThingGraphs` | src/NabLmdbStorage.ts:159-161 | a bulk upload sends at most one graph per id; each graph it sends is the upload graph of one of the ids, and every id whose Thing is complete has its graph sent |
| `Storage.UploadCount` | src/NabLmdbStorage.ts:159-161 | a bulk upload sends exactly as many graphs as there are ids whose root node, `data` link and linked node all exist |
| `Storage.NabLmdbStorage.RespondToGet` | src/NabLmdbStorage.ts:55-84 | the read handler appends exactly the read-routing publications to the log |
| `Storage.NabLmdbStorage.PersistIncoming` | src/NabLmdbStorage.ts:86-121 | the write handler issues exactly the store writes of the write decision, keeping every write non-empty, truthy and under non-empty souls |
| `Storage.NabLmdbStorage.OnPutAck` | src/NabLmdbStorage.ts:115 | the store's acknowledgement is published on the request's reply channel |
| `Storage.NabLmdbStorage.PublishDiff` | src/NabLmdbStorage.ts:210-241 | the diff callback appends exactly the fan-out publications to the log |
| `Storage.NabLmdbStorage.PublishSplit` | src/NabLmdbStorage.ts:229-240 | the split loop appends one split message per truthy delta, in key order |
| `Storage.NabLmdbStorage.UploadThing` | src/NabLmdbStorage.ts:123-157 | the upload sends the Thing's upload graph, or nothing when a piece is missing |
| `Storage.NabLmdbStorage.UploadThings` | src/NabLmdbStorage.ts:159-161 | the bulk upload sends the upload graphs of the scanned Thing ids, one after the other, in key order |
| `GunPeer.GunPersistDecision` | src/Gun.ts:96-113 | a graph-data event causes a store write exactly when it has a truthy node; that write is the only one and carries exactly the truthy entries |
| `GunPeer.WriteVariantsAgree` | src/Gun.ts:99-107 | the two write paths issue the same store write exactly when no truthy node sits under the empty soul |
| `GunPeer.ReadVariantsAgree` | src/Gun.ts:83-91 | the Gun peer answers the same reads as NabLmdbStorage with the same reply; only NabLmdbStorage also flags missing souls |
| `GunPeer.Gun.RespondToGet` | src/Gun.ts:80-93 | a read with a soul is answered with the store's reply; other messages are ignored |
| `GunPeer.Gun.PersistIncoming` | src/Gun.ts:95-115 | the graph-data handler issues exactly the Gun store writes, keeping every write non-empty and truthy |
| `GunPeer.Gun.OnPutAck` | src/Gun.ts:111 | a write result is sent only when it is truthy |
| `GunPeer.Gun.UploadThing` | src/Gun.ts:117-146 | the upload sends the Thing's upload graph, or nothing when a piece is missing |
| `GunPeer.Gun.UploadThings` | src/Gun.ts:148-150 | the bulk upload sends the upload graphs of the scanned Thing ids in key order |
| `Server.MakeValidationAdapter` | src/server.ts:14-31 | the gated adapter has no `putSync`, and its read members are those of the wrapped adapter |
| `Server.GateRejects` | src/server.ts:21-27 | a rejected graph fails with `Invalid graph data`, and the result does not depend on the wrapped `put` |
| `Server.GateAccepts` | src/server.ts:21-24 | an accepted graph is written by exactly the wrapped adapter's `put` of the same graph |
| `Server.ValidationMessage` | src/server.ts:35-38 | the oracle judges `{'#': 'dummymsgid', put: graph}` with the entire graph |
| `Server.ServerWritesAreValidated` | src/server.ts:41-45 | a write through the served adapter succeeds only if the suppressor accepted the whole graph, and then equals the store's own write |

## Left out

- Authentication is not modelled: `authenticate`, `authenticateAndListen`, the credential lookup in environment variables and the 30-minute re-authentication timer are network I/O and timers. `authenticate` throws when credentials are missing; the model makes no claim about an unauthenticated mode.
- The socket-cluster transport is replaced by the logs `log`, `sent` and `uploads`. Subscriptions, `waitForAuth`, connect events and the publish internals are left out.
- The CRDT merge inside `lmdb.put` is foreign library code. The model records each `PutRequest` the relay issues. The store's later callbacks are the separate methods `OnPutAck` and `PublishDiff`; their relative order is the library's and is not modelled.
- LMDB transactions and cursors are a read-only snapshot of sorted keys. Opening and aborting the transaction, the on-disk layout and the map size are not modelled. The scan methods have no `modifies` clause, so they cannot write.
- Keys are ordered by code point. This matches LMDB's byte order only if keys are stored as UTF-8, and the encoding is not modelled.
- `Schema.Thing.route` is uninterpreted: `reverse` and `matchSoul` are parameters. No round trip between them is assumed.
- `scanThings` is not modelled: it runs a JavaScript case-insensitive regular expression and only logs its matches.
- `GraphConnector.GetReply`: the shape of the reply `lmdb.get` passes to its callback is assumed, not shown by the code. `get` is inherited from `LmdbGraphConnector`, which is not part of this model. The model assumes the reply carries the request id, and carries `put` exactly when the soul is stored. The claims of `Storage.GetRouting` and `GunPeer.ReadVariantsAgree` about the reply's id and about missing souls rest on this assumption.
- `Storage.KeptEntries`: an entry is added to `putGraph` as an own key. In JavaScript, assigning the key `__proto__` replaces `putGraph`'s prototype and adds no own key. For `{'#': 'm', put: {'__proto__': {x: 1}}}`, NabLmdbStorage calls `lmdb.put` with a graph that has no own keys, but the model issues a write with the `__proto__` entry.
- `GunTypes.TruthyEntries`: the same `__proto__` assignment applies to the Gun peer's `putGraph`. That code then counts no own keys and writes nothing, but the model issues a write with the `__proto__` entry.
- `Storage.TwoSoulGraph`: the entries are always listed with the root soul first. A JavaScript object literal lists array-index keys such as `"7"` first, in numeric order, so the real order can differ.
- `Storage.NabLmdbStorage.UploadThings`: assumes that every `socket.put` is acknowledged. In this variant the promise of `uploadThing` resolves only in the ack callback, and there is no timeout. One unacknowledged upload therefore stalls `eachThingIdAsync`, and no later Thing is sent. The Gun peer variant does not need this assumption, because its 10 ms timeout always resolves the promise.
- `Storage.NabLmdbStorage.UploadThing`: does not model the returned promise, which resolves when the ack callback runs, nor the `off()` deregistration that follows it.
- `GunPeer.Gun.UploadThing`: does not model the race between the ack and the 10 ms timeout, nor the `ok()` then `off()` calls of each callback invocation. These are promise and timer scheduling.
- The Gun peer's constructor is not modelled: `graph.use(diffGunCRDT)` under `enforceCRDT` and `graph.connect` are foreign calls.
- `validate` returns a promise. A rejected promise is not modelled; the oracle is a total function to `bool`.
- `Validation.createSuppressor`, `createGraphAdapter` and `createServer` are foreign calls. The suppressor is the parameter `suppress`, the adapter a parameter, and the HTTP server is left out.
- `console.log` diagnostics are left out. The scan's `count` is only logged; the model returns it.
- `src/main.ts` is startup wiring and is not part of this model.
- Message ids are always strings. A missing `'#'`, which JavaScript would turn into `gun/@undefined`, is not modelled.
- Graph data is taken in JavaScript enumeration order as given. `for…in` also enumerates inherited properties, which is not modelled. `diff[soul]` is read as the entry at the loop position, which is the same because object keys are distinct.
