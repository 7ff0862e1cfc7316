# Cluster-metadata store of the elasticell placement driver, in Dafny

This project models `pkg/pdserver/storage/cluster.go`, the part of the
placement driver (PD) that keeps a cluster's identity and placement metadata
in an etcd-style coordination service, and proves what that code promises:

- **Key schema.** The cluster record lives at `<root>/<clusterID>`. A store
  lives at `<root>/<clusterID>/stores/<id %020d>` and a cell at
  `<root>/<clusterID>/cells/<id %020d>`. The twenty-digit padding makes byte
  order on keys agree with numeric order on IDs, and store keys never collide
  with cell keys.
- **Cluster-ID lookup** (`GetClusterID`). It reads the earliest-created key
  under the cluster-ID path. The canonical key holds the ID as eight
  big-endian bytes. An older key layout holds it as its fourth `/`-separated
  segment in decimal.
- **Exactly-once cluster-ID creation** (`CreateFirstClusterID`). One
  compare-and-swap transaction stores a candidate ID only if the key was
  never created. Otherwise it reads back the committed ID.
- **All-or-nothing bootstrap** (`SetClusterBootstrapped`). One transaction
  writes the cluster, store and cell records only if the cluster key was
  never created.
- **Point reads and writes.** `LoadClusterMeta` reads the cluster record;
  `SetStoreMeta` and `SetCellMeta` overwrite one record.
- **Paginated enumeration** (`LoadStoreMeta`, `LoadCellMeta`). A cursor
  loop reads pages of at most `limit` keys in `[key(startID),
  key(MaxUint64))`, visits each decoded record, moves the cursor to
  `ID + 1`, and stops when a page comes back short.

The files, in dependency order:

| file | module | contents |
|---|---|---|
| `types.dfy` | `Types` | uint64/uint32/byte, `Option`, `Result`, the store's errors |
| `lex.dfy` | `Lex` | byte-wise key order, sorted key sequences, the keys of a range read |
| `text.dfy` | `Text` | `%d`/`%020d` formatting, `strings.Split`, `strconv.ParseUint(s, 10, 64)` |
| `keys.dfy` | `Keys` | the key builders and their order, injectivity and disjointness |
| `codec.dfy` | `Codec` | the 8-byte integer encoding, record codecs as function pairs, the records |
| `kv.dfy` | `Kv` | the coordination service: a key map, a creation log, reads, puts, transactions |
| `enumeration.dfy` | `Enumeration` | what a scan means, the per-round lemmas, the page visitor |
| `cluster.dfy` | `Cluster` | the store itself: class `ClusterStore` and the cluster-ID helpers |
| `scenarios.dfy` | `Scenarios` | repeated or racing callers, and a write followed by an enumeration |

Each transaction is one atomic method of `Kv.Backend`, so concurrent callers
are covered as "any sequence of atomic calls". The backend holds the key map
and the keys in creation order. A key has a non-zero creation revision
exactly when it is present, because this core never deletes keys.

## Model

| member | source | states |
|---|---|---|
| Keys.ClusterMetaKey | pkg/pdserver/storage/cluster.go:269-271 | the cluster key is the root, a separator, and the cluster ID as one separator-free segment |
| Keys.ClusterMetaKeyId | pkg/pdserver/storage/cluster.go:270 | the last segment of a cluster key parses back to the cluster ID |
| Keys.StoreKeyPrefix | pkg/pdserver/storage/cluster.go:273-275 | the store prefix sorts after the cluster key, and neither it nor the cell prefix of the same cluster starts the other |
| Keys.CellKeyPrefix | pkg/pdserver/storage/cluster.go:278-280 | the cell prefix sorts after the cluster key |
| Keys.StoreMetaKey | pkg/pdserver/storage/cluster.go:273-276 | a store key is its cluster's store prefix followed by exactly twenty characters |
| Keys.CellMetaKey | pkg/pdserver/storage/cluster.go:278-281 | a cell key is its cluster's cell prefix followed by exactly twenty characters |
| Keys.MetaKeyIds | pkg/pdserver/storage/cluster.go:273-281 | the store or cell ID is read back from the twenty characters after the prefix |
| Keys.Pad20 | pkg/pdserver/storage/cluster.go:275 | `%020d` of any uint64 is exactly twenty characters |
| Keys.Uint64FitsTwentyDigits | pkg/pdserver/storage/cluster.go:275 | MaxUint64 is below 10^20, so the twenty-digit padding never drops a digit |
| Keys.EntityKey | pkg/pdserver/storage/cluster.go:273-281 | an entity key is its kind prefix followed by exactly twenty characters |
| Keys.EntityKeyId | pkg/pdserver/storage/cluster.go:273-281 | the ID can be read back from an entity key, so different IDs under one prefix give different keys |
| Keys.IsEntityKeyMeans | pkg/pdserver/storage/cluster.go:273-281 | the entity-key test accepts exactly the keys the builders produce |
| Keys.EntityKeyOrder | pkg/pdserver/storage/cluster.go:273-281 | for one cluster and kind, ID a < ID b if and only if key(a) sorts before key(b) |
| Keys.StoreCellKeysDisjoint | pkg/pdserver/storage/cluster.go:273-281 | no store key equals any cell key, whatever the clusters and IDs |
| Keys.BootstrapKeysDistinct | pkg/pdserver/storage/cluster.go:115-117 | the cluster, store and cell keys of a bootstrap are pairwise distinct |
| Keys.CursorAdvance | pkg/pdserver/storage/cluster.go:198 | after visiting the record with ID `last` at position j-1 of the sorted entity keys, the key of `last + 1` lies above everything before j and below nothing from j on |
| Keys.KeyAboveCursor | pkg/pdserver/storage/cluster.go:198 | a key above the key of `last` is not below the key of `last + 1` |
| Text.Pad | pkg/pdserver/storage/cluster.go:275 | zero-padding yields exactly the requested width |
| Text.Decimal | pkg/pdserver/storage/cluster.go:270 | `%d` yields a non-empty run of decimal digits |
| Text.PadOrder | pkg/pdserver/storage/cluster.go:275 | zero-padding to a common width turns numeric order into string order |
| Text.Split | pkg/pdserver/storage/cluster.go:61 | `strings.Split` never returns an empty slice |
| Text.SplitJoin | pkg/pdserver/storage/cluster.go:61 | splitting loses nothing: joining the pieces gives back the key, and no piece holds a separator |
| Text.SplitCount | pkg/pdserver/storage/cluster.go:61-62 | a key splits into one more piece than it has separators |
| Text.SplitHead | pkg/pdserver/storage/cluster.go:61 | a separator-free head becomes the first piece |
| Text.SplitWhole | pkg/pdserver/storage/cluster.go:61 | a separator-free string is one piece |
| Text.StepDigit | pkg/pdserver/storage/cluster.go:66 | one parsing step succeeds only on a digit, and then yields ten times the value so far plus the digit |
| Text.ParseDigitsSnoc | pkg/pdserver/storage/cluster.go:66 | parsing one more character continues from the shorter string's result |
| Text.ParseDecimal | pkg/pdserver/storage/cluster.go:66 | `ParseUint` of the `%d` form of n is n |
| Text.ParsePad | pkg/pdserver/storage/cluster.go:66 | the twenty padded digits of n parse back to n |
| Text.ParseUint | pkg/pdserver/storage/cluster.go:66 | `strconv.ParseUint` of the empty string is a syntax error, and only a non-empty run of digits parses |
| Text.ParseDigitsOnlyDigits | pkg/pdserver/storage/cluster.go:66 | only a string of digits parses |
| Codec.Uint64ToBytes | pkg/pdserver/storage/cluster.go:80 | the encoded cluster ID is eight bytes |
| Codec.BytesToUint64 | pkg/pdserver/storage/cluster.go:57 | decoding fails exactly when the value is not eight bytes long |
| Codec.Uint64BytesRoundTrip | pkg/pdserver/storage/cluster.go:80 | decoding the encoding of an ID gives back that ID |
| Codec.BytesUint64RoundTrip | pkg/pdserver/storage/cluster.go:107 | every 8-byte value is the encoding of the ID it decodes to |
| Lex.SortedRange | pkg/pdserver/storage/cluster.go:186 | a range read returns its keys strictly ascending |
| Lex.SortedRangeMembers | pkg/pdserver/storage/cluster.go:186 | a range read returns exactly the present keys in `[lo, hi)` |
| Lex.RangeSuffix | pkg/pdserver/storage/cluster.go:185-186 | reading from a cursor that splits the full range at j returns exactly the full range from j on |
| Kv.Step | pkg/pdserver/storage/cluster.go:84-85 | a put or get keeps the creation log in step with the keys, and the log only grows |
| Kv.Exec | pkg/pdserver/storage/cluster.go:141-144 | a transaction branch runs its operations in order with one response each, keeping the log in step |
| Kv.ExecThreePuts | pkg/pdserver/storage/cluster.go:141-144 | a branch of three puts on distinct keys writes the three values, and logs each key that was new, in order |
| Kv.FirstWithPrefix | pkg/pdserver/storage/cluster.go:47 | the first-created read finds nothing exactly when no key has the prefix, and otherwise the earliest-created key that has it |
| Kv.RangeRead | pkg/pdserver/storage/cluster.go:186 | a limited range read returns the first min(limit, n) keys of the range, in order, with their values |
| Kv.Backend.Value | pkg/pdserver/storage/cluster.go:162 | a point read returns the stored value, or nothing when the key is absent |
| Kv.Backend.Range | pkg/pdserver/storage/cluster.go:186 | a range read on the current contents, as `RangeRead` |
| Kv.Backend.FirstCreated | pkg/pdserver/storage/cluster.go:47 | the key found under a prefix is present, has the prefix, and no key created before it has the prefix; there is none exactly when no key has it |
| Kv.Backend.Put | pkg/pdserver/storage/cluster.go:255 | a save overwrites one key and nothing else, logging it if new |
| Kv.Backend.Txn | pkg/pdserver/storage/cluster.go:82-86 | a transaction takes its then-branch exactly when the key was never created, and its effect is that branch run atomically |
| Enumeration.CollectionMembers | pkg/pdserver/storage/cluster.go:180-186 | the keys a scan covers are exactly the present keys from the key of ID 0 up to the key of MaxUint64 |
| Enumeration.CursorAtStart | pkg/pdserver/storage/cluster.go:179 | the starting cursor, ID 0, lies below every key of the collection |
| Enumeration.StartKeyInRange | pkg/pdserver/storage/cluster.go:185 | no cursor key lies below the key of ID 0 |
| Enumeration.CollectionEntityKeys | pkg/pdserver/storage/cluster.go:180-186 | under the namespace invariant every key of the collection is an entity key |
| Enumeration.DecodedRecordKey | pkg/pdserver/storage/cluster.go:191-198 | a decoded record of the collection sits at the key of its own ID, an ID below MaxUint64 |
| Enumeration.PutKeepsWellKeyed | pkg/pdserver/storage/cluster.go:248-256 | writing a record under the key of its own ID keeps the namespace invariant |
| Enumeration.VisitedExtend | pkg/pdserver/storage/cluster.go:199 | visiting the record at the next key extends the visited prefix |
| Enumeration.ScanStart | pkg/pdserver/storage/cluster.go:179-185 | before the first round nothing is visited and the cursor splits the collection at 0 |
| Enumeration.NextPage | pkg/pdserver/storage/cluster.go:185-186 | the page read at the cursor is the next min(limit, remaining) keys of the collection, with their values |
| Enumeration.PageOfCollection | pkg/pdserver/storage/cluster.go:186-198 | each decodable record of a page sits at the key of its own ID, an ID below the end |
| Enumeration.VisitPage | pkg/pdserver/storage/cluster.go:191-200 | the page loop visits the page's records in order, stops at the first that does not decode, and leaves the cursor one past the last ID visited |
| Enumeration.RoundAdvances | pkg/pdserver/storage/cluster.go:191-200 | after a fully visited non-empty page the scan invariant holds at the new position and cursor |
| Enumeration.ScanStopped | pkg/pdserver/storage/cluster.go:193-196 | a record that does not decode ends the scan with an error at that record, after the earlier visits |
| Enumeration.ScanFinished | pkg/pdserver/storage/cluster.go:202-205 | a scan that has reached the end of the collection has visited all of it |
| Enumeration.VisitRound | pkg/pdserver/storage/cluster.go:191-205 | a round fails at an undecodable record, or keeps the scan invariant; it asks for more only after progress, and otherwise has reached the end |
| Enumeration.ScanAscending | pkg/pdserver/storage/cluster.go:184-206 | a scan visits records in strictly ascending ID order, so none twice |
| Enumeration.ScanStored | pkg/pdserver/storage/cluster.go:184-206 | every visited record is the one stored under the key of its own ID |
| Enumeration.ScanComplete | pkg/pdserver/storage/cluster.go:184-208 | a scan without error visits every stored entity with an ID below MaxUint64 |
| Enumeration.NonEmptyCollection | pkg/pdserver/storage/cluster.go:180-186 | a non-empty collection holds some stored entity |
| Enumeration.ScanMeaning | pkg/pdserver/storage/cluster.go:178-209 | a scan outcome means ascending IDs, records under their own keys, completeness when there is no error, and no visits and no error for an empty collection |
| Cluster.ShiftTruncation | pkg/pdserver/storage/cluster.go:79 | shifting left by 32 bits keeps only the low 32 bits of the timestamp |
| Cluster.CandidateId | pkg/pdserver/storage/cluster.go:78-79 | the candidate ID has the random word in its low half and the low 32 bits of the clock in its high half |
| Cluster.CommittedClusterId | pkg/pdserver/storage/cluster.go:92-107 | a committed transaction yields the candidate; an empty response list or a response that is not one key-value pair is an error; otherwise it succeeds exactly when the value read is eight bytes, and the ID is the one whose encoding was read |
| Cluster.ClusterIdFromKey | pkg/pdserver/storage/cluster.go:53-66 | the canonical key succeeds exactly when its value is eight bytes; another key succeeds only when its fourth segment is a non-empty run of digits |
| Cluster.CanonicalKeyRoundTrip | pkg/pdserver/storage/cluster.go:56-57 | the canonical key yields exactly the ID encoded in its value |
| Cluster.LegacyKeyRoundTrip | pkg/pdserver/storage/cluster.go:60-66 | an older-layout key `a/b/c/<id>[/...]` yields the ID written in its fourth segment |
| Cluster.LegacyKeyTooShort | pkg/pdserver/storage/cluster.go:61-63 | a non-canonical key is rejected as malformed exactly when it has fewer than three separators |
| Cluster.ClusterStore.GetClusterID | pkg/pdserver/storage/cluster.go:46-67 | 0 when no key lies under the cluster-ID path; the decoded value when the earliest-created key is the canonical one; for an older-layout key, a malformed-key error exactly when it has fewer than three separators; an error only when such a key exists |
| Cluster.ClusterStore.CreateFirstClusterID | pkg/pdserver/storage/cluster.go:73-108 | a never-created key gets the candidate, which is returned; otherwise nothing changes and the stored ID is returned; either way the result is what the key holds |
| Cluster.ClusterStore.SetClusterBootstrapped | pkg/pdserver/storage/cluster.go:111-156 | a marshal failure is an error with nothing written; otherwise, if the cluster key was never created, all three records are written and the creation log gains the cluster key then the store and cell keys that were new; if it was, neither the keys nor the log change |
| Cluster.ClusterStore.LoadClusterMeta | pkg/pdserver/storage/cluster.go:159-174 | an absent cluster record is no record and no error; a stored one is decoded, and undecodable bytes are an error |
| Cluster.ClusterStore.Scan | pkg/pdserver/storage/cluster.go:184-208 | the cursor loop terminates; its visits and error are those of the scan outcome over the collection |
| Cluster.ClusterStore.Round | pkg/pdserver/storage/cluster.go:185-205 | one pass of the loop: a page read at the cursor, then visited as `VisitRound` states |
| Cluster.ClusterStore.LoadStoreMeta | pkg/pdserver/storage/cluster.go:178-209 | stores are visited once each, in ascending ID order, each the record under its own key; all of them when there is no error; none and no error when there are none |
| Cluster.ClusterStore.LoadCellMeta | pkg/pdserver/storage/cluster.go:213-245 | the same for cells |
| Cluster.ClusterStore.SetStoreMeta | pkg/pdserver/storage/cluster.go:248-256 | a marshal failure is an error with nothing written; otherwise exactly the store's key is overwritten, and the creation log gains it only if it was new |
| Cluster.ClusterStore.SetCellMeta | pkg/pdserver/storage/cluster.go:259-267 | a marshal failure is an error with nothing written; otherwise exactly the cell's key is overwritten, and the creation log gains it only if it was new |
| Scenarios.CreateFirstClusterIDRepeatedly | pkg/pdserver/storage/cluster.go:69-108 | any sequence of callers all get the one ID the key holds: the first caller's candidate if the key was new, the stored ID otherwise; later calls change neither the keys nor the creation log |
| Scenarios.BootstrapRepeatedly | pkg/pdserver/storage/cluster.go:110-156 | of any sequence of bootstrap attempts at most one succeeds: none if the cluster was bootstrapped, the first if it was not and the first attempt marshals; with no winner the keys and the creation log are unchanged; the winner's records stay, and its cluster record reads back |
| Scenarios.BootstrapOnce | pkg/pdserver/storage/cluster.go:110-156 | one attempt wins only on a never-created cluster key and then holds its three records; a loss changes neither the keys, the creation log nor the cluster-ID lookup; an attempt that marshals on a new cluster wins |
| Scenarios.BootstrapReadsBack | pkg/pdserver/storage/cluster.go:159-174 | after a won bootstrap, with a round-tripping codec, `LoadClusterMeta` returns the written cluster record |
| Scenarios.SaveStoreThenList | pkg/pdserver/storage/cluster.go:178-256 | a store written with SetStoreMeta is visited by the next LoadStoreMeta that ends without error, when its ID is below MaxUint64 |
| Scenarios.StoredRecordVisited | pkg/pdserver/storage/cluster.go:178-209 | a record stored under the key of its own ID is among the visits of a complete scan of the store collection |

## Left out

- Transport, connection and timeout errors of the coordination service, and the request contexts: the backend here never fails.
- `GetCurrentClusterMembers`: a membership RPC with no logic of its own.
- The clock and random source of `CreateFirstClusterID` are the parameters `ts` and `rnd`.
- The protobuf `Marshal`/`Unmarshal` of the cluster, store and cell records: a `RecordCodec` is any pair of functions that may fail. Properties that need decode-after-encode assume `RoundTrips`. The records carry their ID and an uninterpreted payload.
- `util.Uint64ToBytes`/`util.BytesToUint64` are not part of this model. They are taken to be 8-byte big-endian, with any other length an error.
- The constants `pdClusterIDPath` and `pdClusterRootPath` are not part of this model. They are the fields `idPath` and `rootPath`.
- `s.get`, `s.save` and `s.getValue` are modelled directly as backend reads and writes.
- etcd revisions: only "was this key ever created" and the creation order are kept. Several keys created by one transaction are ordered by their position in it.
- Cluster.ClusterStore.LoadStoreMeta requires `limit > 0`. With `limit <= 0` etcd applies no limit, a page is never shorter than the limit, and the loop never ends.
- Cluster.ClusterStore.LoadStoreMeta requires the namespace invariant `WellKeyed`. Every key in the scanned range must be a store key, and a record that decodes must carry the ID of its key, as SetStoreMeta writes it. A record whose ID disagrees with its key can move the cursor backwards, and then the loop need not terminate. A foreign key in the range can sort between the keys of IDs n and n+1 (for example the key of n with a suffix). Inside a page the loop tries to decode it. At a page boundary the cursor, the key of n+1, passes over it unread. So without the first half the outcome depends on `limit`, and "no error means every key was visited" does not hold.
- Cluster.ClusterStore.LoadCellMeta has the same two requirements for cells.
- The visitor callback `do` is the returned sequence `visited` of the records passed to it, in order.
- Cluster.ClusterStore.GetClusterID returns only the error when the fourth segment of an older-layout key overflows a uint64. `strconv.ParseUint` also returns MaxUint64 alongside its range error, and the code passes both through.
- Cluster.ClusterStore.LoadClusterMeta returns only the error when the stored bytes do not decode. The code also returns the partly decoded record alongside the error.
- Cluster.ClusterStore.CreateFirstClusterID: the error branches of `CommittedClusterId` for an empty or malformed else-response cannot arise against this backend, which always answers a get with one pair. They are proved about `CommittedClusterId` itself.
- Concurrency is covered only as an arbitrary sequence of atomic calls. Interleavings inside one paginated enumeration are not modelled; the enumeration is proved against an unchanging map.
