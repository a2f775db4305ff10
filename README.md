# Equality-index key maintenance of the JE backend, in Dafny

This project models the equality indexer of the OpenDS directory server's
Berkeley DB JE backend (`EqualityIndexer`). For one attribute type, the
indexer turns the attribute's values into index keys in three situations:

- when an entry is added, it computes all keys of the entry;
- when an entry is replaced, it computes the keys to insert and the keys to delete, as two set differences;
- when an entry is modified, it first checks whether a fast path is safe.
  The fast path needs every modification of the type to be an ADD, or a DELETE
  that names values, and no attribute instance with options anywhere. It then
  streams the modifications and cancels ADDs against pending DELETEs and the
  reverse. Otherwise it falls back to the full old/new diff.

Modules, leaves first:

- `Ldap` (`ldap.dfy`): attribute types, values, instances (type, options, values), modifications, entries.
- `IndexKeys` (`index_keys.dfy`): the keys of a value set and of an instance list, the full diff, and their properties.
- `ModifySpec` (`modify_spec.dfy`): the eligibility test, the fast path as a left-to-right fold over per-modification steps, and what a modify request stages.
- `FastPathProofs` (`fast_path_proofs.dfy`): the fast path stages exactly the full diff on every request that is valid under the matching rule.
- `GuardExamples` (`guard_examples.dfy`): for each condition of the eligibility test (options, a DELETE without values, REPLACE or INCREMENT) and for the validity of an ADD and of a DELETE, an input where dropping it makes the fast path diverge from the full diff.
- `EqualityIndexing` (`equality_indexer.dfy`): class `EqualityIndexer` with the source's operations as methods with loops, each proved against the specification functions above.

The caller-supplied `Set` arguments that the source fills in place are modelled
as sets passed in and returned (`keys` in, `keys'` out).

Value normalisation belongs to the attribute type's equality matching rule, and
a value can fail to normalise. It is modelled as the indexer's constant
`normalize: AttributeValue -> Option<Key>`, with `None` for a value that fails.

The central property is `FastPathProofs.FastPathMatchesFullDiff`. Suppose the
new entry's keys of the type are the old ones with the request's modifications
of the type applied in order. Suppose each modification is valid as section 4.6
of RFC 4511 requires, with values compared by the attribute's equality matching
rule: an ADD names no value that matches one present, and a DELETE names values,
each matching one present at that point. Because the matching rule compares
normalised forms, this is stated on keys (`ValidSimpleMods`). Then the fast path
stages exactly the keys the full diff stages. This holds for any number of
interleaved ADDs and DELETEs, including a DELETE of "Alice" followed by an ADD
of "alice" under case-insensitive matching. `GuardExamples` shows that each
guard of the eligibility test and each validity condition is needed. With
options, for instance, a DELETE from one instance can leave the value in
another, so the new keys are not the old keys minus the deleted ones.

The fast path starts from whatever the caller's sets already hold, not from
empty sets. The properties "disjoint" and "same as the full diff" are therefore
stated for a call that starts from empty sets.

## Model

| member | source | states |
|---|---|---|
| `EqualityIndexing.EqualityIndexer.constructor` | opendj-sdk/opends/src/server/org/opends/server/backends/jeb/EqualityIndexer.java:80-83 | the indexer keeps the attribute type it is created for |
| `EqualityIndexing.EqualityIndexer.ToString` | opendj-sdk/opends/src/server/org/opends/server/backends/jeb/EqualityIndexer.java:90-93 | the index name is the type's name or OID followed by `.equality` |
| `EqualityIndexing.IndexNamesDistinct` | opendj-sdk/opends/src/server/org/opends/server/backends/jeb/EqualityIndexer.java:90-93 | two indexers with the same index name index types with the same name or OID |
| `EqualityIndexing.EqualityIndexer.IndexEntry` | opendj-sdk/opends/src/server/org/opends/server/backends/jeb/EqualityIndexer.java:117-126 | adds every key of the entry's instances of the type; an entry without the type leaves the keys unchanged |
| `EqualityIndexing.EqualityIndexer.ReplaceEntry` | opendj-sdk/opends/src/server/org/opends/server/backends/jeb/EqualityIndexer.java:142-170 | adds exactly old keys minus new keys to `delKeys` and new minus old to `addKeys`; from empty sets the two results are disjoint |
| `IndexKeys.FullDiffDisjoint` | opendj-sdk/opends/src/server/org/opends/server/backends/jeb/EqualityIndexer.java:157-169 | from empty sets the full diff never stages a key for both insertion and deletion |
| `IndexKeys.FullDiffSameKeys` | opendj-sdk/opends/src/server/org/opends/server/backends/jeb/EqualityIndexer.java:149-169 | replacing an entry by one with the same keys stages nothing |
| `IndexKeys.FullDiffRemoveAll` | opendj-sdk/opends/src/server/org/opends/server/backends/jeb/EqualityIndexer.java:149-162 | removing every instance stages exactly the old keys for deletion and nothing for insertion |
| `EqualityIndexing.EqualityIndexer.ModifyEntry` | opendj-sdk/opends/src/server/org/opends/server/backends/jeb/EqualityIndexer.java:188-329 | stages the fast-path result when the request is eligible and the full diff otherwise; from empty sets the results are disjoint, and when an eligible request is valid under the matching rule they equal what `replaceEntry` stages |
| `EqualityIndexing.EqualityIndexer.ListHasOptions` | opendj-sdk/opends/src/server/org/opends/server/backends/jeb/EqualityIndexer.java:204-228 | true exactly when some instance of the list carries options; an absent list has none |
| `EqualityIndexing.EqualityIndexer.ClassifyMods` | opendj-sdk/opends/src/server/org/opends/server/backends/jeb/EqualityIndexer.java:230-264 | over the modifications of the type only: whether any carries options, whether all are ADD or DELETE with values, and those simple ones in request order |
| `ModifySpec.SimpleModsSelects` | opendj-sdk/opends/src/server/org/opends/server/backends/jeb/EqualityIndexer.java:230-264 | the simple list holds exactly the request's ADDs and value-carrying DELETEs of the type |
| `ModifySpec.NothingTargeted` | opendj-sdk/opends/src/server/org/opends/server/backends/jeb/EqualityIndexer.java:232-236 | a request without modifications of the type raises neither flag and selects no simple modification |
| `ModifySpec.UnrelatedModsIgnored` | opendj-sdk/opends/src/server/org/opends/server/backends/jeb/EqualityIndexer.java:232-272 | with no options around, modifications of other types leave `addKeys` and `delKeys` unchanged |
| `EqualityIndexing.EqualityIndexer.ApplySimpleMods` | opendj-sdk/opends/src/server/org/opends/server/backends/jeb/EqualityIndexer.java:272-309 | runs the modifications in order, each one's keys computed afresh, giving the fast-path fold |
| `EqualityIndexing.EqualityIndexer.StageAdd` | opendj-sdk/opends/src/server/org/opends/server/backends/jeb/EqualityIndexer.java:281-293 | key by key, an ADD removes a key pending deletion from `delKeys` and puts any other key into `addKeys` |
| `EqualityIndexing.EqualityIndexer.StageDelete` | opendj-sdk/opends/src/server/org/opends/server/backends/jeb/EqualityIndexer.java:295-307 | key by key, a DELETE removes a key pending insertion from `addKeys` and puts any other key into `delKeys` |
| `ModifySpec.StepKeepsDisjoint` | opendj-sdk/opends/src/server/org/opends/server/backends/jeb/EqualityIndexer.java:279-307 | one fast-path step keeps `addKeys` and `delKeys` disjoint |
| `ModifySpec.FastPathKeepsDisjoint` | opendj-sdk/opends/src/server/org/opends/server/backends/jeb/EqualityIndexer.java:272-309 | the whole fast path keeps `addKeys` and `delKeys` disjoint |
| `ModifySpec.ModifyDeltaDisjoint` | opendj-sdk/opends/src/server/org/opends/server/backends/jeb/EqualityIndexer.java:266-328 | from empty sets a modify request never stages a key both ways, on either path |
| `ModifySpec.DeleteThenAddCancels` | opendj-sdk/opends/src/server/org/opends/server/backends/jeb/EqualityIndexer.java:281-307 | deleting values and adding them back in one request stages nothing |
| `ModifySpec.AddThenDeleteCancels` | opendj-sdk/opends/src/server/org/opends/server/backends/jeb/EqualityIndexer.java:281-307 | adding values and deleting them again in one request stages nothing |
| `ModifySpec.AddOneDeleteAnother` | opendj-sdk/opends/src/server/org/opends/server/backends/jeb/EqualityIndexer.java:272-309 | ADD of one value then DELETE of another stages the first key for insertion and the second for deletion |
| `FastPathProofs.AddStepTracks` | opendj-sdk/opends/src/server/org/opends/server/backends/jeb/EqualityIndexer.java:281-293 | an ADD of new keys moves the staged diff from the current keys to the current keys plus the added ones |
| `FastPathProofs.DeleteStepTracks` | opendj-sdk/opends/src/server/org/opends/server/backends/jeb/EqualityIndexer.java:295-307 | a DELETE of present keys moves the staged diff from the current keys to the current keys minus the deleted ones |
| `FastPathProofs.FastPathTracksDiff` | opendj-sdk/opends/src/server/org/opends/server/backends/jeb/EqualityIndexer.java:272-309 | after each modification, valid under the matching rule, the staged sets are the diff between the original keys and the current keys |
| `FastPathProofs.FastPathMatchesFullDiff` | opendj-sdk/opends/src/server/org/opends/server/backends/jeb/EqualityIndexer.java:194-197 | when the new keys are the old keys with the modifications applied, each valid under the matching rule, the fast path stages exactly the full old/new diff |
| `FastPathProofs.ModifyMatchesReplace` | opendj-sdk/opends/src/server/org/opends/server/backends/jeb/EqualityIndexer.java:266-328 | on either path, a modify request stages what the full diff of `replaceEntry` stages, provided an eligible request is valid under the matching rule |
| `FastPathProofs.MatchingReplacementStagesNothing` | opendj-sdk/opends/src/server/org/opends/server/backends/jeb/EqualityIndexer.java:272-309 | deleting a value and adding one that matches it is valid and changes no key, and both paths stage nothing |
| `GuardExamples.OptionsDefeatFastPath` | opendj-sdk/opends/src/server/org/opends/server/backends/jeb/EqualityIndexer.java:194-241 | with a value in both a plain and an option-tagged instance, deleting it from the plain one must keep its key, but the fast path would delete it; the merged keys do not follow the DELETE, and the guard rejects such a request |
| `GuardExamples.DeleteAllDefeatsFastPath` | opendj-sdk/opends/src/server/org/opends/server/backends/jeb/EqualityIndexer.java:248-252 | a DELETE without values would stage nothing on the fast path while the full diff deletes every old key; the guard rejects it |
| `GuardExamples.ReplaceDefeatsFastPath` | opendj-sdk/opends/src/server/org/opends/server/backends/jeb/EqualityIndexer.java:259-261 | a REPLACE would stage nothing on the fast path while the full diff stages the new key and deletes the old; the guard rejects it |
| `GuardExamples.InvalidAddDefeatsFastPath` | opendj-sdk/opends/src/server/org/opends/server/backends/jeb/EqualityIndexer.java:266-293 | an ADD of a value already present is invalid; were it let through, the eligible request would stage a key for insertion that the full diff does not stage |
| `GuardExamples.InvalidDeleteDefeatsFastPath` | opendj-sdk/opends/src/server/org/opends/server/backends/jeb/EqualityIndexer.java:295-307 | a DELETE of a value not present is invalid; were it let through, the eligible request would stage for deletion a key the full diff does not stage |
| `GuardExamples.CollidingValuesDefeatFastPath` | opendj-sdk/opends/src/server/org/opends/server/backends/jeb/EqualityIndexer.java:281-293 | adding a value distinct from, but matching, a present one is invalid under the matching rule though new byte by byte; were it let through, the fast path would stage a key the full diff does not |
| `EqualityIndexing.EqualityIndexer.IndexValues` | opendj-sdk/opends/src/server/org/opends/server/backends/jeb/EqualityIndexer.java:336-357 | adds the key of every value that normalises and skips those that fail, continuing with the rest |
| `IndexKeys.KeysOf` | opendj-sdk/opends/src/server/org/opends/server/backends/jeb/EqualityIndexer.java:341-356 | every value that normalises contributes its key, and every key comes from such a value |
| `IndexKeys.KeysOfSkipsFailure` | opendj-sdk/opends/src/server/org/opends/server/backends/jeb/EqualityIndexer.java:343-355 | dropping a value whose normalisation fails leaves the keys unchanged |
| `EqualityIndexing.EqualityIndexer.IndexAttribute` | opendj-sdk/opends/src/server/org/opends/server/backends/jeb/EqualityIndexer.java:364-373 | adds the keys of every instance of the list; an absent list leaves the keys unchanged |
| `IndexKeys.InstancesKeysMerge` | opendj-sdk/opends/src/server/org/opends/server/backends/jeb/EqualityIndexer.java:364-373 | indexing instance by instance yields the keys of all values merged, whatever the options; duplicates collapse |
| `IndexKeys.InstancesKeysMembership` | opendj-sdk/opends/src/server/org/opends/server/backends/jeb/EqualityIndexer.java:369-372 | a key is indexed exactly when some value of some instance normalises to it |

## Left out

- `getComparator` and the key comparator behind it: the comparator's source is not part of this model, so no ordering of keys is stated.
- `SubschemaSubentryVirtualAttributeProvider`: it reads global server state and returns constants; it has no algorithm to model.
- Normalisation itself: it is the matching rule of the unseen schema layer, so it is the abstract `normalize` function; a normalisation exception is its `None`.
- The JE `Transaction` and `DatabaseException`: they are passed through and never used by the indexer.
- Debug tracing of a failed normalisation: diagnostics only.
- `ASN1OctetString`: a key is its byte sequence, compared by content.
- `Entry.getAttribute` and the application of modifications to an entry belong to the entry class, which is not part of this model. An entry is a map from type to instance list, and a missing type is `None`, the source's `null`. The equivalence property states "the new entry is the old one with the modifications applied" on the keys of the type's values, all instances merged.
- The `values == null` test of `indexValues`: a Dafny set cannot be absent, so that branch has nothing to model.
- The semantics of REPLACE and INCREMENT: the indexer only uses them to leave the fast path, and the model does the same.
- Aliasing of the caller's sets: they are passed by value, so `addKeys` and `delKeys` being one Java object is not modelled.
- Iteration order of the source's hash sets: each loop picks an arbitrary remaining element, and its contract holds for any order.
- The loops of `replaceEntry` that copy each difference element into `delKeys` and `addKeys`: they are modelled as set union, which is what they compute.
