# A verified model of containerd's metadata collector and content protocol

This project models, in Dafny, the parts of containerd whose correctness is a
matter of reachability, of interleavings or of refinement, and proves what they
promise for every input and every run:

- the garbage collector of the metadata store, from its label cursor through the
  tricolor mark to the sweep, the dirty flags and the events
  (`LabelRefs`, `Reachability`, `Tricolor`, `MarkSpec`, `Scan`, `Collect`,
  `CollectorLaws`, `NamespaceLaw`, `FlatLeases`), and what keeps a record, read off
  the records and labels themselves (`LabelRules`, `RecordRules`);
- the namespaced content store as a concurrent protocol of writers, commits,
  deletes, aborts, leases, collections and backend cleanups
  (`ContentTx`, `ContentOps`, `ContentProtocol`, `Isolation`, `LeaseProtection`,
  `BackendCleanup`);
- the copy-on-write writer and the resumable copy underneath it
  (`SharedWriter`, `ContentCopy`);
- the image walks, synchronous and concurrent, and the labels by which an image
  keeps its children alive (`ImageTree`, `Dispatch`, `DispatchWalk`, `ChildLabels`,
  `ChildKeys`);
- the container store with its field mask (`ContainerStore`), the schema
  migrations (`Migrations`) and the socket rules of the default seccomp profile
  (`SocketRules`).

## How the model is built

`Records` holds the database as typed records per namespace. `MarkSpec` says what
a collection means without any order: which roots and edges the records give
rise to, what is reachable (`Live`), what survives once the flat bit is stripped
(`Kept`), and the database that is left (`Collected`). The imperative code, with
its cursors, maps, work lists and loops over sets in an arbitrary order, is then
proved against that. Laws about collections are proved about the meaning and so
hold of the code. `LabelRules` and `RecordRules` pin that meaning down a second time,
independently of its definition: for the label handlers of a plain collection they
say, label by label and record by record, what is a root, what leads to what, and
so what survives.

Concurrency is modelled as state machines whose runs are sequences of steps. In
`ContentProtocol` a step is a lock acquired, a transaction, a backend write, a
mark, a sweep, a cleaner's scan or one of its deletions. In `Dispatch` a step is
a goroutine started, a handler's return, an error reaching the group, a wait, a
cancellation, or another user of the limiter taking or giving back a permit.

Clocks, time and duration parsing, digest algorithms, identifier validation and
handlers are parameters. Strings stand for byte strings. Integers are unbounded
except where the source's width matters: `int64` in `ContentCopy`, `uint64` with
wrap-around in `SocketRules`.

## What was found

- A flat lease does not flatten its ingests: an ingest it lists keeps the blob it
  expects as plain content, with everything that blob's labels refer to
  (`FlatLeases.FlatLeaseIngestIsPlain`), and may be the only reason why that is kept
  (`FlatLeases.IngestIsSoleReason`).
- A shared writer may commit a digest that the backend has lost meanwhile, when its
  ingest record was aborted and the blob deleted before the commit. Such a state
  is reachable from an empty store (`ContentProtocol.LostDigestIsReachable`). A run
  keeps all records backed exactly as long as each successful shared commit finds its
  digest in the backend (`ContentProtocol.RunsBackedExactly`).
- A commit closes an ordinary writer but not a shared one, so the two may differ in
  what they answer afterwards (`SharedWriter.RefusedCommitParts`). They agree exactly
  when only questions and refused commits follow the first commit that finds the
  writer shared (`SharedWriter.SharedRefinesPlain`).
- A shared writer whose backend ingest is not empty goes wrong at the first call that
  copies: a Write is refused, unless the blob is empty, and a Truncate to zero answers
  that it is done but leaves the stale bytes (`SharedWriter.StaleIngestExact`,
  `SharedWriter.StaleIngestRefuses`, `SharedWriter.StaleIngestStays`).
- A child with an empty digest gets no label, since empty values are not written
  (`ChildLabels.ChildDecoded`). Children none of whom yields a label clear all
  labels of their parent, because an update without field paths replaces the
  labels (`ChildLabels.StoredLabelsKept`).
- Updating a container's extensions merges them into the stored ones even when the
  mask replaces the whole map, so a Get may differ from what Update returned
  (`ContainerStore.ExtensionsOutlive`). They agree exactly when the mask does not
  replace the extensions or the update gives, or names after the replacement, all
  that were there (`ContainerStore.GetAfterUpdate`).
- The comment at core/metadata/gc.go:91-93 says that content and snapshots with an
  expiry label are roots until then. The code reads that label on leases and images
  only; the model follows the code.

## Model

| member | source | states |
|---|---|---|
| `Bytes.PrefixContiguous` | core/metadata/gc.go:1119-1121 | keys that share a prefix are contiguous in bolt's byte order |
| `Records.SnapKeyCut` | core/metadata/gc.go:848-853 | a snapshot's node key, cut at its first slash, gives back the snapshotter and the name it was built from |
| `LabelRefs.RunHandler` | core/metadata/gc.go:1118-1131 | one handler's seek-then-scan-while-prefix loop makes exactly the calls of a filter of all labels by prefix, in key order |
| `LabelRefs.SendLabelRefs` | core/metadata/gc.go:1110-1134 | for every label set and handler list, the calls made are those of the plain reading, in order; handlers whose callback is not set are skipped |
| `LabelRefs.CallsAreCallSet` | core/metadata/gc.go:223-399 | which calls are made does not depend on the order of labels or handlers |
| `Tricolor.Mark` | pkg/gc/gc.go:64-100 | a node is marked iff a reachable node has its low five bits; it fails iff references fails on some reachable node; cycles included |
| `Tricolor.Walk` | pkg/gc/gc.go:64-100 | the loop follows unstripped nodes, stays inside every closed set that holds the roots and ends with a closed set |
| `Scan.Scanner.ScanLabels` | core/metadata/gc.go:719-797 | running the handlers over one record's labels adds exactly the facts those labels state |
| `Scan.Scanner.ScanEntry` | core/metadata/gc.go:561-812 | one record of any kind adds exactly its facts: roots, back references, conditions, values; it fails iff an ingest's expiry cannot be decoded |
| `Scan.Scanner.ScanNamespace` | core/metadata/gc.go:554-814 | a namespace adds the facts of all its records, in whatever order they come |
| `Scan.Scanner.ScanRoots` | core/metadata/gc.go:495-829 | the whole scan learns exactly what the records say, and fails iff some expiry cannot be decoded |
| `Scan.Scanner.EvaluateConditions` | core/metadata/gc.go:816-826 | a conditional reference becomes a back reference iff some value of its target passes its test |
| `Scan.SendReferences` | core/metadata/gc.go:832-933 | the nodes sent for a node are its back references and what its record names, for flat and plain nodes alike; an uncuttable snapshot key is an error |
| `Scan.WalkReachesLive` | core/metadata/gc.go:832-933 | reachability over what references sends is reachability over the edges that the records define |
| `Scan.GetMarked` | core/metadata/db.go:492-536 | the marked set is exactly the stripped closure of the roots under all edge kinds; it fails iff the scan does |
| `Collect.DB.Remove` | core/metadata/gc.go:1034-1107 | deletes exactly the given record and sets the dirty flag of the backend it lives in |
| `Collect.DB.Sweep` | core/metadata/db.go:396-435 | in whatever order records are visited, what is left is what was marked, with one event for each removed snapshot and image |
| `Collect.DB.GarbageCollect` | core/metadata/db.go:383-489 | a collection removes a lease, image, ingest, blob or snapshot iff its node is not kept; on failure nothing changes; flags are reset, backends that lost records are scheduled, each image and snapshot that is gone has exactly one event, and no other event is sent |
| `LabelRules.HandlersExact` | core/metadata/gc.go:223-399 | which label keys the handlers of a plain collection read, and what each is for |
| `LabelRules.ConditionExact` | core/metadata/gc.go:316-398 | a condition is understood iff it compares usedat by < or > with a duration that parses, and then asks for that |
| `LabelRules.CallsExact` | core/metadata/gc.go:223-399 | the calls made for a set of labels are exactly those that some label says by its key and value: references, back references, roots, conditions, values |
| `RecordRules.RootsExact` | core/metadata/gc.go:554-814 | a node is a root iff it is a lease or image that lasts, something such a lease lists (flat if the lease is), an ingest with an expiry that is not past, a container, a blob or snapshot with the root label, or what a sandbox's labels refer to |
| `RecordRules.EdgesExact` | core/metadata/gc.go:832-933 | a node leads to another iff its record names it by a field or label, the other's record refers back to it, or the other is a snapshot on which it is conditional and whose last use passes the test |
| `RecordRules.LiveExactly` | core/metadata/gc.go:495-933 | a node is live iff it is a root or a live node leads to it |
| `RecordRules.SurvivesExactly` | core/metadata/db.go:383-489 | a record survives a collection iff its node, flat or plain, is a root or is led to by a live node |
| `RecordRules.LeaseLasts` | core/metadata/gc.go:570-580 | a lease survives iff it has no expiry label, one that does not parse, or one that is not past; at the very moment it still lasts |
| `RecordRules.IngestLasts` | core/metadata/gc.go:706-722 | an ingest survives iff it has an expiry that is not past or a lease that lasts lists it |
| `RecordRules.ImageLasts` | core/metadata/gc.go:665-700 | an image survives iff its expiry label is missing, does not parse or is not past, or a lease that lasts lists it, a sandbox refers to it, or a live node leads to it |
| `RecordRules.UsedAtKeeps` | core/metadata/gc.go:316-398 | a live image that is conditional on a snapshot by usedat keeps it when its last use is less, or more, than the duration ago |
| `CollectorLaws.FactShape` | core/metadata/gc.go:554-814 | every node a record mentions lies in its own namespace and has a well-formed snapshot key |
| `CollectorLaws.LiveShape` | core/metadata/gc.go:495-933 | so does every reachable node, which is why marking meets no malformed key |
| `CollectorLaws.FactSurvives` | core/metadata/gc.go:495-829 | the facts that make roots and edges of reachable nodes outlive the sweep |
| `CollectorLaws.LiveAfter` | core/metadata/gc.go:495-933 | what is reachable after a collection is exactly what was reachable before it |
| `CollectorLaws.SecondCollection` | core/metadata/db.go:396-431 | with the same clock a second collection removes nothing |
| `CollectorLaws.ChainSurvives` | core/metadata/gc.go:848-868 | a surviving snapshot keeps its full parent chain, reached flat or plain |
| `CollectorLaws.TargetSurvives` | core/metadata/gc.go:870-892 | a surviving image keeps its target blob |
| `CollectorLaws.ExpectedSurvives` | core/metadata/gc.go:894-906 | a surviving ingest keeps the blob it expects |
| `CollectorLaws.ContainerSnapshotSurvives` | core/metadata/gc.go:908-921 | no collection removes the snapshot of an existing container |
| `NamespaceLaw.NamespacesAreIndependent` | core/metadata/gc.go:554-814 | what a collection leaves of a namespace depends on that namespace's records and the clock alone |
| `FlatLeases.StripSimulates` | core/metadata/gc.go:60-64 | stripping the flat bit is a simulation: an edge of a flat node is, stripped, an edge of the plain one |
| `FlatLeases.FlatteningKeepsNoMore` | core/metadata/gc.go:583-655 | turning a plain lease flat never enlarges what is kept |
| `FlatLeases.FlatLeaseKeepsExactly` | core/metadata/gc.go:583-892 | beyond what is kept when the lease lists nothing, a flat lease keeps exactly its listed content, images and snapshots, snapshot parent chains, image targets, and what is reachable from its listed ingests |
| `FlatLeases.FlatLeaseIngestIsPlain` | core/metadata/gc.go:632-645 | what the expected blob of a listed ingest refers to by labels is reachable from the listed ingests, hence kept |
| `FlatLeases.IngestIsSoleReason` | core/metadata/gc.go:632-645 | a database in which a blob is kept by a flat lease's ingest and would not be kept without it, though it is no listed object, parent or target |
| `ContentTx.AddContentLeaseExact` | core/metadata/leases.go:386-408 | fails iff the lease in the context is gone; otherwise that lease lists the digest besides what it listed, and nothing else of the namespace changes |
| `ContentTx.AddIngestLeaseExact` | core/metadata/leases.go:430-456 | the same for an ingest |
| `ContentTx.RemoveContentLeaseExact` | core/metadata/leases.go:410-428 | the digest is no longer listed by the lease in the context; every other listing, lease and record stays |
| `ContentTx.RemoveIngestLeaseExact` | core/metadata/leases.go:458-476 | the same for an ingest |
| `ContentOps.Store.Writer` | core/metadata/content.go:373-497 | the writer is shared iff the digest names a backend blob of a fitting size and the policy, or a namespace labelled shareable that has the blob, allows it; the ingest record has its backend ref, the digest it stands for and, without a lease, an expiry a day ahead; the lease lists it; the backend has an ingest unless shared; nothing else changes; exact conditions of failure |
| `ContentOps.SharingExact` | core/metadata/content.go:758-776 | when a writer may stand for a blob, on the records and the label |
| `ContentOps.Store.Commit` | core/metadata/content.go:582-718 | on a new digest the blob record has the number of bytes committed and exactly the given labels that are not empty; every other blob stays, the ingest is gone, the lease lists the digest in place of the ref; a blob that exists already is kept as it is and all the rest still happens; exact conditions of failure, and a failed record leaves the backend committed |
| `ContentOps.Store.Delete` | core/metadata/content.go:204-243 | fails iff the blob is missing; otherwise the blob and its listing by the lease in the context are gone, every other record, listing and namespace stays, and the content store is dirty |
| `ContentOps.Store.Abort` | core/metadata/content.go:332-371 | fails iff the ingest is missing or the backend refuses; otherwise the ingest and its listing are gone, the backend ingest too iff no digest is expected, and all else stays |
| `ContentOps.Store.Lease` | core/metadata/leases.go:51-250 | each operation changes the existence of its lease or its listing of the one resource and nothing else; releasing marks the store dirty; exact conditions of failure |
| `ContentOps.LeaseTxExact` | core/metadata/leases.go:51-250 | the protocol's lease steps succeed under exactly those conditions and change no more than that |
| `ContentProtocol.OpenWriterBacked` | core/metadata/content.go:373-497 | a Writer call names no digest that the backend does not have |
| `ContentProtocol.BackendCommitStores` | core/metadata/content.go:651-718 | committing an unshared writer stores its digest; committing a shared one changes nothing in the backend |
| `ContentProtocol.CommitBacked` | core/metadata/content.go:582-642 | the record part of Commit names no digest but the committed one anew |
| `ContentProtocol.DeleteBacked` | core/metadata/content.go:204-243 | Delete names nothing new |
| `ContentProtocol.AbortBacked` | core/metadata/content.go:332-371 | Abort names nothing new and removes no blob of the backend |
| `ContentProtocol.SeenIsNeeded` | core/metadata/content.go:845-914 | the cleaner's scan sees exactly the digests that some record names |
| `ContentProtocol.CleanerSparesNamed` | core/metadata/content.go:884-958 | in no run does the cleaner abort a backend ingest that a record names |
| `ContentProtocol.StepKeepsInv` | core/metadata/content.go:373-961 | every step of every actor keeps the protocol's invariant |
| `ContentProtocol.RunsStayBacked` | core/metadata/content.go:373-961 | in every state of every run in which shared commits find their ingest still carrying the digest, each blob record and each expected digest is in the backend |
| `ContentProtocol.SharedCommitExact` | core/metadata/content.go:651-718 | a successful shared commit from a state that satisfies the invariant keeps the records backed iff the backend still has the blob |
| `ContentProtocol.StepExact` | core/metadata/content.go:373-961 | each step keeps the invariant, or is a shared commit of a lost blob and leaves a record without one |
| `ContentProtocol.RunsBackedExactly` | core/metadata/content.go:373-961 | for every run from an empty store, all states up to the n-th are backed iff each successful shared commit before it finds its digest in the backend |
| `ContentProtocol.LostDigest` | core/metadata/content.go:651-718 | from any quiet state with a shared writer whose digest no record names and a cleanup due, a lost blob can be committed |
| `ContentProtocol.LostDigestIsReachable` | core/metadata/content.go:373-961 | from an empty store with the shared policy, a run commits a blob record that the backend does not have |
| `BackendCleanup.ContentStore.Scan` | core/metadata/content.go:845-914 | the seen-sets hold exactly the named digests and backend refs |
| `BackendCleanup.ContentStore.GarbageCollect` | core/metadata/content.go:845-961 | a cleanup leaves of the backend what the records name |
| `BackendCleanup.CleanedIsExact` | core/metadata/content.go:916-961 | a blob or ingest stays iff it is named, with its bytes |
| `Isolation.NoneShared` | core/metadata/content.go:409-430 | in every run without the sharing policy and without a shareable namespace no writer is ever shared |
| `Isolation.BytesWritten` | core/metadata/content.go:452-497 | there, what a writer's ingest holds was written by a writer of the same namespace |
| `Isolation.RecordsAreWritten` | core/metadata/content.go:582-718 | there, each blob record of a namespace comes from a commit, by a writer of that namespace, of bytes with that digest that a writer of that namespace wrote |
| `LeaseProtection.WriterLeases` | core/metadata/content.go:398-478 | a Writer call under a lease leaves its ingest, or the blob that exists already, under the lease |
| `LeaseProtection.CommitLeases` | core/metadata/content.go:604-624 | Commit under a lease leaves the blob under it: the handoff from ingest to content |
| `LeaseProtection.CollectionProtects` | core/metadata/gc.go:561-657 | a collection at which the lease has not expired keeps the lease and what it lists |
| `LeaseProtection.LeaseProtects` | core/metadata/leases.go:386-476 | along any stretch of a run without a Delete, an Abort, a Commit that goes through or a lease removal of the object, the leased object stays |
| `LeaseProtection.LeasedPull` | core/metadata/content.go:373-642 | from the Writer call under a lease to its end, the ingest is there until the commit and the blob from then on, whatever else runs short of taking the object or ending the lease; deleting the namespace, possible only before there is a blob, counts as ending it |
| `LeaseProtection.LeasedPullKeepsBytes` | core/metadata/content.go:845-961 | the backend ingest of an ordinary writer opened under a lease stays as long as no step commits or aborts it there, takes its record or ends the lease, whatever is collected and cleaned |
| `ContentCopy.CopyWithBuffer` | core/content/helpers.go:345-384 | without an error everything the limited reader had was appended and counted, and the count stays within int64 |
| `ContentCopy.AttemptHolds` | core/content/helpers.go:197-257 | reading one byte more than is expected tells a source of the right size from one that is too long or too short |
| `ContentCopy.Transfer` | core/content/helpers.go:209-243 | a complete transfer leaves exactly the source in the writer, and remaining size plus one never overflows |
| `ContentCopy.Copy` | core/content/helpers.go:197-257 | nil means, across any number of resets and resumed prefixes, that the writer held exactly the source, of the given size and, after a plain commit, of the given digest; a source of the right size and digest gets there however often a write or a commit is reset, as long as none is refused, and plainly unless the commit that is not reset finds the blob there |
| `ContentCopy.CopyReaderAt` | core/content/helpers.go:261-276 | appends the bytes of the reader from the writer's offset on, and succeeds iff there were n of them |
| `SharedWriter.SharedRefinesPlain` | core/metadata/content.go:517-734 | with an empty backend ingest and truncations of a still shared writer within the blob, a shared writer answers a call sequence as the writer preloaded with the whole blob iff everything after the first commit that finds it shared is Status, Digest or a refused commit |
| `SharedWriter.RefusedCommitParts` | core/metadata/content.go:651-697 | after a refused commit the two part: the shared writer takes the next Write, the preloaded one refuses it |
| `SharedWriter.StaleIngestExact` | core/metadata/content.go:524-580 | a call other than Commit on a still shared writer has the reply and effect it has on the preloaded one iff the backend ingest is empty or the call copies nothing |
| `SharedWriter.StaleIngestRefuses` | core/metadata/content.go:556-580 | a shared writer of a non-empty blob takes its first Write iff its backend ingest is empty |
| `SharedWriter.StaleIngestStays` | core/metadata/content.go:546-580 | over a stale ingest, Truncate to zero answers as if done and the stale bytes stay |
| `SharedWriter.CommitsAgree` | core/metadata/content.go:651-694 | the protocol's commit and the writer's own commit succeed on the same calls with the same digest and size |
| `SharedWriter.NamespacedWriter.CreateAndCopy` | core/metadata/content.go:556-580 | opens the backend writer and copies the asked-for prefix, or leaves a partial ingest and stays shared |
| `SharedWriter.NamespacedWriter.Write` | core/metadata/content.go:524-537 | the first bytes go behind a copy of the whole blob, later ones behind what was written; over a stale ingest the first write is refused, as is any write to a closed writer |
| `SharedWriter.NamespacedWriter.Digest` | core/metadata/content.go:539-544 | the digest of the blob, or of what was written |
| `SharedWriter.NamespacedWriter.Truncate` | core/metadata/content.go:546-554 | a shared writer becomes one of the blob's first n bytes, or is refused beyond its end; later the written bytes are cut |
| `SharedWriter.NamespacedWriter.Commit` | core/metadata/content.go:651-697 | the backend part: answers with digest and size iff the writer is open and both are the ones asked for, and closes a writer of its own but not a shared one |
| `SharedWriter.NamespacedWriter.Status` | core/metadata/content.go:720-734 | the offset is the length of the blob, or of what was written |
| `ImageTree.TreeAppend` | core/images/handlers.go:122-144 | the tree of a list of descriptors is the sum of its parts' trees, finite iff they are |
| `ImageTree.Walker.Walk` | core/images/handlers.go:118-144 | the recursive walk from any count on, with the remaining reference budget as its measure |
| `ImageTree.Walk` | core/images/handlers.go:103-144 | terminates on every descriptor graph with at most 10,000 handler calls; succeeds iff the tree is finite, fits the limit and no handler in it fails, and has then handled each reference once |
| `Dispatch.StepKeeps` | core/images/handlers.go:195-259 | every step of every schedule keeps the dispatcher's invariant |
| `Dispatch.EveryRun` | core/images/handlers.go:203-258 | at most 10,000 calls; running handlers, free permits and permits with others always make the capacity; a child starts only after its parent returned; nil only if every admitted reference was handled with nil or ErrSkipDesc |
| `Dispatch.ErrorsExplained` | core/images/handlers.go:195-259 | a failed call returns the error of a handler that was called, or that the limit is exceeded, by the roots or by what a called handler returned; cancellation only if it was cancelled and no handler failed |
| `Dispatch.RunsEnd` | core/images/handlers.go:213-228 | every own step uses up the remaining work, so no schedule runs forever, cyclic graphs included |
| `Dispatch.WorkBounds` | core/images/handlers.go:42-44 | a call starts with at most 40,003 steps of work |
| `Dispatch.CallEnds` | core/images/handlers.go:213-228 | no schedule of a call has more than 40,003 steps of its own |
| `Dispatch.PrivateLimiter` | core/images/handlers.go:199-211 | with a limiter private to the call, running handlers and free permits make the capacity, and a call that has not returned can always take a step |
| `Dispatch.Progress` | core/images/handlers.go:229-258 | a call that has not returned can go on iff not all permits it waits for are with other users |
| `DispatchWalk.DispatchAgreesWithWalk` | core/images/handlers.go:195-259 | without cancellation every schedule returns nil iff Walk succeeds on the same roots, and then handles the same multiset of references |
| `ChildLabels.ChildGCLabel` | core/images/mediatypes.go:216-235 | one of five base labels, the referrer one iff the child is a referrer |
| `ChildKeys.BaseByType` | core/images/mediatypes.go:144-235 | which media types get the config, manifest, layer and plain base labels; suffixes count for nothing in a Docker or EROFS layer type |
| `ChildKeys.KeyExact` | core/images/handlers.go:333-361 | the key of a child is its base with its number, which the first config goes without, or for a referrer twelve digits of its digest; a referrer has none iff its digest is malformed or shorter |
| `ChildKeys.CountExact` | core/images/handlers.go:325-361 | the number is how many children before it have the same base |
| `ChildKeys.ItoaExact` | core/images/handlers.go:345-356 | it is written in decimal without leading zeros |
| `ChildKeys.LabelsExact` | core/images/handlers.go:333-361 | each label has the digest of the last child with its key, and there are no others |
| `ChildKeys.LabelledExact` | core/images/handlers.go:362-370 | in the end a label is the child's, or the stored one if some child got a label, and none is empty |
| `ChildLabels.KeysDistinct` | core/images/handlers.go:333-361 | a child that is not a referrer shares its label key with no other child |
| `ChildLabels.LabelChildren` | core/images/handlers.go:325-361 | the loop builds the numbered labels and their field paths |
| `ChildLabels.LabelStays` | core/images/handlers.go:333-361 | the label of such a child is in the final set with its digest |
| `ChildLabels.UpdateLabels` | core/metadata/content.go:116-144 | a label ends as given iff its path or the whole map is named, or no path is; labels over 4096 bytes and unknown paths are refused; empty values go |
| `ChildLabels.SetChildrenLabels` | core/images/handlers.go:316-372 | the blob's labels become the stored ones overlaid with the children's; it fails iff the blob is missing or a label is too long |
| `ChildLabels.ChildDecoded` | core/metadata/gc.go:275-287 | the collector decodes the labels to each such child iff its digest is not empty |
| `ChildLabels.ChildrenSurvive` | core/metadata/gc.go:832-846 | whenever the labelled blob is live as plain content so are these children, and no collection removes them |
| `ChildLabels.ChildrenSurviveByDefault` | core/metadata/gc.go:223-399 | this holds with the label handlers of a plain collection |
| `ChildLabels.StoredLabelsKept` | core/images/handlers.go:329-366 | the other labels of the blob survive the wrapper iff there are no children or some child got a label |
| `ContainerStore.MaskIsExact` | core/metadata/containers.go:227-263 | a field is taken over iff the mask names it; unnamed map entries stay; four fields never change |
| `ContainerStore.MaskEntriesExact` | core/metadata/containers.go:227-263 | a label or extension ends as given iff the mask names it or the whole map, in any order of the paths; naming the whole map leaves no others |
| `ContainerStore.ApplyMask` | core/metadata/containers.go:227-263 | the loop over the field paths |
| `ContainerStore.Store.Create` | core/metadata/containers.go:123-172 | succeeds iff the identifier is new and valid, there are a runtime and a spec, a snapshot key has a snapshotter, no extension lacks a name and no label is longer than 4096 bytes; it is then stored as given less its empty labels, with both timestamps set, and no other record changes |
| `ContainerStore.Store.Update` | core/metadata/containers.go:174-285 | succeeds iff the container exists, every path is known, a full update changes neither runtime nor snapshotter, and the result is valid; each field, label and extension is then as given iff the paths name it, the update time is set, the stored record is the returned one with the stored extensions underneath; otherwise nothing changes |
| `ContainerStore.MaskKnown` | core/metadata/containers.go:227-263 | the mask is accepted iff every path is one of the five fields or names a label or an extension |
| `ContainerStore.MaskHasEntry` | core/metadata/containers.go:227-263 | which labels and extensions there are after the mask, which does depend on the order of the paths |
| `ContainerStore.Store.Delete` | core/metadata/containers.go:287-321 | succeeds iff the container exists; it is gone afterwards, no other record changes, and the store is dirty |
| `ContainerStore.GetAfterUpdate` | core/metadata/containers.go:417-464 | Get after Update gives what Update returned iff the mask does not name the whole extensions, or each stored extension is given or named after that |
| `ContainerStore.ExtensionsOutlive` | core/metadata/boltutil/helpers.go:153-178 | a full update without extensions returns none while Get still has the stored one |
| `ContainerStore.DefaultMask` | core/metadata/containers.go:210-226 | an update without field paths takes over labels, spec, extensions, image and snapshot key and nothing else |
| `ContainerStore.RunsSound` | core/metadata/containers.go:323-354 | in every run a container with a snapshot key has a snapshotter |
| `ContainerStore.RunsFixed` | core/metadata/containers.go:174-285 | as long as a container exists its runtime, snapshotter, sandbox and creation time stay the same |
| `ContainerStore.RunsKeepSnapshots` | core/metadata/gc.go:749-766 | no collection of a run removes the snapshot of a container that exists |
| `Migrations.LinkSnapshots` | core/metadata/migrations.go:82-112 | every snapshot gains exactly the snapshots that name it as parent, in any order of visiting |
| `Migrations.MoveIngests` | core/metadata/migrations.go:126-171 | each flat link becomes the ref of a structured ingest and the flat bucket is gone |
| `Migrations.MoveSandboxes` | core/metadata/migrations.go:174-252 | sandboxes beside v1 are merged into it; it fails iff one nests too deep |
| `Migrations.DB.FirstMigration` | core/metadata/db.go:163-201 | the decrementing loop finds exactly the migrations newer than the stored version |
| `Migrations.DB.Init` | core/metadata/db.go:156-236 | runs those in order and writes the version, or leaves everything as it was |
| `Migrations.InitTwice` | core/metadata/db.go:203-210 | a second Init changes nothing |
| `Migrations.InitFails` | core/metadata/migrations.go:223-237 | Init fails iff an old file has sandboxes to move that nest too deep |
| `Migrations.IngestsCarried` | core/metadata/migrations.go:126-171 | every old ingest link is there after Init |
| `Migrations.SandboxesCarried` | core/metadata/migrations.go:174-252 | every field and sub-bucket value of every old sandbox is there after Init, and nothing is left outside v1 |
| `Migrations.InitNamespaces` | core/metadata/db.go:156-236 | an old file is at version 4 afterwards; its namespaces are those of v1 and those whose sandboxes are moved in |
| `Migrations.NamespaceCarried` | core/metadata/migrations.go:67-252 | everything in a namespace outlives Init: snapshots with parents and values, structured ingests (unchanged from version 2 on), unknown values; sandboxes change only where some are moved in |
| `Migrations.ChildLinks` | core/metadata/migrations.go:67-121 | after Init a snapshot has a child link iff it had it or the child names it as parent |
| `SocketRules.RulesExact` | contrib/seccomp/seccomp_default.go:126-147 | one bound for a leading run 1..n and an equality for the rest allow exactly the listed domains, and 0 iff listed or collapsed |
| `SocketRules.SocketSyscallsForDomains` | contrib/seccomp/seccomp_default.go:126-147 | for every list, sorted or not, a value other than 0 is allowed iff it is listed; collapsing saves at least one rule |
| `SocketRules.SocketSyscalls` | contrib/seccomp/seccomp_default.go:57-124 | beside 0 the default profile allows exactly the domains 1 to 45 except 38 (AF_ALG) and 40 (AF_VSOCK) |

## Left out

- SocketRules.SocketSyscallsForDomains: takes lists shorter than 2^64 - 1, which is every list Go can hold, since lengths are of type int.
- Migrations.DB.Init: buckets are typed, so a value where a bucket should be, or the reverse, is not modelled, nor is an undecodable stored version.
- ContentOps.Store.Commit: syncing and closing the backend writer, the times of a blob record and the create event are not modelled.
- Isolation.RecordsAreWritten: a backend write leaves some new content in the ingest; that of a Write behind that of earlier ones is not told apart from a truncation.
- ContentCopy.Copy: sources that cannot seek, the WriterTo and ReaderFrom fast paths and the retry delay are not modelled; a writer is scripted to reset finitely often, so endless retries are not.
- SharedWriter.NamespacedWriter.Status: of the status only the offset is modelled. A shared writer also reports the expected digest, which the local writer does not, and one that Truncate has unshared reports the new size as its total.
- SharedWriter.SharedRefinesPlain: a truncation beyond the end of an ordinary writer is left open, since backends differ; the local backend supports only truncation to zero.
- Dispatch.Progress: a limiter is first come, first served for this call; queueing among its users is not modelled.
- ImageTree.Walk: the handler is a function of the descriptor; handlers that change state between calls are covered by Dispatch.EveryRun only.
- ChildLabels.SetChildrenLabels: models the default label map. A caller's own label map, and the uniqueness of referrer labels, which are cut to twelve digits, are left out.
- ContainerStore.GetAfterUpdate: runtime options are not modelled, and an absent extension value counts as an empty one.
- Scan.Scanner.ScanRoots: registered collectors (CollectionContext) contribute label handlers only; their own roots, leases and removals are arbitrary plug-in code. Cancellation of a scan is not modelled, nor is the goroutine pipeline around the mark.
- Collect.DB.GarbageCollect: the sweep visits the records that were there when it began, since bolt's rules about changing a bucket while iterating are not modelled.
- Transactions carried in a context, and the mutation callbacks of the database.
- The metadata snapshotter and image store, whose records appear here as data that other transactions may change.
- Orphaned blobs that an Abort or a failed transaction leaves in the backend until the next cleanup.
- The lease manager's resource names (parseLeaseResource) and listing calls: resources are values here, not strings to be parsed.
- JSON decoding of manifests, platform matching, WalkNotEmpty and the composition of handlers.
- The client package, gRPC services, generated code, shims, stream processors, event publishing and the syscall tables of the seccomp profile.
