# lockoci: the OCI lock protocol and its ETag cache, in Dafny

lockoci keeps an infrastructure state file in an OCI registry and guards it with a lock.
The lock lives in the manifest a tag points at: the annotation `org.opentofu.state.locked` is
`"true"` while a writer holds it. This project models the two pieces of the `lock` package:

- **The lock protocol** (`lock/lock.go`). `Acquire` moves a tag to locked. It creates a
  fresh locked manifest for a tag that is not listed. It rewrites an existing manifest with
  the lock annotation set. It refuses with the sentinel `ErrLocked` when the manifest is
  already locked and `force` is off. `PushState` pushes a state blob, calls `Acquire`, then
  pushes the manifest unlocked with the blob appended as a new layer.
- **The ETag-caching decorator** (`etagClient.Do` in `lock/client.go`). It wraps the HTTP
  client. On a PUT to `.../manifests/<tag>` it sends the cached entity tag for `<tag>` as
  `If-None-Match`. After any response from a `.../manifests/<tag>` endpoint that carries a
  non-empty `ETag`, it caches that `ETag` for `<tag>`.

Files:

- `wrappers.dfy`: the `Option` and `Result` types.
- `oci.dfy`: digests, descriptors and manifests. JSON bytes are represented by the manifest
  value they encode. The SHA-256 digest is an ideal hash: equal digests mean equal payloads.
- `registry.dfy`: the registry behind a `*remote.Repository` handle.
  - The state is a tag → manifest table, a set of stored blobs, and a schedule of network
    events.
  - Each call consumes one event. The call is served, or fails with a transport error, or
    another client's manifest push lands first and then the call is served.
  - This is how failures and races between processes are stated.
  - The class `Repository` carries these fields. Its methods are proved equal to pure
    functions over the `Store` value.
- `lock.dfy`: the lock helpers, and `Acquire` and `PushState` as methods on a `Repository`.
  Each method is proved equal to a function of the registry state (`AcquireSpec`,
  `PushStateSpec`).
- `lock_properties.dfy`: what the protocol guarantees, and where it does not, proved about
  those functions.
- `client.dfy`: `strings.Trim`/`strings.Split` on the request path, with the `Split`/`Join`
  round trip. `Request` and `Transport` are classes, and so is `EtagClient`, whose `Do`
  updates the `etags` map.

What a lock is expected to guarantee and what this code guarantees differ in four places.
The model follows the code:

- A failed publish is expected to leave the lock as it was. Here the tag stays locked when
  the final push fails after `Acquire` succeeded (lock/lock.go:158-161,
  `FailedReleaseKeepsLock`, with `FailedReleaseLeavesLock` as one concrete run). The same
  holds when the initialisation branch's resolve fails after its own push. On a digest
  mismatch the tag instead holds the other client's entry, which need not be locked.
- Two clients are expected not to hold the lock at once. The initialisation branch's digest
  check (lock/lock.go:82-84) catches another client's write only when it lands between the
  push and the resolve, and only when that write changed the bytes (`InitDetectsOverwrite`).
  A second client that initialises the same fresh tag pushes identical bytes, and both calls
  succeed (`InitMissesIdenticalWrite`). The existing-tag branch's fetch-then-push is not
  checked at all (`LostUpdate`).
- The initialisation branch writes and resolves `repo.Reference.Reference` (lock/lock.go:72,
  lock/lock.go:78), not `ref.Reference`. The model keeps both (`Repository.reference` and
  `ref`).
  - When they are equal, `AcquireOkMeansTagLocked` holds.
  - When they differ, `InitWritesHandleReference` shows that `Acquire` reports success while
    `ref` stays absent.
- The comment at lock/lock.go:77 says the resolve stores the ETag, but nothing in the `lock`
  package installs `etagClient` as a repository's client. The two pieces are modelled
  separately.

## Model

| member | source | states |
|---|---|---|
| Oci.NewDescriptor | lock/lock.go:70 | a descriptor keeps the media type it is given; its digest determines the exact payload, so equal digests mean equal content |
| Oci.EmptyConfig | lock/lock.go:49-50 | the empty configuration has the empty-JSON media type and describes the bytes `{}` |
| Oci.Marshal | lock/lock.go:66-69 | decoding an encoded manifest gives the same manifest back |
| Oci.Unmarshal | lock/lock.go:105-107 | decoding succeeds only on a manifest document, and then the payload is exactly that manifest's encoding; a state blob never decodes as a manifest |
| Oci.UnmarshalMarshal | lock/lock.go:105-107 | whatever decodes re-encodes to the same payload, the other half of the round trip with `Marshal` |
| Registry.ListTags | lock/lock.go:41-46 | a served listing returns exactly the tags present at that moment; the only failure is a transport error |
| Registry.PushBlob | lock/lock.go:50 | a served push adds the content's digest to the stored blobs and changes no tag; a failed push stores nothing |
| Registry.PushManifest | lock/lock.go:72 | a served push points the tag at the entry and touches no blob; a failed push changes no tag |
| Registry.ResolveTag | lock/lock.go:78 | a served resolve returns the descriptor the tag points at; it fails when the tag is absent or on a transport error |
| Registry.FetchManifest | lock/lock.go:91 | a served fetch returns the entry the tag points at; it fails when the tag is absent or on a transport error |
| Registry.Repository.Tags | lock/lock.go:41 | the handle's state and the reply are those of `ListTags` |
| Registry.Repository.Push | lock/lock.go:50 | the handle's state and the reply are those of `PushBlob` |
| Registry.Repository.PushReference | lock/lock.go:72 | the handle's state and the reply are those of `PushManifest` |
| Registry.Repository.Resolve | lock/lock.go:78 | the handle's state and the reply are those of `ResolveTag` |
| Registry.Repository.FetchReference | lock/lock.go:91 | the handle's state and the reply are those of `FetchManifest` |
| Lock.IsLocked | lock/lock.go:182-184 | a manifest is locked exactly when its annotation map exists and maps the lock key to the exact string "true"; a nil map or a missing key reads as unlocked |
| Lock.SetAnnotation | lock/lock.go:167-170 | writing one annotation allocates a nil map and makes the key read as the value; for the lock key nothing but the lock annotation changes (the map writes of lock/lock.go:167-170 and 175-178) |
| Lock.LockManifest | lock/lock.go:166-172 | the result is locked; the map is allocated when nil; schema version, media type, config, layers and every other annotation are unchanged |
| Lock.UnlockManifest | lock/lock.go:174-180 | the result is not locked, the lock key reads "false" and is not deleted; everything else is unchanged |
| Lock.InitialManifest | lock/lock.go:55-64 | the manifest created for a new tag: schema version 2, image-manifest media type, the empty config, no layers, and the lock annotation as its only annotation |
| Lock.ManifestEntry | lock/lock.go:115-122 | a pushed manifest is described as an image manifest, its body decodes to the manifest, and its digest names that body |
| Lock.StateDescriptor | lock/lock.go:137 | a state blob is described under the state media type by the digest of its bytes |
| Lock.Released | lock/lock.go:148-149 | the manifest PushState pushes is unlocked and has the acquired layers with exactly one descriptor appended; config, media type, schema and other annotations are unchanged |
| Lock.Acquire | lock/lock.go:33-128 | the registry state and result after the call are those of `AcquireSpec`: blank check, listing whose error is discarded, initialisation with digest check, or fetch, media-type check, decode, lock check and push |
| Lock.PushState | lock/lock.go:131-164 | the registry state and result after the call are those of `PushStateSpec`: read, blob push, Acquire with its error passed on, then the released manifest pushed |
| LockProperties.LockedIffLockIsIdentity | lock/lock.go:166-184 | a manifest is locked exactly when locking it changes nothing |
| LockProperties.LastLockWriteWins | lock/lock.go:166-180 | unlocking after locking equals unlocking, locking after unlocking equals locking, and locking is idempotent |
| LockProperties.AcquireBlankReference | lock/lock.go:36-38 | a blank reference fails with "reference is blank" before any registry call; the registry state, schedule included, is unchanged |
| LockProperties.AcquireKeepsBlobs | lock/lock.go:48-127 | Acquire never removes a stored blob |
| LockProperties.AcquireOkMeansTagLocked | lock/lock.go:48-127 | for every schedule, when Acquire succeeds the manifest it returns is locked and the tag points at that manifest's digest when Acquire returns |
| LockProperties.InitOkMeansTagLocked | lock/lock.go:72-86 | a successful initialisation leaves the tag resolving to the digest of the locked manifest it returns |
| LockProperties.LockExistingOkMeansTagLocked | lock/lock.go:113-127 | a successful lock of an existing tag leaves the tag holding exactly the locked manifest it returns |
| LockProperties.AcquireRefusalsWriteNothing | lock/lock.go:36-111 | without other writers, a blank-reference, media-type, decode or ErrLocked failure leaves every tag and blob as it was |
| LockProperties.AcquireCreates | lock/lock.go:40-86 | a tag that is not listed gets the fresh locked manifest, which is also returned; the empty config is stored |
| LockProperties.AcquireExisting | lock/lock.go:89-127 | for a listed tag: a non-image media type or an undecodable body fails with no write; a locked manifest without force fails with ErrLocked and no write; otherwise the fetched manifest with the lock set is pushed and returned |
| LockProperties.ListingFailureReinitialises | lock/lock.go:40-48 | a failed listing is read as "absent": the tag is overwritten with a fresh locked manifest with no layers even if it held a manifest, locked or not |
| LockProperties.InitWritesHandleReference | lock/lock.go:72-84 | when the handle's reference is a non-empty tag other than `ref`, Acquire succeeds by locking the handle's reference while `ref` stays absent |
| LockProperties.InitDetectsOverwrite | lock/lock.go:77-84 | another client's write with different bytes that lands between the initial push and the resolve is reported as a digest mismatch |
| LockProperties.InitMissesIdenticalWrite | lock/lock.go:77-86 | another client initialising the same fresh tag between the push and the resolve writes identical bytes, so the digest check passes and Acquire succeeds although the lock was also taken by that client |
| LockProperties.LostUpdate | lock/lock.go:91-124 | a lock another client takes between the fetch and the push is overwritten and Acquire still succeeds, so both clients hold the lock |
| LockProperties.PushStateKeepsContent | lock/lock.go:137-161 | for every schedule, PushState never removes a blob, and once the state blob's push succeeds that blob stays stored whatever follows: success, Acquire's refusal or failure, or a failed final push |
| LockProperties.PushStateOkReleases | lock/lock.go:148-163 | for every schedule, when PushState succeeds the tag points at an unlocked image manifest whose last layer is the new state, and that blob is stored |
| LockProperties.PushStateRefusalsWriteNoManifest | lock/lock.go:143-146 | without other writers, when PushState fails with one of Acquire's refusals (blank reference, unusable media type, undecodable manifest, ErrLocked) no tag has changed |
| LockProperties.PushStateForwardsAcquireError | lock/lock.go:143-146 | for every schedule, once the state blob is pushed, any error of Acquire is exactly PushState's error and the registry is left as Acquire left it: the final manifest push does not happen |
| LockProperties.PushStateReadFailure | lock/lock.go:132-135 | a failed read of the state is reported before any registry call |
| LockProperties.PushStateWhenLocked | lock/lock.go:143-146 | against a locked tag without force, PushState fails with ErrLocked, every tag is unchanged and only the state blob is added |
| LockProperties.PushStateInitialises | lock/lock.go:137-163 | publishing to a tag that does not exist leaves it unlocked with the new state as its only layer |
| LockProperties.PushStateAppends | lock/lock.go:137-163 | publishing to an unlocked tag, or to a locked one with force, leaves it unlocked with the new state appended to its previous layers and its config unchanged |
| LockProperties.FailedReleaseKeepsLock | lock/lock.go:143-161 | for every schedule, when the blob push and Acquire succeed but PushState still fails, the error is a transport error of the final push and the tag still points at the locked manifest Acquire pushed |
| LockProperties.FailedReleaseLeavesLock | lock/lock.go:158-161 | one concrete run: an unlocked existing tag, no force, and a fault on exactly the final push; PushState reports the transport error and the tag holds the locked manifest |
| LockProperties.SecondAcquireIsRefused | lock/lock.go:40-111 | initialising a tag and then acquiring it again without force is refused with ErrLocked and no write |
| LockProperties.PublishThenLockScenario | lock/lock.go:131-164 | publishing to a fresh tag gives one unlocked layer; a following Acquire locks it with the same layer |
| LockProperties.RefuseThenForceScenario | lock/lock.go:109-163 | against a held lock, a publish without force is refused with no tag change, and a forced publish leaves the tag unlocked with the new state appended |
| EtagClient.HeaderAdd | lock/client.go:52 | `Header.Add` appends the value after any values already under the key and leaves other keys alone; with no earlier value, `Get` returns the added one |
| EtagClient.HeaderGet | lock/client.go:68 | `Header.Get` returns the first value under the key, and "" when the key is missing or has no value |
| EtagClient.TrimLeftRemovesLeadingSlashes | lock/client.go:35 | trimming the left drops exactly the run of leading '/' characters |
| EtagClient.TrimRightRemovesTrailingSlashes | lock/client.go:35 | trimming the right drops exactly the run of trailing '/' characters |
| EtagClient.TrimSlashesRemovesOuterSlashes | lock/client.go:35 | `strings.Trim(path, "/")` keeps a contiguous middle part of the path; everything dropped in front and behind is '/', and the result neither starts nor ends with '/' |
| EtagClient.Split | lock/client.go:35 | `strings.Split` on "/" yields at least one segment |
| EtagClient.SplitCountsSlashes | lock/client.go:35 | splitting yields exactly one segment more than the string has slashes |
| EtagClient.SplitSegmentsSlashFree | lock/client.go:35 | every segment of the split is free of '/' |
| EtagClient.JoinSplit | lock/client.go:35 | the segments of the split joined with '/' give back the input |
| EtagClient.SplitJoin | lock/client.go:35 | splitting the join of slash-free segments yields those segments back |
| EtagClient.LastTwo | lock/client.go:35-41 | both entries are slash-free segments; a trimmed path with no '/' (fewer than two segments) gives two empty strings, which never equal "manifests" |
| EtagClient.LastTwoOfTrimmed | lock/client.go:35-41 | for every path: when the trimmed path ends in `<seg>/<last>` after nothing or a '/', with both slash-free and possibly empty, the result is exactly (seg, last); so `/v2/r/manifests/t/` gives ("manifests", "t") and `a//b` gives ("", "b") |
| EtagClient.LastTwoOfPath | lock/client.go:35-41 | any path ending in `<seg>/<last>` with both non-empty yields exactly (seg, last), so `/v2/<name>/manifests/<tag>` yields ("manifests", tag) |
| EtagClient.Request.Clone | lock/client.go:31 | the clone is a new request with the same method, path and header |
| EtagClient.Transport.Do | lock/client.go:61 | the transport logs the request it was handed and returns its next reply |
| EtagClient.EtagClient.constructor | lock/client.go:16-20 | a new decorator starts with an empty cache |
| EtagClient.EtagClient.Do | lock/client.go:29-80 | the caller's request is never modified. The transport receives a copy that gains `If-None-Match` with the cached value exactly when the request is a PUT, the second-to-last segment is "manifests" and the last segment is cached. The transport's reply is returned unchanged. The cache changes only after a reply the transport returns, whatever its HTTP status, with a non-empty `ETag` from a "manifests" path, whatever the method, and then only at the last segment, where the new value overwrites the old |
| EtagClient.ResolveThenPut | lock/client.go:44-74 | after a resolve of `<name>/manifests/<tag>` returns an ETag, the next PUT of that manifest is sent with that ETag as `If-None-Match` |

## Left out

- `main.go` (the CLI) is not part of this model. It only parses flags, opens the file, sets
  up signals and exits. Its call to `PushState` also omits the reference argument.
- `lock/lock_test.go` is not part of this model. It calls a function that `lock/lock.go`
  does not define and needs a live registry.
- JSON and SHA-256 are abstract; no byte-level encoding is modelled.
  - A manifest's bytes are the manifest value.
  - A raw blob never decodes as a manifest.
  - JSON's leniency (unknown fields, `{}` decoding to an empty manifest) and the nil/empty
    distinction of maps and slices after a round trip are not modelled.
  - Descriptor sizes are omitted.
- The `json.Marshal` error returns (lock/lock.go:66-69, 115-118, 151-154) are not modelled.
  Encoding a manifest cannot fail in the model, as it cannot for these Go values.
- Reading the fetched manifest body (lock/lock.go:101-104) is part of the fetch, so a failed
  read is not told apart from a failed fetch.
- Tag listing is all-or-nothing. oras pages the listing, so a page that contains the tag and
  arrives before a later page fails would still count as listed.
- Context cancellation is not modelled separately: a cancelled call is a transport fault in
  the schedule.
- The `fmt.Println`/`Printf` tracing is left out; it only observes.
- The `auth.DefaultClient` fallback (lock/client.go:22-27) is left out: the decorator always
  wraps a given transport.
- `sync.Map` concurrency is left out; the cache is a plain map updated in sequence. The type
  assertion `got.(string)` cannot fail, because only strings are stored.
- Server-side handling of `If-None-Match` is not modelled; the registry model ignores request
  headers. The comments at lock/client.go:51-56 say the distribution registry ignores it on
  PUT too.
- The registry model accepts any string as a tag. oras's reference validation, which refuses
  an empty reference before any request is sent, is not modelled. So `Acquire` on a handle
  opened without a tag is not covered.
- The schedule can express only transport faults and other clients' manifest pushes, at most
  one before each call. No tag or blob is ever deleted and no unreferenced blob is reclaimed.
  So the "for every schedule" lemmas, `PushStateOkReleases` and `PushStateKeepsContent`
  among them, do not cover deletions or garbage collection. Between its push
  (lock/lock.go:138) and the final manifest push (lock/lock.go:158), the state blob is
  referenced by no manifest.
- The HTTP transport's responses come from a script, not from a server, and the decorator
  does not interpret status codes.
- In Go, `lockManifest` and `unlockManifest` write into the annotation map they are given,
  which their argument shares. The model treats them as functions on values. That aliasing
  is not observable in the core, because the argument is never used afterwards.
