/**
 * The lock protocol of lockoci: a tag of an OCI repository is uninitialised, unlocked
 * or locked, and the lock is one manifest annotation. `Acquire` takes the lock;
 * `PushState` publishes a new state blob under the lock and releases it.
 *
 * Each imperative operation is a method over the `Repository` handle, proved equal to a
 * function over the registry's `Store` (`AcquireSpec`, `PushStateSpec`); what the
 * protocol guarantees is proved about those functions in module LockProperties.
 */
module Lock {
  import opened Wrappers
  import opened Oci
  import opened Registry

  /** The errors the protocol reports. `ErrLocked` is the sentinel callers test for. */
  datatype Error =
    | BlankReference                                  // "reference is blank"
    | Remote(failure: Failure)                        // an error of the registry client, passed on
    | UnusableMediaType(found: string)                // the tag holds something other than an image manifest
    | Malformed                                       // the manifest body did not decode
    | DigestMismatch(expected: Digest, got: Digest)   // the tag did not resolve to what was just pushed
    | ErrLocked                                       // "manifest is currently locked for editing"
    | ReadFailed                                      // the state could not be read from its reader

  /** `isLocked`: the annotation map exists and holds exactly "true" under the lock key. */
  function IsLocked(m: Manifest): (locked: bool)
    ensures locked <==> Annotation(m, AnnotationLockState) == Some("true")
  {
    // a missing key reads as Go's zero value "", which is not "true"
    m.annotations.Some? && AnnotationLockState in m.annotations.value
    && m.annotations.value[AnnotationLockState] == "true"
  }

  /** `r` is `m` with at most the lock annotation changed (the map allocated if it was nil). */
  ghost predicate OnlyLockChanged(m: Manifest, r: Manifest)
  {
    && r.schemaVersion == m.schemaVersion
    && r.mediaType == m.mediaType
    && r.config == m.config
    && r.layers == m.layers
    && r.annotations.Some?
    && forall k :: k != AnnotationLockState ==> Annotation(r, k) == Annotation(m, k)
  }

  /** Writes one annotation, allocating the annotation map when it is nil. */
  function SetAnnotation(m: Manifest, key: string, value: string): (r: Manifest)
    ensures Annotation(r, key) == Some(value)
    ensures key == AnnotationLockState ==> OnlyLockChanged(m, r)
  {
    var a := if m.annotations.None? then map[] else m.annotations.value;
    m.(annotations := Some(a[key := value]))
  }

  /** `lockManifest`. */
  function LockManifest(m: Manifest): (r: Manifest)
    ensures IsLocked(r) && OnlyLockChanged(m, r)
  {
    SetAnnotation(m, AnnotationLockState, "true")
  }

  /** `unlockManifest`: the lock key is written as "false", not deleted. */
  function UnlockManifest(m: Manifest): (r: Manifest)
    ensures !IsLocked(r) && OnlyLockChanged(m, r)
    ensures Annotation(r, AnnotationLockState) == Some("false")
  {
    SetAnnotation(m, AnnotationLockState, "false")
  }

  /** The manifest `Acquire` creates for a tag it did not find. */
  function InitialManifest(): (m: Manifest)
    ensures IsLocked(m) && m.schemaVersion == 2 && m.mediaType == MediaTypeImageManifest
    ensures m.config == EmptyConfig() && m.layers == []
    ensures m.annotations == Some(map[AnnotationLockState := "true"])
  {
    LockManifest(Manifest(2, MediaTypeImageManifest, EmptyConfig(), [], None))
  }

  /** A manifest as it is pushed: its JSON bytes, described under the image-manifest media type. */
  function ManifestEntry(m: Manifest): (e: Entry)
    ensures e.desc.mediaType == MediaTypeImageManifest && Unmarshal(e.body) == Ok(m)
    ensures e.desc.digest.of == e.body
  {
    var p := Marshal(m);
    Entry(NewDescriptor(MediaTypeImageManifest, p), p)
  }

  /** The descriptor of a state blob. */
  function StateDescriptor(b: seq<byte>): (d: Descriptor)
    ensures d.mediaType == StateFileMediaType && d.digest.of == Raw(b)
  {
    NewDescriptor(StateFileMediaType, Raw(b))
  }

  /** What `PushState` pushes after acquiring: the lock released and the new layer appended. */
  function Released(m: Manifest, layer: Descriptor): (r: Manifest)
    ensures !IsLocked(r) && r.layers == m.layers + [layer]
    ensures r.config == m.config && r.mediaType == m.mediaType && r.schemaVersion == m.schemaVersion
    ensures forall k :: k != AnnotationLockState ==> Annotation(r, k) == Annotation(m, k)
  {
    var u := UnlockManifest(m);
    u.(layers := u.layers + [layer])
  }

  /**
   * `Acquire` as a function of the registry's state. `initTag` is the handle's own
   * reference, which the initialisation branch writes and resolves; every other step
   * uses `ref`.
   */
  function AcquireSpec(s: Store, initTag: string, ref: string, force: bool): (Store, Result<Manifest, Error>)
  {
    if ref == "" then (s, Err(BlankReference))
    else
      var (s1, listed) := ListTags(s);
      if listed.Err? || ref !in listed.value then InitSpec(s1, initTag)
      else LockExistingSpec(s1, ref, force)
  }

  /** The uninitialised -> locked transition. */
  function InitSpec(s: Store, tag: string): (Store, Result<Manifest, Error>)
  {
    var (s1, pushed) := PushBlob(s, Raw(EmptyJSONBytes));
    if pushed.Err? then (s1, Err(Remote(pushed.error)))
    else
      var e := ManifestEntry(InitialManifest());
      var (s2, put) := PushManifest(s1, e, tag);
      if put.Err? then (s2, Err(Remote(put.error)))
      else
        var (s3, resolved) := ResolveTag(s2, tag);
        if resolved.Err? then (s3, Err(Remote(resolved.error)))
        else if resolved.value.digest != e.desc.digest then
          (s3, Err(DigestMismatch(e.desc.digest, resolved.value.digest)))
        else (s3, Ok(InitialManifest()))
  }

  /** The unlocked -> locked transition, and locked -> locked when forced. */
  function LockExistingSpec(s: Store, ref: string, force: bool): (Store, Result<Manifest, Error>)
  {
    var (s1, fetched) := FetchManifest(s, ref);
    if fetched.Err? then (s1, Err(Remote(fetched.error)))
    else if fetched.value.desc.mediaType != MediaTypeImageManifest then
      (s1, Err(UnusableMediaType(fetched.value.desc.mediaType)))
    else
      match Unmarshal(fetched.value.body)
      case Err(_) => (s1, Err(Malformed))
      case Ok(current) =>
        if IsLocked(current) && !force then (s1, Err(ErrLocked))
        else
          var m := LockManifest(current);
          var (s2, put) := PushManifest(s1, ManifestEntry(m), ref);
          if put.Err? then (s2, Err(Remote(put.error))) else (s2, Ok(m))
  }

  /** `PushState` as a function of the registry's state; `input` is what reading the state gave. */
  function PushStateSpec(s: Store, initTag: string, ref: string, input: Option<seq<byte>>, force: bool)
    : (Store, Result<(), Error>)
  {
    if input.None? then (s, Err(ReadFailed))
    else
      var (s1, pushed) := PushBlob(s, Raw(input.value));
      if pushed.Err? then (s1, Err(Remote(pushed.error)))
      else
        var (s2, acquired) := AcquireSpec(s1, initTag, ref, force);
        if acquired.Err? then (s2, Err(acquired.error))
        else
          var m := Released(acquired.value, StateDescriptor(input.value));
          var (s3, put) := PushManifest(s2, ManifestEntry(m), ref);
          if put.Err? then (s3, Err(Remote(put.error))) else (s3, Ok(()))
  }

  /** Takes the lock on `ref`, creating the tag when it is not listed. */
  method Acquire(repo: Repository, ref: string, force: bool) returns (r: Result<Manifest, Error>)
    modifies repo
    ensures (repo.State(), r) == AcquireSpec(old(repo.State()), repo.reference, ref, force)
  {
    var stateInitialized := false;
    if ref == "" {
      return Err(BlankReference);
    }
    // the listing's error is ignored
    var listed := repo.Tags();
    if listed.Ok? && ref in listed.value {
      stateInitialized := true;
    }

    if !stateInitialized {
      var pushed := repo.Push(Raw(EmptyJSONBytes));
      if pushed.Err? {
        return Err(Remote(pushed.error));
      }
      var manifest := LockManifest(Manifest(2, MediaTypeImageManifest, EmptyConfig(), [], None));
      var manifestBytes := Marshal(manifest);
      var manifestDescriptor := NewDescriptor(MediaTypeImageManifest, manifestBytes);
      var put := repo.PushReference(Entry(manifestDescriptor, manifestBytes), repo.reference);
      if put.Err? {
        return Err(Remote(put.error));
      }
      var desc := repo.Resolve(repo.reference);
      if desc.Err? {
        return Err(Remote(desc.error));
      }
      if desc.value.digest != manifestDescriptor.digest {
        return Err(DigestMismatch(manifestDescriptor.digest, desc.value.digest));
      }
      return Ok(manifest);
    }

    var fetched := repo.FetchReference(ref);
    if fetched.Err? {
      return Err(Remote(fetched.error));
    }
    if fetched.value.desc.mediaType != MediaTypeImageManifest {
      return Err(UnusableMediaType(fetched.value.desc.mediaType));
    }
    var decoded := Unmarshal(fetched.value.body);
    if decoded.Err? {
      return Err(Malformed);
    }
    var manifest := decoded.value;
    if IsLocked(manifest) && !force {
      return Err(ErrLocked);
    }
    manifest := LockManifest(manifest);
    var manifestBytes := Marshal(manifest);
    var manifestDescriptor := NewDescriptor(MediaTypeImageManifest, manifestBytes);
    var put := repo.PushReference(Entry(manifestDescriptor, manifestBytes), ref);
    if put.Err? {
      return Err(Remote(put.error));
    }
    return Ok(manifest);
  }

  /** Publishes `input` as a new layer of `ref` under the lock, then releases the lock. */
  method PushState(repo: Repository, ref: string, input: Option<seq<byte>>, force: bool)
    returns (r: Result<(), Error>)
    modifies repo
    ensures (repo.State(), r) == PushStateSpec(old(repo.State()), repo.reference, ref, input, force)
  {
    if input.None? {
      return Err(ReadFailed);
    }
    var b := input.value;
    var expected := StateDescriptor(b);
    var pushed := repo.Push(Raw(b));
    if pushed.Err? {
      return Err(Remote(pushed.error));
    }

    var acquired := Acquire(repo, ref, force);
    if acquired.Err? {
      return Err(acquired.error);
    }

    var manifest := UnlockManifest(acquired.value);
    manifest := manifest.(layers := manifest.layers + [expected]);
    var manifestBytes := Marshal(manifest);
    var manifestDescriptor := NewDescriptor(MediaTypeImageManifest, manifestBytes);
    var put := repo.PushReference(Entry(manifestDescriptor, manifestBytes), ref);
    if put.Err? {
      return Err(Remote(put.error));
    }
    return Ok(());
  }
}
