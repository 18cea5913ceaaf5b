/**
 * What the lock protocol guarantees, and where it does not, proved about the functions
 * that `Acquire` and `PushState` are shown equal to.
 *
 * Lemmas that hold for every network schedule say so by asking nothing of `schedule`;
 * the others assume a `Quiet` schedule (no other client writes) or a `Reliable` one
 * (every call is served), or spell the schedule out to exhibit a race.
 */
module LockProperties {
  import opened Wrappers
  import opened Oci
  import opened Registry
  import opened Lock

  // ---------------------------------------------------------------------------
  // The lock annotation

  /** A manifest is locked exactly when locking it changes nothing. */
  lemma LockedIffLockIsIdentity(m: Manifest)
    ensures IsLocked(m) <==> LockManifest(m) == m
  {
    if IsLocked(m) {
      var a := m.annotations.value;
      assert a[AnnotationLockState := "true"] == a;
    }
  }

  /** Lock and unlock overwrite each other: only the last one applied is visible. */
  lemma LastLockWriteWins(m: Manifest)
    ensures UnlockManifest(LockManifest(m)) == UnlockManifest(m)
    ensures LockManifest(UnlockManifest(m)) == LockManifest(m)
    ensures LockManifest(LockManifest(m)) == LockManifest(m)
  {
    var a := if m.annotations.None? then map[] else m.annotations.value;
    assert a[AnnotationLockState := "true"][AnnotationLockState := "false"] == a[AnnotationLockState := "false"];
    assert a[AnnotationLockState := "false"][AnnotationLockState := "true"] == a[AnnotationLockState := "true"];
    LockedIffLockIsIdentity(LockManifest(m));
  }

  // ---------------------------------------------------------------------------
  // Acquire, for every schedule

  /** A blank reference is refused before any registry call. */
  lemma AcquireBlankReference(s: Store, initTag: string, force: bool)
    ensures AcquireSpec(s, initTag, "", force) == (s, Err(BlankReference))
  {
  }

  /** Acquire never removes a stored blob. */
  lemma AcquireKeepsBlobs(s: Store, initTag: string, ref: string, force: bool)
    ensures s.blobs <= AcquireSpec(s, initTag, ref, force).0.blobs
  {
    if ref != "" {
      var (s1, listed) := ListTags(s);
      if listed.Err? || ref !in listed.value {
        InitKeepsBlobs(s1, initTag);
      } else {
        LockExistingKeepsBlobs(s1, ref, force);
      }
    }
  }

  lemma InitKeepsBlobs(s: Store, tag: string)
    ensures s.blobs <= InitSpec(s, tag).0.blobs
  {
    var (s1, pushed) := PushBlob(s, Raw(EmptyJSONBytes));
    if pushed.Ok? {
      var (s2, put) := PushManifest(s1, ManifestEntry(InitialManifest()), tag);
      if put.Ok? {
        assert InitSpec(s, tag).0 == ResolveTag(s2, tag).0;
      }
    }
  }

  lemma LockExistingKeepsBlobs(s: Store, ref: string, force: bool)
    ensures s.blobs == LockExistingSpec(s, ref, force).0.blobs
  {
  }

  /**
   * Whenever Acquire reports success, the manifest it returns is locked and, when it
   * returns, the tag points at that manifest's digest, for every schedule of transport faults
   * and other clients' manifest pushes.
   */
  lemma AcquireOkMeansTagLocked(s: Store, ref: string, force: bool)
    ensures var (s', r) := AcquireSpec(s, ref, ref, force);
      r.Ok? ==> IsLocked(r.value) && ref in s'.tags && s'.tags[ref].desc.digest == ManifestEntry(r.value).desc.digest
  {
    if ref != "" {
      var (s1, listed) := ListTags(s);
      if listed.Err? || ref !in listed.value {
        InitOkMeansTagLocked(s1, ref);
      } else {
        LockExistingOkMeansTagLocked(s1, ref, force);
      }
    }
  }

  lemma InitOkMeansTagLocked(s: Store, tag: string)
    ensures var (s', r) := InitSpec(s, tag);
      r.Ok? ==> IsLocked(r.value) && tag in s'.tags && s'.tags[tag].desc.digest == ManifestEntry(r.value).desc.digest
  {
  }

  lemma LockExistingOkMeansTagLocked(s: Store, ref: string, force: bool)
    ensures var (s', r) := LockExistingSpec(s, ref, force);
      r.Ok? ==> IsLocked(r.value) && ref in s'.tags && s'.tags[ref] == ManifestEntry(r.value)
  {
  }

  /**
   * The errors Acquire raises itself, other than the digest check after initialisation,
   * are raised before anything is written: without other writers the registry is as before.
   */
  lemma AcquireRefusalsWriteNothing(s: Store, initTag: string, ref: string, force: bool)
    requires Quiet(s)
    ensures var (s', r) := AcquireSpec(s, initTag, ref, force);
      r.Err? && (r.error.BlankReference? || r.error.UnusableMediaType? || r.error.Malformed? || r.error.ErrLocked?)
      ==> s'.tags == s.tags && s'.blobs == s.blobs
  {
    if ref != "" {
      var (s1, listed) := ListTags(s);
      if listed.Err? || ref !in listed.value {
        InitFailsRemotelyOrOnMismatch(s1, initTag);
      } else {
        LockExistingRefusalsWriteNothing(s1, ref, force);
      }
    }
  }

  /** The initialisation branch fails only on a registry error or on the digest check. */
  lemma InitFailsRemotelyOrOnMismatch(s: Store, tag: string)
    ensures var r := InitSpec(s, tag).1;
      r.Err? ==> r.error.Remote? || r.error.DigestMismatch?
  {
  }

  /** Without other writers, the existing-tag branch's refusals leave the registry as it was. */
  lemma LockExistingRefusalsWriteNothing(s: Store, ref: string, force: bool)
    requires Quiet(s)
    ensures var (s', r) := LockExistingSpec(s, ref, force);
      r.Err? && (r.error.UnusableMediaType? || r.error.Malformed? || r.error.ErrLocked?)
      ==> s'.tags == s.tags && s'.blobs == s.blobs
  {
  }

  // ---------------------------------------------------------------------------
  // Acquire when every call is served

  /** Uninitialised -> locked: a tag that is not listed gets a fresh locked manifest with no layers. */
  lemma AcquireCreates(s: Store, ref: string, force: bool)
    requires Reliable(s) && ref != "" && ref !in s.tags
    ensures var (s', r) := AcquireSpec(s, ref, ref, force);
      && r == Ok(InitialManifest())
      && s'.tags == s.tags[ref := ManifestEntry(InitialManifest())]
      && s'.blobs == s.blobs + {EmptyConfig().digest}
      && Reliable(s')
  {
  }

  /**
   * Unlocked -> locked, locked -> locked with force, and the refusals: for a listed tag the
   * outcome depends only on the stored entry and `force`.
   */
  lemma AcquireExisting(s: Store, ref: string, force: bool)
    requires Reliable(s) && ref != "" && ref in s.tags
    ensures var (s', r) := AcquireSpec(s, ref, ref, force);
      var e := s.tags[ref];
      && Reliable(s') && s'.blobs == s.blobs
      && (e.desc.mediaType != MediaTypeImageManifest ==>
            r == Err(UnusableMediaType(e.desc.mediaType)) && s'.tags == s.tags)
      && (e.desc.mediaType == MediaTypeImageManifest && Unmarshal(e.body).Err? ==>
            r == Err(Malformed) && s'.tags == s.tags)
      && (e.desc.mediaType == MediaTypeImageManifest && Unmarshal(e.body).Ok? ==>
            var current := Unmarshal(e.body).value;
            if IsLocked(current) && !force then
              r == Err(ErrLocked) && s'.tags == s.tags
            else
              r == Ok(LockManifest(current)) && s'.tags == s.tags[ref := ManifestEntry(LockManifest(current))])
  {
  }

  /**
   * A failed tag listing is read as "absent": the tag is reinitialised even when it holds a
   * manifest, locked or not, so its layer history is replaced by an empty one.
   */
  lemma ListingFailureReinitialises(s: Store, ref: string, force: bool)
    requires ref != "" && |s.schedule| > 0 && s.schedule[0] == Fault
    requires Reliable(s.(schedule := s.schedule[1..]))
    ensures var (s', r) := AcquireSpec(s, ref, ref, force);
      && r == Ok(InitialManifest())
      && s'.tags == s.tags[ref := ManifestEntry(InitialManifest())]
  {
    var s1 := s.(schedule := s.schedule[1..]);
    assert ListTags(s) == (s1, Err(Transport));
    assert Reliable(s1);
  }

  /**
   * The initialisation branch writes and resolves the handle's own reference, not `ref`:
   * when the two differ, Acquire reports a lock on `ref` while `ref` stays absent.
   */
  lemma InitWritesHandleReference(s: Store, initTag: string, ref: string, force: bool)
    requires Reliable(s) && ref != "" && ref !in s.tags && initTag != ref && initTag != ""
    ensures var (s', r) := AcquireSpec(s, initTag, ref, force);
      && r == Ok(InitialManifest())
      && ref !in s'.tags
      && s'.tags == s.tags[initTag := ManifestEntry(InitialManifest())]
  {
  }

  // ---------------------------------------------------------------------------
  // Acquire under interference from another client

  /**
   * If another client's write lands on the tag between the initial push and the resolve,
   * the digest check reports it.
   */
  lemma InitDetectsOverwrite(s: Store, ref: string, force: bool, theirs: Entry)
    requires ref != "" && ref !in s.tags
    requires s.schedule == [Serve, Serve, Serve, Foreign(ref, theirs)]
    requires theirs.desc.digest != ManifestEntry(InitialManifest()).desc.digest
    ensures var (s', r) := AcquireSpec(s, ref, ref, force);
      && r == Err(DigestMismatch(ManifestEntry(InitialManifest()).desc.digest, theirs.desc.digest))
      && s'.tags[ref] == theirs
  {
    var e := ManifestEntry(InitialManifest());
    var s1 := s.(schedule := s.schedule[1..]);
    assert ListTags(s) == (s1, Ok(s.tags.Keys));
    var s2 := s1.(schedule := s1.schedule[1..], blobs := s.blobs + {EmptyConfig().digest});
    assert PushBlob(s1, Raw(EmptyJSONBytes)) == (s2, Ok(()));
    var s3 := s2.(schedule := s2.schedule[1..], tags := s.tags[ref := e]);
    assert PushManifest(s2, e, ref) == (s3, Ok(()));
    var s4 := s3.(schedule := [], tags := s.tags[ref := theirs]);
    assert s3.tags[ref := theirs] == s.tags[ref := theirs];
    assert ResolveTag(s3, ref) == (s4, Ok(theirs.desc));
  }

  /**
   * The digest check cannot see a racing initialisation: another client creating the same
   * fresh tag pushes byte-identical content, so both Acquire calls succeed and both
   * clients hold the lock.
   */
  lemma InitMissesIdenticalWrite(s: Store, ref: string, force: bool)
    requires ref != "" && ref !in s.tags
    requires s.schedule == [Serve, Serve, Serve, Foreign(ref, ManifestEntry(InitialManifest()))]
    ensures var (s', r) := AcquireSpec(s, ref, ref, force);
      && r == Ok(InitialManifest())
      && s'.tags[ref] == ManifestEntry(InitialManifest())
  {
    var e := ManifestEntry(InitialManifest());
    var s1 := s.(schedule := s.schedule[1..]);
    assert ListTags(s) == (s1, Ok(s.tags.Keys));
    var s2 := s1.(schedule := s1.schedule[1..], blobs := s.blobs + {EmptyConfig().digest});
    assert PushBlob(s1, Raw(EmptyJSONBytes)) == (s2, Ok(()));
    var s3 := s2.(schedule := s2.schedule[1..], tags := s.tags[ref := e]);
    assert PushManifest(s2, e, ref) == (s3, Ok(()));
    var s4 := s3.(schedule := []);
    assert s3.tags[ref := e] == s3.tags;
    assert ResolveTag(s3, ref) == (s4, Ok(e.desc));
  }

  /**
   * The read-modify-write of an existing tag is not atomic: a lock that another client
   * takes between the fetch and the push is overwritten, and Acquire still succeeds, so
   * both clients hold the lock. Nothing in the registry model honours the If-None-Match
   * header the ETag client attaches.
   */
  lemma LostUpdate(s: Store, ref: string, current: Manifest, theirs: Manifest)
    requires ref != "" && ref in s.tags && s.tags[ref] == ManifestEntry(current)
    requires !IsLocked(current) && IsLocked(theirs)
    requires s.schedule == [Serve, Serve, Foreign(ref, ManifestEntry(theirs))]
    ensures var (s', r) := AcquireSpec(s, ref, ref, false);
      && r == Ok(LockManifest(current))
      && s'.tags[ref] == ManifestEntry(LockManifest(current))
  {
    var s1 := s.(schedule := s.schedule[1..]);
    assert ListTags(s) == (s1, Ok(s.tags.Keys));
    var s2 := s1.(schedule := s1.schedule[1..]);
    assert FetchManifest(s1, ref) == (s2, Ok(ManifestEntry(current)));
    var s3 := s2.(schedule := [], tags := s.tags[ref := ManifestEntry(LockManifest(current))]);
    assert s.tags[ref := ManifestEntry(theirs)][ref := ManifestEntry(LockManifest(current))]
        == s.tags[ref := ManifestEntry(LockManifest(current))];
    assert PushManifest(s2, ManifestEntry(LockManifest(current)), ref) == (s3, Ok(()));
  }

  // ---------------------------------------------------------------------------
  // PushState

  /** The manifest a tag points at, when the tag exists and its body decodes. */
  function TagManifest(s: Store, ref: string): Option<Manifest>
  {
    if ref in s.tags && Unmarshal(s.tags[ref].body).Ok? then Some(Unmarshal(s.tags[ref].body).value) else None
  }

  /**
   * The state blob is pushed before the lock is taken, so once that push succeeds the blob
   * stays stored whatever follows: success, Acquire's refusal (ErrLocked included), or a
   * transport error in Acquire or in the final push.
   */
  lemma PushStateKeepsContent(s: Store, initTag: string, ref: string, b: seq<byte>, force: bool)
    ensures var (s', r) := PushStateSpec(s, initTag, ref, Some(b), force);
      && s.blobs <= s'.blobs
      && (PushBlob(s, Raw(b)).1.Ok? ==> StateDescriptor(b).digest in s'.blobs)
  {
    var (s1, pushed) := PushBlob(s, Raw(b));
    if pushed.Ok? {
      AcquireKeepsBlobs(s1, initTag, ref, force);
    }
  }

  /**
   * Whenever PushState reports success, the tag points at an unlocked image manifest whose
   * last layer is the new state, and that state's blob is stored, for every schedule of
   * transport faults and other clients' manifest pushes (nothing in the model deletes a blob).
   */
  lemma PushStateOkReleases(s: Store, initTag: string, ref: string, b: seq<byte>, force: bool)
    ensures var (s', r) := PushStateSpec(s, initTag, ref, Some(b), force);
      r.Ok? ==>
        && ref in s'.tags && s'.tags[ref].desc.mediaType == MediaTypeImageManifest
        && TagManifest(s', ref).Some?
        && var m := TagManifest(s', ref).value;
        && !IsLocked(m) && |m.layers| > 0 && m.layers[|m.layers| - 1] == StateDescriptor(b)
        && m.layers[|m.layers| - 1].digest in s'.blobs
  {
    PushStateKeepsContent(s, initTag, ref, b, force);
  }

  /**
   * When Acquire refuses (blank reference, unusable media type, undecodable manifest,
   * ErrLocked), PushState passes the refusal on and writes no manifest: without other
   * writers every tag is as before, whichever calls fail.
   */
  lemma PushStateRefusalsWriteNoManifest(s: Store, initTag: string, ref: string, b: seq<byte>, force: bool)
    requires Quiet(s)
    ensures var (s', r) := PushStateSpec(s, initTag, ref, Some(b), force);
      r.Err? && (r.error.BlankReference? || r.error.UnusableMediaType? || r.error.Malformed? || r.error.ErrLocked?)
      ==> s'.tags == s.tags
  {
    var (s1, pushed) := PushBlob(s, Raw(b));
    assert Quiet(s1) && s1.tags == s.tags by {
      assert s1.schedule == Next(s).0.schedule;
    }
    AcquireRefusalsWriteNothing(s1, initTag, ref, force);
  }

  /**
   * Any error of Acquire, refusal or transport failure, is what PushState returns, and the
   * final manifest push does not happen: the registry is left as Acquire left it.
   */
  lemma PushStateForwardsAcquireError(s: Store, initTag: string, ref: string, b: seq<byte>, force: bool)
    ensures var s1 := PushBlob(s, Raw(b)).0;
      var (s2, acquired) := AcquireSpec(s1, initTag, ref, force);
      PushBlob(s, Raw(b)).1.Ok? && acquired.Err? ==>
        PushStateSpec(s, initTag, ref, Some(b), force) == (s2, Err(acquired.error))
  {
  }

  /** A state read that fails is reported before any registry call. */
  lemma PushStateReadFailure(s: Store, initTag: string, ref: string, force: bool)
    ensures PushStateSpec(s, initTag, ref, None, force) == (s, Err(ReadFailed))
  {
  }

  /**
   * Mutual exclusion, sequentially: against a locked tag and without force, PushState fails
   * with ErrLocked and leaves every tag as it was; only the new state blob is added.
   */
  lemma PushStateWhenLocked(s: Store, ref: string, b: seq<byte>, held: Manifest)
    requires Reliable(s) && ref != "" && ref in s.tags && s.tags[ref] == ManifestEntry(held) && IsLocked(held)
    ensures var (s', r) := PushStateSpec(s, ref, ref, Some(b), false);
      && r == Err(ErrLocked)
      && s'.tags == s.tags
      && s'.blobs == s.blobs + {StateDescriptor(b).digest}
      && Reliable(s')
  {
    var (s1, pushed) := PushBlob(s, Raw(b));
    AcquireExisting(s1, ref, false);
  }

  /** Once the blob push and Acquire succeed, PushState's outcome is that of the final push. */
  lemma PushStateAfterAcquire(s: Store, initTag: string, ref: string, b: seq<byte>, force: bool)
    ensures var s1 := PushBlob(s, Raw(b)).0;
      var (s2, acquired) := AcquireSpec(s1, initTag, ref, force);
      PushBlob(s, Raw(b)).1.Ok? && acquired.Ok? ==>
        var (s3, put) := PushManifest(s2, ManifestEntry(Released(acquired.value, StateDescriptor(b))), ref);
        PushStateSpec(s, initTag, ref, Some(b), force) == (s3, if put.Ok? then Ok(()) else Err(Remote(put.error)))
  {
  }

  /** Publishing to a tag that does not exist: one layer, the new state, and the lock released. */
  lemma PushStateInitialises(s: Store, ref: string, b: seq<byte>, force: bool)
    requires Reliable(s) && ref != "" && ref !in s.tags
    ensures var (s', r) := PushStateSpec(s, ref, ref, Some(b), force);
      var final := Released(InitialManifest(), StateDescriptor(b));
      && r == Ok(())
      && s'.tags == s.tags[ref := ManifestEntry(final)]
      && final.layers == [StateDescriptor(b)] && !IsLocked(final)
      && s'.blobs == s.blobs + {StateDescriptor(b).digest, EmptyConfig().digest}
      && Reliable(s')
  {
    var (s1, pushed) := PushBlob(s, Raw(b));
    assert pushed.Ok? && Reliable(s1) && s1.tags == s.tags;
    AcquireCreates(s1, ref, force);
    var s2 := AcquireSpec(s1, ref, ref, force).0;
    var final := Released(InitialManifest(), StateDescriptor(b));
    assert final.layers == [] + [StateDescriptor(b)];
    PushStateAfterAcquire(s, ref, ref, b, force);
    var init := ManifestEntry(InitialManifest());
    assert s2.tags == s.tags[ref := init];
    MapOverwrite(s.tags, ref, init, ManifestEntry(final));
  }

  /** A second write to the same key hides the first. */
  lemma MapOverwrite<K, V>(m: map<K, V>, k: K, v: V, w: V)
    ensures m[k := v][k := w] == m[k := w]
  {
  }

  /**
   * Publishing to an unlocked tag, or to a locked one with force: the tag ends unlocked with
   * the new state appended to the layers it had, the configuration unchanged.
   */
  lemma PushStateAppends(s: Store, ref: string, b: seq<byte>, force: bool, m: Manifest)
    requires Reliable(s) && ref != "" && ref in s.tags && s.tags[ref] == ManifestEntry(m)
    requires !IsLocked(m) || force
    ensures var (s', r) := PushStateSpec(s, ref, ref, Some(b), force);
      var final := Released(LockManifest(m), StateDescriptor(b));
      && r == Ok(())
      && s'.tags == s.tags[ref := ManifestEntry(final)]
      && final.layers == m.layers + [StateDescriptor(b)] && final.config == m.config && !IsLocked(final)
      && s'.blobs == s.blobs + {StateDescriptor(b).digest}
      && Reliable(s')
  {
    var (s1, pushed) := PushBlob(s, Raw(b));
    AcquireExisting(s1, ref, force);
    var s2 := AcquireSpec(s1, ref, ref, force).0;
    var final := Released(LockManifest(m), StateDescriptor(b));
    PushStateAfterAcquire(s, ref, ref, b, force);
    assert s2.tags == s.tags[ref := ManifestEntry(LockManifest(m))];
    MapOverwrite(s.tags, ref, ManifestEntry(LockManifest(m)), ManifestEntry(final));
  }

  /**
   * Whenever the blob push and Acquire succeed but PushState fails, the failure is the final
   * push's transport error and the lock Acquire took is still in place, for every schedule.
   */
  lemma FailedReleaseKeepsLock(s: Store, ref: string, b: seq<byte>, force: bool)
    ensures var s1 := PushBlob(s, Raw(b)).0;
      var acquired := AcquireSpec(s1, ref, ref, force).1;
      var (s', r) := PushStateSpec(s, ref, ref, Some(b), force);
      PushBlob(s, Raw(b)).1.Ok? && acquired.Ok? && r.Err? ==>
        && r == Err(Remote(Transport))
        && IsLocked(acquired.value)
        && ref in s'.tags && s'.tags[ref].desc.digest == ManifestEntry(acquired.value).desc.digest
  {
    var s1 := PushBlob(s, Raw(b)).0;
    PushStateAfterAcquire(s, ref, ref, b, force);
    AcquireOkMeansTagLocked(s1, ref, force);
  }

  /**
   * A failed final push leaves the lock held: Acquire's locked manifest stays under the tag
   * and nothing releases it, so later PushState calls without force are refused.
   */
  lemma FailedReleaseLeavesLock(s: Store, ref: string, b: seq<byte>, m: Manifest)
    requires ref != "" && ref in s.tags && s.tags[ref] == ManifestEntry(m) && !IsLocked(m)
    requires s.schedule == [Serve, Serve, Serve, Serve, Fault]
    ensures var (s', r) := PushStateSpec(s, ref, ref, Some(b), false);
      && r == Err(Remote(Transport))
      && s'.tags == s.tags[ref := ManifestEntry(LockManifest(m))]
      && IsLocked(LockManifest(m))
  {
    var s1 := s.(schedule := s.schedule[1..], blobs := s.blobs + {StateDescriptor(b).digest});
    assert PushBlob(s, Raw(b)) == (s1, Ok(()));
    var s2 := s1.(schedule := s1.schedule[1..]);
    assert ListTags(s1) == (s2, Ok(s.tags.Keys));
    var s3 := s2.(schedule := s2.schedule[1..]);
    assert FetchManifest(s2, ref) == (s3, Ok(ManifestEntry(m)));
    var s4 := s3.(schedule := [Fault], tags := s.tags[ref := ManifestEntry(LockManifest(m))]);
    assert PushManifest(s3, ManifestEntry(LockManifest(m)), ref) == (s4, Ok(()));
    assert AcquireSpec(s1, ref, ref, false) == (s4, Ok(LockManifest(m)));
  }

  // ---------------------------------------------------------------------------
  // Scenarios

  /** Initialising twice in a row: the second Acquire finds the first one's lock. */
  lemma SecondAcquireIsRefused(s: Store, ref: string) returns (s1: Store, s2: Store)
    requires Reliable(s) && ref != "" && ref !in s.tags
    ensures AcquireSpec(s, ref, ref, false) == (s1, Ok(InitialManifest()))
    ensures AcquireSpec(s1, ref, ref, false) == (s2, Err(ErrLocked))
    ensures s2.tags == s1.tags
  {
    AcquireCreates(s, ref, false);
    s1 := AcquireSpec(s, ref, ref, false).0;
    AcquireExisting(s1, ref, false);
    s2 := AcquireSpec(s1, ref, ref, false).0;
  }

  /**
   * Publish `a` to a fresh tag, then take the lock: the tag holds one layer, `a`, and is
   * locked.
   */
  lemma PublishThenLockScenario(s0: Store, ref: string, a: seq<byte>) returns (s1: Store, s2: Store, held: Manifest)
    requires Reliable(s0) && ref != "" && ref !in s0.tags
    ensures PushStateSpec(s0, ref, ref, Some(a), false) == (s1, Ok(()))
    ensures TagManifest(s1, ref).Some? && !IsLocked(TagManifest(s1, ref).value)
    ensures TagManifest(s1, ref).value.layers == [StateDescriptor(a)]
    ensures AcquireSpec(s1, ref, ref, false) == (s2, Ok(held))
    ensures Reliable(s2) && ref in s2.tags && s2.tags[ref] == ManifestEntry(held)
    ensures IsLocked(held) && held.layers == [StateDescriptor(a)]
  {
    PushStateInitialises(s0, ref, a, false);
    s1 := PushStateSpec(s0, ref, ref, Some(a), false).0;
    var m1 := Released(InitialManifest(), StateDescriptor(a));
    assert TagManifest(s1, ref) == Some(m1);

    AcquireExisting(s1, ref, false);
    s2 := AcquireSpec(s1, ref, ref, false).0;
    held := LockManifest(m1);
  }

  /**
   * Against a held lock, publishing `b` without force is refused and changes no tag;
   * with force it succeeds, and the tag ends unlocked with `b` appended to its layers.
   */
  lemma RefuseThenForceScenario(s2: Store, ref: string, b: seq<byte>, held: Manifest) returns (s3: Store, s4: Store)
    requires Reliable(s2) && ref != "" && ref in s2.tags && s2.tags[ref] == ManifestEntry(held) && IsLocked(held)
    ensures PushStateSpec(s2, ref, ref, Some(b), false) == (s3, Err(ErrLocked))
    ensures s3.tags == s2.tags
    ensures PushStateSpec(s3, ref, ref, Some(b), true) == (s4, Ok(()))
    ensures TagManifest(s4, ref).Some? && !IsLocked(TagManifest(s4, ref).value)
    ensures TagManifest(s4, ref).value.layers == held.layers + [StateDescriptor(b)]
    ensures StateDescriptor(b).digest in s4.blobs
  {
    PushStateWhenLocked(s2, ref, b, held);
    s3 := PushStateSpec(s2, ref, ref, Some(b), false).0;

    PushStateAppends(s3, ref, b, true, held);
    s4 := PushStateSpec(s3, ref, ref, Some(b), true).0;
    LastLockWriteWins(held);
    var m4 := Released(LockManifest(held), StateDescriptor(b));
    assert TagManifest(s4, ref) == Some(m4);
  }
}
