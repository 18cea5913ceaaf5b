/**
 * The remote OCI repository the lock protocol talks to, as seen by one client.
 *
 * The registry's durable state is a tag -> manifest table and a set of stored blobs.
 * What the network and other clients do is part of the state too: `schedule` lists,
 * call by call, whether the next request is served, fails with a transport error, or
 * is preceded by another client's manifest push landing on some tag. An exhausted
 * schedule serves every call. This lets races between separate processes be stated
 * sequentially.
 */
module Registry {
  import opened Wrappers
  import opened Oci

  /** A manifest stored under a tag: the descriptor the registry reports for it and its body. */
  datatype Entry = Entry(desc: Descriptor, body: Payload)

  /** What happens on the wire at the client's next call. */
  datatype Event =
    | Serve                               // the call is carried out
    | Fault                               // the call fails with a transport error
    | Foreign(tag: string, entry: Entry)  // another client's push to `tag` lands, then the call is carried out

  /** Errors the registry client reports. */
  datatype Failure = Transport | NotFound

  datatype Store = Store(tags: map<string, Entry>, blobs: set<Digest>, schedule: seq<Event>)

  /** No other client writes during the calls this schedule covers. */
  predicate Quiet(s: Store)
  {
    forall i | 0 <= i < |s.schedule| :: !s.schedule[i].Foreign?
  }

  /** Every call is served and no other client writes. */
  predicate Reliable(s: Store)
  {
    forall i | 0 <= i < |s.schedule| :: s.schedule[i] == Serve
  }

  /** The schedule after one call has consumed its event. */
  function Rest(schedule: seq<Event>): seq<Event>
  {
    if schedule == [] then [] else schedule[1..]
  }

  /** The network's side of one call: consumes an event; `up` is false on a transport fault. */
  function Next(s: Store): (r: (Store, bool))
    ensures r.0.blobs == s.blobs && r.0.schedule == Rest(s.schedule)
    ensures !r.1 ==> r.0.tags == s.tags
    ensures Quiet(s) ==> Quiet(r.0) && r.0.tags == s.tags
    ensures Reliable(s) ==> Reliable(r.0) && r.1
  {
    if s.schedule == [] then (s, true)
    else
      var s' := s.(schedule := s.schedule[1..]);
      match s.schedule[0]
      case Serve => (s', true)
      case Fault => (s', false)
      case Foreign(t, e) => (s'.(tags := s.tags[t := e]), true)
  }

  /** `repo.Tags`: the tags present when the call is served. */
  function ListTags(s: Store): (r: (Store, Result<set<string>, Failure>))
    ensures r.1.Ok? ==> r.1.value == r.0.tags.Keys
    ensures r.1.Err? ==> r.1.error == Transport
    ensures r.0 == Next(s).0
  {
    var (s', up) := Next(s);
    if up then (s', Ok(s'.tags.Keys)) else (s', Err(Transport))
  }

  /** `repo.Push`: stores a content-addressed blob. */
  function PushBlob(s: Store, p: Payload): (r: (Store, Result<(), Failure>))
    ensures r.0.tags == Next(s).0.tags && r.0.schedule == Rest(s.schedule)
    ensures r.1.Ok? ==> r.0.blobs == s.blobs + {Sha256(p)}
    ensures r.1.Err? ==> r.0.blobs == s.blobs && r.1.error == Transport
  {
    var (s', up) := Next(s);
    if up then (s'.(blobs := s'.blobs + {Sha256(p)}), Ok(())) else (s', Err(Transport))
  }

  /** `repo.PushReference`: stores a manifest and points `tag` at it. */
  function PushManifest(s: Store, e: Entry, tag: string): (r: (Store, Result<(), Failure>))
    ensures r.0.blobs == s.blobs && r.0.schedule == Rest(s.schedule)
    ensures r.1.Ok? ==> r.0.tags == Next(s).0.tags[tag := e]
    ensures r.1.Err? ==> r.0.tags == s.tags && r.1.error == Transport
  {
    var (s', up) := Next(s);
    if up then (s'.(tags := s'.tags[tag := e]), Ok(())) else (s', Err(Transport))
  }

  /** `repo.Resolve`: the descriptor `tag` points at when the call is served. */
  function ResolveTag(s: Store, tag: string): (r: (Store, Result<Descriptor, Failure>))
    ensures r.0 == Next(s).0
    ensures r.1.Ok? ==> tag in r.0.tags && r.1.value == r.0.tags[tag].desc
    ensures r.1.Err? ==> r.1.error == Transport || tag !in r.0.tags
  {
    var (s', up) := Next(s);
    if !up then (s', Err(Transport))
    else if tag in s'.tags then (s', Ok(s'.tags[tag].desc))
    else (s', Err(NotFound))
  }

  /** `repo.FetchReference`: the descriptor and body `tag` points at when the call is served. */
  function FetchManifest(s: Store, tag: string): (r: (Store, Result<Entry, Failure>))
    ensures r.0 == Next(s).0
    ensures r.1.Ok? ==> tag in r.0.tags && r.1.value == r.0.tags[tag]
    ensures r.1.Err? ==> r.1.error == Transport || tag !in r.0.tags
  {
    var (s', up) := Next(s);
    if !up then (s', Err(Transport))
    else if tag in s'.tags then (s', Ok(s'.tags[tag]))
    else (s', Err(NotFound))
  }

  /** The `*remote.Repository` handle: the registry's state behind one client connection. */
  class Repository {
    /** `repo.Reference.Reference`: the tag this handle was opened for. */
    const reference: string
    var tags: map<string, Entry>
    var blobs: set<Digest>
    var schedule: seq<Event>

    function State(): Store
      reads this
    {
      Store(tags, blobs, schedule)
    }

    constructor (reference: string, s: Store)
      ensures this.reference == reference && State() == s
    {
      this.reference := reference;
      tags, blobs, schedule := s.tags, s.blobs, s.schedule;
    }

    /** Consumes the next network event. */
    method Arrive() returns (up: bool)
      modifies this
      ensures (State(), up) == Next(old(State()))
    {
      up := true;
      if schedule != [] {
        var event := schedule[0];
        schedule := schedule[1..];
        match event
        case Serve =>
        case Fault => up := false;
        case Foreign(t, e) => tags := tags[t := e];
      }
    }

    method Tags() returns (r: Result<set<string>, Failure>)
      modifies this
      ensures (State(), r) == ListTags(old(State()))
    {
      var up := Arrive();
      r := if up then Ok(tags.Keys) else Err(Transport);
    }

    method Push(p: Payload) returns (r: Result<(), Failure>)
      modifies this
      ensures (State(), r) == PushBlob(old(State()), p)
    {
      var up := Arrive();
      if !up {
        return Err(Transport);
      }
      blobs := blobs + {Sha256(p)};
      r := Ok(());
    }

    method PushReference(e: Entry, tag: string) returns (r: Result<(), Failure>)
      modifies this
      ensures (State(), r) == PushManifest(old(State()), e, tag)
    {
      var up := Arrive();
      if !up {
        return Err(Transport);
      }
      tags := tags[tag := e];
      r := Ok(());
    }

    method Resolve(tag: string) returns (r: Result<Descriptor, Failure>)
      modifies this
      ensures (State(), r) == ResolveTag(old(State()), tag)
    {
      var up := Arrive();
      if !up {
        return Err(Transport);
      }
      r := if tag in tags then Ok(tags[tag].desc) else Err(NotFound);
    }

    method FetchReference(tag: string) returns (r: Result<Entry, Failure>)
      modifies this
      ensures (State(), r) == FetchManifest(old(State()), tag)
    {
      var up := Arrive();
      if !up {
        return Err(Transport);
      }
      r := if tag in tags then Ok(tags[tag]) else Err(NotFound);
    }
  }
}
