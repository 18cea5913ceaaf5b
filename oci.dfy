/**
 * The OCI image-spec values the lock protocol builds and stores: content digests,
 * descriptors and image manifests, together with the constants lockoci uses.
 *
 * Bytes are kept abstract. A manifest's bytes are its JSON encoding, which this model
 * represents by the manifest value itself (`Json`); a content blob is its raw bytes
 * (`Raw`). The SHA-256 digest is modelled as an ideal hash: the digest of a payload
 * holds the payload, so two payloads with equal digests are equal.
 */
module Oci {
  import opened Wrappers

  newtype byte = x: int | 0 <= x < 256

  /** `v1.MediaTypeImageManifest` of the OCI image-spec. */
  const MediaTypeImageManifest: string := "application/vnd.oci.image.manifest.v1+json"
  /** Media type of `v1.DescriptorEmptyJSON`, the empty configuration blob. */
  const MediaTypeEmptyJSON: string := "application/vnd.oci.empty.v1+json"
  /** Media type lockoci gives to the state blobs it publishes. */
  const StateFileMediaType: string := "application/vnd.opentofu.state.v1+json"
  /** The one annotation key that encodes the lock. */
  const AnnotationLockState: string := "org.opentofu.state.locked"

  /** Bytes as the registry stores them. */
  datatype Payload = Raw(bytes: seq<byte>) | Json(doc: Manifest)

  /** A content digest: an ideal, collision-free hash of the payload. */
  datatype Digest = Sha256(of: Payload)

  /** A content-addressed pointer to a blob or manifest (its byte size is not modelled). */
  datatype Descriptor = Descriptor(mediaType: string, digest: Digest)

  /**
   * An OCI image manifest. `annotations == None` is Go's nil map, which is different
   * from an allocated map that happens to be empty.
   */
  datatype Manifest = Manifest(
    schemaVersion: int,
    mediaType: string,
    config: Descriptor,
    layers: seq<Descriptor>,
    annotations: Option<map<string, string>>)

  /** The two bytes `{}`. */
  const EmptyJSONBytes: seq<byte> := [0x7B, 0x7D]

  /** `content.NewDescriptorFromBytes`: the descriptor of a payload under a media type. */
  function NewDescriptor(mediaType: string, p: Payload): (d: Descriptor)
    ensures d.mediaType == mediaType
    ensures d.digest.of == p  // equal digests mean equal payloads
  {
    Descriptor(mediaType, Sha256(p))
  }

  /** `v1.DescriptorEmptyJSON`: the empty JSON configuration `{}`. */
  function EmptyConfig(): (d: Descriptor)
    ensures d.mediaType == MediaTypeEmptyJSON
    ensures d.digest.of == Raw(EmptyJSONBytes)
  {
    NewDescriptor(MediaTypeEmptyJSON, Raw(EmptyJSONBytes))
  }

  /** `json.Marshal` of a manifest. It cannot fail for this value type. */
  function Marshal(m: Manifest): (p: Payload)
    ensures Unmarshal(p) == Ok(m)
  {
    Json(m)
  }

  /** `json.Unmarshal` into a manifest: fails on bytes that are not a manifest document. */
  function Unmarshal(p: Payload): (r: Result<Manifest, ()>)
    ensures r.Ok? ==> p == Json(r.value)
    ensures p.Raw? ==> r.Err?
  {
    match p
    case Json(m) => Ok(m)
    case Raw(_) => Err(())
  }

  /** Whatever decodes is re-encoded to the same payload: the other half of the round trip. */
  lemma UnmarshalMarshal(p: Payload)
    ensures Unmarshal(p).Ok? ==> Marshal(Unmarshal(p).value) == p
  {
  }

  /** Annotation lookup with Go's semantics: a nil map and a missing key both read as absent. */
  function Annotation(m: Manifest, key: string): Option<string>
  {
    if m.annotations.Some? && key in m.annotations.value then Some(m.annotations.value[key]) else None
  }
}
