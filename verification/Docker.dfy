/** Reading a fetched image manifest (crates/proxy/src/docker.rs). */
module Docker {
  import opened Text

  const DOCKER_MANIFEST_V2 := "application/vnd.docker" + ".distribution.manifest.v2+json"
  const DOCKER_MANIFEST_LIST_V2 := "application/vnd.docker" + ".distribution.manifest.list.v2+json"
  const OCI_IMAGE_MANIFEST_V1 := "application/vnd.oci.image.manifest.v1+json"
  const OCI_IMAGE_INDEX_V1 := "application/vnd.oci.image.index.v1+json"

  datatype ManifestKind = Manifest | Index | Unknown

  /** The media type without parameters, blanks or case. */
  function ManifestKindOf(contentType: Option<string>): ManifestKind {
    if contentType.None? then Unknown
    else
      var media := Lower(Trim(contentType.value[..Find(contentType.value, ';')]));
      if media == DOCKER_MANIFEST_V2 || media == OCI_IMAGE_MANIFEST_V1 then Manifest
      else if media == DOCKER_MANIFEST_LIST_V2 || media == OCI_IMAGE_INDEX_V1 then Index
      else Unknown
  }

  // ---- What the content type says ----

  /** `media` is the text up to the first `;`, or all of it. */
  predicate IsMediaPart(text: string, media: string) {
    media <= text && ';' !in media && (|media| == |text| || text[|media|] == ';')
  }

  /** The content type names this media type, with any case, surrounding blanks and parameters. */
  ghost predicate Names(contentType: Option<string>, name: string) {
    contentType.Some? && exists media, x ::
      IsMediaPart(contentType.value, media) && TrimsTo(media, x) && SameIgnoringCase(x, name)
  }

  /** A concrete image manifest. */
  ghost predicate ImageType(contentType: Option<string>) {
    || Names(contentType, "application/vnd.docker" + ".distribution.manifest.v2+json")
    || Names(contentType, "application/vnd.oci.image.manifest.v1+json")
  }

  /** A list of manifests. */
  ghost predicate IndexType(contentType: Option<string>) {
    || Names(contentType, "application/vnd.docker" + ".distribution.manifest.list.v2+json")
    || Names(contentType, "application/vnd.oci.image.index.v1+json")
  }

  predicate NoCapitals(s: string) {
    forall i :: 0 <= i < |s| ==> !('A' <= s[i] <= 'Z')
  }

  lemma LowerOfNoCapitals(s: string)
    requires NoCapitals(s)
    ensures Lower(s) == s
  {
  }

  lemma NoCapitalsConcat(a: string, b: string)
    requires NoCapitals(a) && NoCapitals(b)
    ensures NoCapitals(a + b)
  {
  }

  lemma DockerManifestLower()
    ensures NoCapitals("application/vnd.docker" + ".distribution.manifest.v2+json")
  {
    NoCapitalsConcat("application/vnd.docker", ".distribution.manifest.v2+json");
  }

  lemma DockerListLower()
    ensures NoCapitals("application/vnd.docker" + ".distribution.manifest.list.v2+json")
  {
    NoCapitalsConcat("application/vnd.docker", ".distribution.manifest.list.v2+json");
  }

  lemma OciManifestLower()
    ensures NoCapitals("application/vnd.oci.image.manifest.v1+json")
  {
  }

  lemma OciIndexLower()
    ensures NoCapitals("application/vnd.oci.image.index.v1+json")
  {
  }

  lemma NamesMeaning(text: string, name: string)
    requires NoCapitals(name)
    ensures Names(Some(text), name) <==> Lower(Trim(text[..Find(text, ';')])) == name
  {
    var media := text[..Find(text, ';')];
    assert IsMediaPart(text, media);
    assert forall m :: IsMediaPart(text, m) ==> m == media by {
      forall m | IsMediaPart(text, m)
        ensures m == media
      {
        FindUnique(text, ';', |m|);
      }
    }
    TrimMeaning(media);
    LowerOfNoCapitals(name);
    FoldingMeaning(Trim(media), name);
  }

  /** Which content types are what, in the words of the registry protocols. */
  lemma KindMeaning(contentType: Option<string>)
    ensures ManifestKindOf(contentType).Manifest? <==> ImageType(contentType)
    ensures ManifestKindOf(contentType).Index? <==> IndexType(contentType)
    ensures !(ImageType(contentType) && IndexType(contentType))
  {
    hide NoCapitals, Lower, Trim, IsMediaPart, TrimsTo, SameIgnoringCase;
    DockerManifestLower();
    DockerListLower();
    OciManifestLower();
    OciIndexLower();
    if contentType.Some? {
      NamesMeaning(contentType.value, "application/vnd.docker" + ".distribution.manifest.v2+json");
      NamesMeaning(contentType.value, "application/vnd.oci.image.manifest.v1+json");
      NamesMeaning(contentType.value, "application/vnd.docker" + ".distribution.manifest.list.v2+json");
      NamesMeaning(contentType.value, "application/vnd.oci.image.index.v1+json");
    }
  }

  // ---- Digests ----

  /** `algorithm:digest`, neither part empty, split at the first colon. */
  predicate IsDigestReference(value: string) {
    var colon := Find(value, ':');
    0 < colon < |value| && colon + 1 < |value|
  }

  ghost predicate IsDigest(value: string) {
    exists algorithm, digest ::
      algorithm != [] && ':' !in algorithm && digest != [] && value == algorithm + [':'] + digest
  }

  lemma DigestMeaning(value: string)
    ensures IsDigestReference(value) <==> IsDigest(value)
  {
    var colon := Find(value, ':');
    if IsDigestReference(value) {
      assert value == value[..colon] + [':'] + value[colon + 1..];
    }
    if algorithm, digest :|
      algorithm != [] && ':' !in algorithm && digest != [] && value == algorithm + [':'] + digest
    {
      FindAfter(algorithm, ':', digest);
    }
  }

  /** The digest header when it is one, otherwise the requested reference when it is one. */
  function ManifestDigest(header: Option<string>, reference: string): (r: Option<string>)
    ensures r.Some? ==> IsDigestReference(r.value) && (r.value == reference || header.Some?)
    ensures header.Some? && IsDigestReference(Trim(header.value)) ==> r == Some(Trim(header.value))
    ensures r.None? <==> !IsDigestReference(reference) && (header.None? || !IsDigestReference(Trim(header.value)))
  {
    if header.Some? && IsDigestReference(Trim(header.value)) then Some(Trim(header.value))
    else if IsDigestReference(reference) then Some(reference)
    else None
  }

  /** The digest is the header's, or the reference's if the header gives none; or there is none. */
  lemma ManifestDigestMeaning(header: Option<string>, reference: string, digest: Option<string>)
    ensures ManifestDigest(header, reference) == digest <==>
            if header.Some? && IsDigest(Trim(header.value)) then digest == Some(Trim(header.value))
            else if IsDigest(reference) then digest == Some(reference)
            else digest == None
  {
    DigestMeaning(reference);
    if header.Some? {
      DigestMeaning(Trim(header.value));
    }
  }
}
