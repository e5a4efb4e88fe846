/** The resource names the Cloud KMS wrapper addresses and the digest it signs.

    Names follow the `projects/{p}/locations/{l}/keyRings/{k}/cryptoKeys/{c}/
    cryptoKeyVersions/{v}` hierarchy; each level extends its parent. The hash
    itself is a parameter: `known` says which algorithm names
    `MessageDigest.getInstance` accepts, and `hash` gives the bytes it computes.
 */
module CloudKMSWrapper {
  import opened Wrappers
  import opened JavaStrings
  import opened ClientUtil
  import opened ResourceNames

  /** `toLocationName`: "projects/{p}". */
  function LocationName(projectId: string): (r: string)
    ensures IsPathOf(r, ["projects", projectId])
  {
    ProjectNameIsPath(projectId);
    ProjectName(projectId)
  }

  /** `toKeyRingParent`: "projects/{p}/locations/{l}". */
  function KeyRingParent(projectId: string, location: string): (r: string)
    ensures IsPathOf(r, ["projects", projectId, "locations", location])
  {
    var above := ["projects", projectId];
    ChildIsPath(LocationName(projectId), above, "locations", location);
    assert above + ["locations", location] == ["projects", projectId, "locations", location];
    Child(LocationName(projectId), "locations", location)
  }

  /** `toCryptoKeyParent`: "projects/{p}/locations/{l}/keyRings/{k}". */
  function CryptoKeyParent(projectId: string, location: string, keyRing: string): (r: string)
    ensures IsPathOf(r, ["projects", projectId, "locations", location, "keyRings", keyRing])
  {
    var above := ["projects", projectId, "locations", location];
    ChildIsPath(KeyRingParent(projectId, location), above, "keyRings", keyRing);
    assert above + ["keyRings", keyRing] == ["projects", projectId, "locations", location, "keyRings", keyRing];
    Child(KeyRingParent(projectId, location), "keyRings", keyRing)
  }

  /** `toCryptoKeyVersionParent`: the key's name,
      "projects/{p}/locations/{l}/keyRings/{k}/cryptoKeys/{c}". */
  function CryptoKeyVersionParent(projectId: string, location: string, keyRing: string, cryptoKey: string): (r: string)
    ensures IsPathOf(r, ["projects", projectId, "locations", location, "keyRings", keyRing, "cryptoKeys", cryptoKey])
  {
    var above := ["projects", projectId, "locations", location, "keyRings", keyRing];
    ChildIsPath(CryptoKeyParent(projectId, location, keyRing), above, "cryptoKeys", cryptoKey);
    assert above + ["cryptoKeys", cryptoKey]
        == ["projects", projectId, "locations", location, "keyRings", keyRing, "cryptoKeys", cryptoKey];
    Child(CryptoKeyParent(projectId, location, keyRing), "cryptoKeys", cryptoKey)
  }

  /** `toCryptoKeyVersionName`: the version name spells out, between '/',
      every collection and id above it. */
  function CryptoKeyVersionName(projectId: string, location: string, keyRing: string, cryptoKey: string,
                                version: string): (r: string)
    ensures IsPathOf(r, VersionNameSegments(projectId, location, keyRing, cryptoKey, version))
  {
    var above := ["projects", projectId, "locations", location, "keyRings", keyRing, "cryptoKeys", cryptoKey];
    ChildIsPath(CryptoKeyVersionParent(projectId, location, keyRing, cryptoKey), above, "cryptoKeyVersions", version);
    assert above + ["cryptoKeyVersions", version] == VersionNameSegments(projectId, location, keyRing, cryptoKey, version);
    Child(CryptoKeyVersionParent(projectId, location, keyRing, cryptoKey), "cryptoKeyVersions", version)
  }

  /** The segments of a full version name. */
  function VersionNameSegments(projectId: string, location: string, keyRing: string, cryptoKey: string,
                               version: string): seq<string> {
    ["projects", projectId, "locations", location, "keyRings", keyRing, "cryptoKeys", cryptoKey,
     "cryptoKeyVersions", version]
  }

  /** With ids free of '/' and a non-empty version, splitting the name at '/'
      gives back the collections and the ids, so no two versions share a name. */
  lemma CryptoKeyVersionNameSplits(projectId: string, location: string, keyRing: string, cryptoKey: string,
                                   version: string)
    requires '/' !in projectId && '/' !in location && '/' !in keyRing && '/' !in cryptoKey && '/' !in version
    requires version != []
    ensures Split(CryptoKeyVersionName(projectId, location, keyRing, cryptoKey, version), '/')
         == VersionNameSegments(projectId, location, keyRing, cryptoKey, version)
  {
    var ts := VersionNameSegments(projectId, location, keyRing, cryptoKey, version);
    assert '/' !in "projects" && '/' !in "locations" && '/' !in "keyRings" && '/' !in "cryptoKeys"
      && '/' !in "cryptoKeyVersions";
    assert WellFormedSegments(ts);
    SplitPath(CryptoKeyVersionName(projectId, location, keyRing, cryptoKey, version), ts);
  }

  /** The last segment of a version name is the version id. */
  lemma NameOfCryptoKeyVersion(projectId: string, location: string, keyRing: string, cryptoKey: string,
                               version: string)
    requires '/' !in version
    ensures NameFromSelfLink(Some(CryptoKeyVersionName(projectId, location, keyRing, cryptoKey, version))) == Ok(version)
  {
    NameOfChild(CryptoKeyVersionParent(projectId, location, keyRing, cryptoKey), "cryptoKeyVersions", version);
  }

  /** The key-ring parent of the `projects/p/locations/l` form. */
  lemma KeyRingParentExample()
    ensures KeyRingParent("test-project", "global") == "projects/test-project/locations/global"
  {
  }

  /** A `Digest`: exactly one of its three hash fields is set. */
  datatype Digest = Digest(sha256: Option<seq<bv8>>, sha384: Option<seq<bv8>>, sha512: Option<seq<bv8>>)

  predicate IsShaName(algorithm: string) {
    algorithm == "SHA-256" || algorithm == "SHA-384" || algorithm == "SHA-512"
  }

  /** `toDigest`: hashes the payload with the named algorithm and stores the
      hash in the field of that algorithm. */
  function ToDigest(algorithm: string, payload: string, known: string -> bool,
                    hash: (string, string) -> seq<bv8>): (r: Result<Digest>)
    ensures !known(algorithm) ==> r == Err(NoSuchAlgorithm(algorithm))
    ensures known(algorithm) && !IsShaName(algorithm) ==>
      r == Err(IllegalArgument("algorithm should be one of SHA-256, SHA-384, or SHA-512 but was: " + algorithm))
    ensures r.Ok? <==> known(algorithm) && IsShaName(algorithm)
    ensures r.Ok? ==>
      && (r.value.sha256.Some? <==> algorithm == "SHA-256")
      && (r.value.sha384.Some? <==> algorithm == "SHA-384")
      && (r.value.sha512.Some? <==> algorithm == "SHA-512")
      && (r.value.sha256.Some? ==> r.value.sha256.value == hash(algorithm, payload))
      && (r.value.sha384.Some? ==> r.value.sha384.value == hash(algorithm, payload))
      && (r.value.sha512.Some? ==> r.value.sha512.value == hash(algorithm, payload))
  {
    if !known(algorithm) then Err(NoSuchAlgorithm(algorithm))
    else
      var digest := hash(algorithm, payload);
      if algorithm == "SHA-256" then Ok(Digest(Some(digest), None, None))
      else if algorithm == "SHA-384" then Ok(Digest(None, Some(digest), None))
      else if algorithm == "SHA-512" then Ok(Digest(None, None, Some(digest)))
      else Err(IllegalArgument("algorithm should be one of SHA-256, SHA-384, or SHA-512 but was: " + algorithm))
  }

  /** The request `asymmetricSign` sends: the version it addresses and the digest. */
  datatype SignRequest = SignRequest(name: string, digest: Digest)

  /** `asymmetricSign` of the wrapper. */
  function AsymmetricSignRequest(projectId: string, location: string, keyRing: string, cryptoKey: string,
                                 version: string, algorithm: string, payload: string,
                                 known: string -> bool, hash: (string, string) -> seq<bv8>): (r: Result<SignRequest>)
    ensures r.Ok? <==> ToDigest(algorithm, payload, known, hash).Ok?
    ensures r.Err? ==> r.error == ToDigest(algorithm, payload, known, hash).error
    ensures r.Ok? ==> r.value.name == CryptoKeyVersionName(projectId, location, keyRing, cryptoKey, version)
    ensures r.Ok? ==> Ok(r.value.digest) == ToDigest(algorithm, payload, known, hash)
  {
    var digest :- ToDigest(algorithm, payload, known, hash);
    Ok(SignRequest(CryptoKeyVersionName(projectId, location, keyRing, cryptoKey, version), digest))
  }
}
