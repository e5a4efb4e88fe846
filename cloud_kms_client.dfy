/** The Cloud KMS client: its argument checks, the ENABLED filter and sort keys
    of its list calls, and the reading of a key's algorithm name such as
    `RSA_SIGN_PKCS1_4096_SHA512` into a purpose and a digest algorithm.

    Each list call receives the wrapper's answer as `fetched` (None for a null
    list); `asymmetricSign` receives the wrapper's key-version lookup as a
    function from the version's resource name to its algorithm.
 */
module CloudKMSClient {
  import opened Wrappers
  import opened JavaStrings
  import opened StreamSort
  import opened ClientUtil
  import opened ResourceNames
  import W = CloudKMSWrapper

  // ---------------------------------------------------------------------------
  // Algorithm names

  /** Between 3 and 5 tokens, as the algorithm names of Cloud KMS have. */
  predicate HasTokenCount(tokens: seq<string>) {
    3 <= |tokens| <= 5
  }

  /** The purpose named by the '_'-separated tokens of `algorithm`. */
  function PurposeOfTokens(tokens: seq<string>, algorithm: string): (r: Result<string>)
    ensures r.Ok? <==> HasTokenCount(tokens) && (tokens[1] == "SIGN" || tokens[1] == "DECRYPT")
    ensures r.Ok? ==> r.value == tokens[1]
    ensures !HasTokenCount(tokens) ==> r == Err(IllegalArgument("Invalid key algorithm provided: " + algorithm))
    ensures HasTokenCount(tokens) && (tokens[1] == "KEY" || tokens[1] == "SYMMETRIC")
      ==> r == Err(IllegalArgument("Key with unspecified purpose provided: " + algorithm))
    ensures r.Err? ==> r.error.IllegalArgument?
  {
    if |tokens| < 3 || |tokens| > 5 then Err(IllegalArgument("Invalid key algorithm provided: " + algorithm))
    else if tokens[1] == "SIGN" || tokens[1] == "DECRYPT" then Ok(tokens[1])
    else if tokens[1] == "KEY" || tokens[1] == "SYMMETRIC" then
      Err(IllegalArgument("Key with unspecified purpose provided: " + algorithm))
    else Err(IllegalArgument("Invalid key algorithm provided: " + algorithm))
  }

  /** `parseKeyPurpose`: the purpose is the second '_'-separated token of the
      algorithm name, accepted only when there are 3 to 5 tokens and it is
      SIGN or DECRYPT. */
  function ParseKeyPurpose(algorithm: string): (r: Result<string>)
    ensures var tokens := Split(algorithm, '_');
      && (r.Ok? <==> HasTokenCount(tokens) && (tokens[1] == "SIGN" || tokens[1] == "DECRYPT"))
      && (r.Ok? ==> r.value == tokens[1])
    ensures r.Err? ==> r.error.IllegalArgument?
  {
    PurposeOfTokens(Split(algorithm, '_'), algorithm)
  }

  predicate IsShaToken(token: string) {
    token == "SHA256" || token == "SHA384" || token == "SHA512"
  }

  /** The digest named by the last token of `algorithm`, in the form
      `MessageDigest.getInstance` takes: "SHA-" and the token's digits. */
  function DigestOfTokens(tokens: seq<string>, algorithm: string): (r: Result<string>)
    ensures r.Ok? <==> HasTokenCount(tokens) && IsShaToken(tokens[|tokens| - 1])
    ensures r.Ok? ==> W.IsShaName(r.value)
    ensures r.Ok? ==> r.value[..4] == "SHA-" && r.value[4..] == tokens[|tokens| - 1][3..]
    ensures !HasTokenCount(tokens) ==> r == Err(IllegalArgument(""))
    ensures HasTokenCount(tokens) && (tokens[|tokens| - 1] == "ENCRYPTION" || tokens[|tokens| - 1] == "UNSPECIFIED")
      ==> r == Err(IllegalArgument("Key with unspecified digest algorithm provided: " + algorithm))
    ensures r.Err? ==> r.error.IllegalArgument?
  {
    if |tokens| < 3 || |tokens| > 5 then Err(IllegalArgument(""))
    else
      var digestAlgorithm := tokens[|tokens| - 1];
      if IsShaToken(digestAlgorithm) then
        assert digestAlgorithm[3..] == "256" || digestAlgorithm[3..] == "384" || digestAlgorithm[3..] == "512";
        Ok("SHA-" + digestAlgorithm[3..])
      else if digestAlgorithm == "ENCRYPTION" || digestAlgorithm == "UNSPECIFIED" then
        Err(IllegalArgument("Key with unspecified digest algorithm provided: " + algorithm))
      else Err(IllegalArgument("Invalid key algorithm provided: " + algorithm))
  }

  /** `parseDigestAlgorithm`: the digest is named by the last '_'-separated
      token of the algorithm name, accepted only when there are 3 to 5 tokens
      and it is SHA256, SHA384 or SHA512. */
  function ParseDigestAlgorithm(algorithm: string): (r: Result<string>)
    ensures var tokens := Split(algorithm, '_');
      && (r.Ok? <==> HasTokenCount(tokens) && IsShaToken(tokens[|tokens| - 1]))
      && (r.Ok? ==> W.IsShaName(r.value) && r.value[4..] == tokens[|tokens| - 1][3..])
    ensures r.Err? ==> r.error.IllegalArgument?
  {
    DigestOfTokens(Split(algorithm, '_'), algorithm)
  }

  /** An algorithm name glued from tokens without '_' (the last one not empty)
      is read token by token. */
  lemma ParseAlgorithmOfTokens(tokens: seq<string>)
    requires tokens != [] && tokens[|tokens| - 1] != []
    requires forall i :: 0 <= i < |tokens| ==> '_' !in tokens[i]
    ensures ParseKeyPurpose(Join(tokens, "_")) == PurposeOfTokens(tokens, Join(tokens, "_"))
    ensures ParseDigestAlgorithm(Join(tokens, "_")) == DigestOfTokens(tokens, Join(tokens, "_"))
  {
    SplitOfJoin(tokens, '_');
  }

  /** A purpose is only ever "SIGN" or "DECRYPT", and a digest only one of
      the three SHA-2 names. */
  lemma ParsedValuesAreKnown(algorithm: string)
    ensures ParseKeyPurpose(algorithm).Ok? ==> ParseKeyPurpose(algorithm).value in ["SIGN", "DECRYPT"]
    ensures ParseDigestAlgorithm(algorithm).Ok? ==> W.IsShaName(ParseDigestAlgorithm(algorithm).value)
  {
  }

  lemma JoinOfFive(a: string, b: string, c: string, d: string, e: string, sep: string)
    ensures Join([a, b, c, d, e], sep) == a + sep + (b + sep + (c + sep + (d + sep + e)))
  {
    JoinCons(d, [e], sep);
    JoinCons(c, [d, e], sep);
    JoinCons(b, [c, d, e], sep);
    JoinCons(a, [b, c, d, e], sep);
    assert [a] + [b, c, d, e] == [a, b, c, d, e];
  }

  /** The algorithm of the client's test key, token by token. */
  lemma RsaSignAlgorithmTokens()
    ensures Join(["RSA", "SIGN", "PKCS1", "4096", "SHA512"], "_") == "RSA_SIGN_PKCS1_4096_SHA512"
  {
    JoinOfFive("RSA", "SIGN", "PKCS1", "4096", "SHA512", "_");
    RsaSignSuffix();
  }

  lemma RsaSignDigits()
    ensures "PKCS1" + "_" + ("4096" + "_" + "SHA512") == "PKCS1_4096_SHA512"
  {
    assert "4096" + "_" + "SHA512" == "4096_SHA512";
  }

  lemma RsaSignSuffix()
    ensures "SIGN" + "_" + ("PKCS1" + "_" + ("4096" + "_" + "SHA512")) == "SIGN_PKCS1_4096_SHA512"
  {
    RsaSignDigits();
  }

  lemma RsaSignAlgorithmSplits()
    ensures Split("RSA_SIGN_PKCS1_4096_SHA512", '_') == ["RSA", "SIGN", "PKCS1", "4096", "SHA512"]
  {
    var rsa := ["RSA", "SIGN", "PKCS1", "4096", "SHA512"];
    RsaSignAlgorithmTokens();
    assert '_' !in "RSA" && '_' !in "SIGN" && '_' !in "PKCS1" && '_' !in "4096" && '_' !in "SHA512";
    SplitOfJoin(rsa, '_');
  }

  lemma RsaSignTokensShape(rsa: seq<string>)
    requires rsa == ["RSA", "SIGN", "PKCS1", "4096", "SHA512"]
    ensures HasTokenCount(rsa) && rsa[1] == "SIGN" && rsa[|rsa| - 1] == "SHA512"
  {
  }

  /** Tokens naming a signing key with a SHA-512 digest. */
  lemma SignSha512Tokens(tokens: seq<string>, algorithm: string)
    requires HasTokenCount(tokens) && tokens[1] == "SIGN" && tokens[|tokens| - 1] == "SHA512"
    ensures PurposeOfTokens(tokens, algorithm) == Ok("SIGN")
    ensures DigestOfTokens(tokens, algorithm) == Ok("SHA-512")
  {
    assert "SHA512"[3..] == "512";
    assert "SHA-" + "512" == "SHA-512";
  }

  /** The client's test key signs with SHA-512. */
  lemma RsaSignAlgorithmExample()
    ensures ParseKeyPurpose("RSA_SIGN_PKCS1_4096_SHA512") == Ok("SIGN")
    ensures ParseDigestAlgorithm("RSA_SIGN_PKCS1_4096_SHA512") == Ok("SHA-512")
  {
    var rsa := ["RSA", "SIGN", "PKCS1", "4096", "SHA512"];
    RsaSignTokensShape(rsa);
    RsaSignAlgorithmSplits();
    SignSha512Tokens(rsa, "RSA_SIGN_PKCS1_4096_SHA512");
  }

  /** The algorithm of a symmetric key, token by token. */
  lemma SymmetricAlgorithmTokens()
    ensures Join(["GOOGLE", "SYMMETRIC", "ENCRYPTION"], "_") == "GOOGLE_SYMMETRIC_ENCRYPTION"
  {
    var sym := ["GOOGLE", "SYMMETRIC", "ENCRYPTION"];
    assert sym[1..] == ["SYMMETRIC", "ENCRYPTION"];
    assert Join(["SYMMETRIC", "ENCRYPTION"], "_") == "SYMMETRIC_ENCRYPTION";
  }

  lemma SymmetricAlgorithmSplits()
    ensures Split("GOOGLE_SYMMETRIC_ENCRYPTION", '_') == ["GOOGLE", "SYMMETRIC", "ENCRYPTION"]
  {
    var sym := ["GOOGLE", "SYMMETRIC", "ENCRYPTION"];
    SymmetricAlgorithmTokens();
    assert '_' !in "GOOGLE" && '_' !in "SYMMETRIC" && '_' !in "ENCRYPTION";
    SplitOfJoin(sym, '_');
  }

  lemma SymmetricTokensShape(sym: seq<string>)
    requires sym == ["GOOGLE", "SYMMETRIC", "ENCRYPTION"]
    ensures HasTokenCount(sym) && sym[1] == "SYMMETRIC" && sym[|sym| - 1] == "ENCRYPTION"
  {
  }

  /** A symmetric key has neither a purpose nor a digest to sign with. */
  lemma SymmetricAlgorithmExample()
    ensures ParseKeyPurpose("GOOGLE_SYMMETRIC_ENCRYPTION")
         == Err(IllegalArgument("Key with unspecified purpose provided: " + "GOOGLE_SYMMETRIC_ENCRYPTION"))
    ensures ParseDigestAlgorithm("GOOGLE_SYMMETRIC_ENCRYPTION")
         == Err(IllegalArgument("Key with unspecified digest algorithm provided: " + "GOOGLE_SYMMETRIC_ENCRYPTION"))
  {
    var sym := ["GOOGLE", "SYMMETRIC", "ENCRYPTION"];
    SymmetricTokensShape(sym);
    SymmetricAlgorithmSplits();
  }

  // ---------------------------------------------------------------------------
  // asymmetricSign

  const NoSuchAlgorithmMessage := "The digest algorithm was verified but still caught NoSuchAlgorithmException."

  /** The part of `asymmetricSign` after the argument checks: requires a SIGN
      key, and signs the payload's digest with the digest algorithm the key
      names, turning a `NoSuchAlgorithmException` into an `IllegalStateException`. */
  function SignWithAlgorithm(projectId: string, location: string, keyRing: string, cryptoKey: string,
                             version: string, payload: string, algorithm: string, known: string -> bool,
                             hash: (string, string) -> seq<bv8>): (r: Result<W.SignRequest>)
    ensures ParseKeyPurpose(algorithm).Err? ==> r == Err(ParseKeyPurpose(algorithm).error)
    ensures ParseKeyPurpose(algorithm).Ok? && ParseKeyPurpose(algorithm).value != "SIGN"
      ==> r == Err(IllegalArgument("Key specified should have purpose SIGN, instead was: "
                                   + ParseKeyPurpose(algorithm).value))
    ensures r.Ok? ==> ParseKeyPurpose(algorithm) == Ok("SIGN") && ParseDigestAlgorithm(algorithm).Ok?
    ensures ParseKeyPurpose(algorithm) == Ok("SIGN") && ParseDigestAlgorithm(algorithm).Err?
      ==> r == Err(ParseDigestAlgorithm(algorithm).error)
    ensures r.Ok? ==> r == W.AsymmetricSignRequest(projectId, location, keyRing, cryptoKey, version,
                                                   ParseDigestAlgorithm(algorithm).value, payload, known, hash)
    ensures r.Err? && r.error.IllegalState? ==> r.error == IllegalState(NoSuchAlgorithmMessage)
    ensures r.Err? && r.error.IllegalState? ==> !known(ParseDigestAlgorithm(algorithm).value)
  {
    var purpose :- ParseKeyPurpose(algorithm);
    if purpose != "SIGN" then
      Err(IllegalArgument("Key specified should have purpose SIGN, instead was: " + purpose))
    else
      var digestAlgorithm :- ParseDigestAlgorithm(algorithm);
      var request := W.AsymmetricSignRequest(projectId, location, keyRing, cryptoKey, version, digestAlgorithm,
                                             payload, known, hash);
      if request.Err? && request.error.NoSuchAlgorithm? then Err(IllegalState(NoSuchAlgorithmMessage))
      else request
  }

  /** The six arguments `asymmetricSign` checks are all non-empty. */
  predicate SignArgumentsPresent(projectId: Option<string>, location: Option<string>, keyRing: Option<string>,
                                 cryptoKey: Option<string>, version: Option<string>, payload: Option<string>) {
    && !IsNullOrEmpty(projectId) && !IsNullOrEmpty(location) && !IsNullOrEmpty(keyRing)
    && !IsNullOrEmpty(cryptoKey) && !IsNullOrEmpty(version) && !IsNullOrEmpty(payload)
  }

  /** `asymmetricSign`: checks every argument, then fetches the key version
      by its resource name and signs with it. `getAlgorithm(name)` is the
      algorithm of the version the wrapper returns for `name` (None for a
      null version or algorithm). */
  function AsymmetricSign(projectId: Option<string>, location: Option<string>, keyRing: Option<string>,
                          cryptoKey: Option<string>, version: Option<string>, payload: Option<string>,
                          getAlgorithm: string -> Option<string>, known: string -> bool,
                          hash: (string, string) -> seq<bv8>): (r: Result<W.SignRequest>)
    ensures !SignArgumentsPresent(projectId, location, keyRing, cryptoKey, version, payload)
      ==> r == Err(IllegalArgument(""))
    ensures SignArgumentsPresent(projectId, location, keyRing, cryptoKey, version, payload) ==>
      var algorithm := getAlgorithm(W.CryptoKeyVersionName(projectId.value, location.value, keyRing.value,
                                                           cryptoKey.value, version.value));
      && (algorithm.None? ==> r == Err(NullPointer))
      && (algorithm.Some? ==> r == SignWithAlgorithm(projectId.value, location.value, keyRing.value, cryptoKey.value,
                                                     version.value, payload.value, algorithm.value, known, hash))
  {
    if !SignArgumentsPresent(projectId, location, keyRing, cryptoKey, version, payload) then
      Err(IllegalArgument(""))
    else
      var algorithm := getAlgorithm(W.CryptoKeyVersionName(projectId.value, location.value, keyRing.value,
                                                           cryptoKey.value, version.value));
      if algorithm.None? then Err(NullPointer)
      else
        SignWithAlgorithm(projectId.value, location.value, keyRing.value, cryptoKey.value, version.value,
                          payload.value, algorithm.value, known, hash)
  }

  /** Where the runtime provides SHA-256, SHA-384 and SHA-512, signing succeeds
      exactly for a SIGN key with a SHA-2 digest, and the "verified but still
      caught" state is never reached. */
  lemma SignWithAlgorithmSucceeds(projectId: string, location: string, keyRing: string, cryptoKey: string,
                                  version: string, payload: string, algorithm: string, known: string -> bool,
                                  hash: (string, string) -> seq<bv8>)
    requires known("SHA-256") && known("SHA-384") && known("SHA-512")
    ensures var r := SignWithAlgorithm(projectId, location, keyRing, cryptoKey, version, payload, algorithm, known, hash);
      && (r.Ok? <==> ParseKeyPurpose(algorithm) == Ok("SIGN") && ParseDigestAlgorithm(algorithm).Ok?)
      && r != Err(IllegalState(NoSuchAlgorithmMessage))
  {
    var r := SignWithAlgorithm(projectId, location, keyRing, cryptoKey, version, payload, algorithm, known, hash);
    if ParseKeyPurpose(algorithm) == Ok("SIGN") && ParseDigestAlgorithm(algorithm).Ok? {
      var digestAlgorithm := ParseDigestAlgorithm(algorithm).value;
      ParsedValuesAreKnown(algorithm);
      assert known(digestAlgorithm);
      assert W.ToDigest(digestAlgorithm, payload, known, hash).Ok?;
      assert r.Ok?;
    }
  }

  /** A SIGN key with a SHA-512 digest signs the SHA-512 hash of the payload,
      addressed to the key version. */
  lemma SignWithSha512Key(projectId: string, location: string, keyRing: string, cryptoKey: string,
                          version: string, payload: string, algorithm: string, known: string -> bool,
                          hash: (string, string) -> seq<bv8>)
    requires ParseKeyPurpose(algorithm) == Ok("SIGN")
    requires ParseDigestAlgorithm(algorithm) == Ok("SHA-512")
    requires known("SHA-512")
    ensures SignWithAlgorithm(projectId, location, keyRing, cryptoKey, version, payload, algorithm, known, hash)
         == Ok(W.SignRequest(W.CryptoKeyVersionName(projectId, location, keyRing, cryptoKey, version),
                             W.Digest(None, None, Some(hash("SHA-512", payload)))))
  {
    assert SignWithAlgorithm(projectId, location, keyRing, cryptoKey, version, payload, algorithm, known, hash)
        == W.AsymmetricSignRequest(projectId, location, keyRing, cryptoKey, version, "SHA-512", payload, known, hash);
  }

  /** The client's test: an RSA signing key with SHA-512 signs the SHA-512
      digest of the payload, addressed to the key version. */
  lemma AsymmetricSignExample(projectId: string, location: string, keyRing: string, cryptoKey: string,
                              version: string, payload: string, known: string -> bool,
                              hash: (string, string) -> seq<bv8>)
    requires projectId != [] && location != [] && keyRing != [] && cryptoKey != [] && version != [] && payload != []
    requires known("SHA-512")
    ensures AsymmetricSign(Some(projectId), Some(location), Some(keyRing), Some(cryptoKey), Some(version),
                           Some(payload), _ => Some("RSA_SIGN_PKCS1_4096_SHA512"), known, hash)
         == Ok(W.SignRequest(W.CryptoKeyVersionName(projectId, location, keyRing, cryptoKey, version),
                             W.Digest(None, None, Some(hash("SHA-512", payload)))))
  {
    RsaSignAlgorithmExample();
    AsymmetricSignWithSha512Key(projectId, location, keyRing, cryptoKey, version, payload,
                                _ => Some("RSA_SIGN_PKCS1_4096_SHA512"), known, hash);
  }

  lemma AsymmetricSignWithSha512Key(projectId: string, location: string, keyRing: string, cryptoKey: string,
                                    version: string, payload: string, getAlgorithm: string -> Option<string>,
                                    known: string -> bool, hash: (string, string) -> seq<bv8>)
    requires projectId != [] && location != [] && keyRing != [] && cryptoKey != [] && version != [] && payload != []
    requires getAlgorithm(W.CryptoKeyVersionName(projectId, location, keyRing, cryptoKey, version)).Some?
    requires ParseKeyPurpose(getAlgorithm(W.CryptoKeyVersionName(projectId, location, keyRing, cryptoKey, version))
                             .value) == Ok("SIGN")
    requires ParseDigestAlgorithm(getAlgorithm(W.CryptoKeyVersionName(projectId, location, keyRing, cryptoKey, version))
                                  .value) == Ok("SHA-512")
    requires known("SHA-512")
    ensures AsymmetricSign(Some(projectId), Some(location), Some(keyRing), Some(cryptoKey), Some(version),
                           Some(payload), getAlgorithm, known, hash)
         == Ok(W.SignRequest(W.CryptoKeyVersionName(projectId, location, keyRing, cryptoKey, version),
                             W.Digest(None, None, Some(hash("SHA-512", payload)))))
  {
    var algorithm := getAlgorithm(W.CryptoKeyVersionName(projectId, location, keyRing, cryptoKey, version)).value;
    SignWithSha512Key(projectId, location, keyRing, cryptoKey, version, payload, algorithm, known, hash);
  }

  // ---------------------------------------------------------------------------
  // List calls

  /** A KMS `Location`: its resource name and its display name (possibly null). */
  datatype Location = Location(name: string, displayName: Option<string>)

  function NameOfLocation(l: Location): string { l.name }

  function DisplayNameOf(l: Location): Option<string> { l.displayName }

  /** `listLocations` as written: sorted by display name, which throws when
      two or more locations are listed and one has no display name. */
  function ListLocations(projectId: Option<string>, fetched: Option<seq<Location>>): (r: Result<seq<Location>>)
    ensures IsNullOrEmpty(projectId) <==> r == Err(IllegalArgument(""))
    ensures !IsNullOrEmpty(projectId) && fetched.Some? && |fetched.value| >= 2
            && !AllKeysPresent(fetched.value, DisplayNameOf)
      ==> r == Err(NullPointer)
    ensures r.Ok? <==> !IsNullOrEmpty(projectId)
                       && !(fetched.Some? && |fetched.value| >= 2 && !AllKeysPresent(fetched.value, DisplayNameOf))
    ensures r.Ok? ==> SortedBy(Comparing(KeyOrEmpty(DisplayNameOf)), r.value)
    ensures r.Ok? && fetched.Some? ==> multiset(r.value) == multiset(fetched.value)
    ensures r.Ok? && fetched.None? ==> r.value == []
  {
    if IsNullOrEmpty(projectId) then Err(IllegalArgument(""))
    else SortByNullableKey(fetched, DisplayNameOf)
  }

  /** The client's test locations carry names only. */
  function TestLocations(): seq<Location> {
    [Location("test-location", None), Location("other-location", None)]
  }

  /** On the client's test data the call as written throws instead of
      returning the locations sorted by name. */
  lemma ListLocationsThrowsOnTestData()
    ensures ListLocations(Some("test-project"), Some(TestLocations())) == Err(NullPointer)
  {
    assert TestLocations()[0].displayName.None?;
  }

  /** `listLocations` as documented: sorted by name. */
  function ListLocationsByName(projectId: Option<string>, fetched: Option<seq<Location>>): (r: Result<seq<Location>>)
    ensures r.Err? <==> IsNullOrEmpty(projectId)
    ensures r.Ok? ==> SortedBy(Comparing(NameOfLocation), r.value)
    ensures r.Ok? && fetched.Some? ==> multiset(r.value) == multiset(fetched.value)
    ensures r.Ok? && fetched.None? ==> r.value == []
  {
    assert AllPresent([projectId]) <==> !IsNullOrEmpty(projectId) by {
      assert [projectId][0] == projectId;
    }
    ListSortedByKey([projectId], fetched, NameOfLocation)
  }

  lemma TestLocationsSorted()
    ensures TotalPreorder(Comparing(NameOfLocation))
    ensures InsertionSort(TestLocations(), Comparing(NameOfLocation))
         == [Location("other-location", None), Location("test-location", None)]
  {
    var t, o := Location("test-location", None), Location("other-location", None);
    ComparingIsTotalPreorder(NameOfLocation);
    assert NameOfLocation(t) == "test-location" && NameOfLocation(o) == "other-location";
    assert "test-location"[0] == 't' && "other-location"[0] == 'o';
    FirstCharDecides("test-location", "other-location");
    SortTwo(t, o, Comparing(NameOfLocation));
  }

  /** The documented order gives the test's expected answer. */
  lemma ListLocationsByNameExample()
    ensures ListLocationsByName(Some("test-project"), Some(TestLocations()))
         == Ok([Location("other-location", None), Location("test-location", None)])
  {
    TestLocationsSorted();
    assert AllPresent([Some("test-project")]);
    assert ListLocationsByName(Some("test-project"), Some(TestLocations()))
        == Ok(SortResourceList(Some(TestLocations()), Comparing(NameOfLocation)));
  }

  /** A `KeyRing` and a `CryptoKey`: their resource names. */
  datatype KeyRing = KeyRing(name: string)
  datatype CryptoKey = CryptoKey(name: string)

  function NameOfKeyRing(k: KeyRing): string { k.name }
  function NameOfCryptoKey(k: CryptoKey): string { k.name }

  /** `listKeyRings`: project and location must be present and non-empty;
      the key rings come back sorted by name, a null answer as the empty list. */
  function ListKeyRings(projectId: Option<string>, location: Option<string>, fetched: Option<seq<KeyRing>>)
    : (r: Result<seq<KeyRing>>)
    ensures r.Err? <==> IsNullOrEmpty(projectId) || IsNullOrEmpty(location)
    ensures r.Err? ==> r.error == IllegalArgument("")
    ensures r.Ok? ==> SortedBy(Comparing(NameOfKeyRing), r.value)
    ensures r.Ok? && fetched.Some? ==> multiset(r.value) == multiset(fetched.value)
    ensures r.Ok? && fetched.None? ==> r.value == []
  {
    if IsNullOrEmpty(projectId) || IsNullOrEmpty(location) then Err(IllegalArgument(""))
    else
      ComparingIsTotalPreorder(NameOfKeyRing);
      Ok(SortResourceList(fetched, Comparing(NameOfKeyRing)))
  }

  /** `listCryptoKeys`: project, location and key ring must be present and
      non-empty; the keys come back sorted by name, a null answer as the empty
      list. */
  function ListCryptoKeys(projectId: Option<string>, location: Option<string>, keyRing: Option<string>,
                          fetched: Option<seq<CryptoKey>>)
    : (r: Result<seq<CryptoKey>>)
    ensures r.Err? <==> IsNullOrEmpty(projectId) || IsNullOrEmpty(location) || IsNullOrEmpty(keyRing)
    ensures r.Err? ==> r.error == IllegalArgument("")
    ensures r.Ok? ==> SortedBy(Comparing(NameOfCryptoKey), r.value)
    ensures r.Ok? && fetched.Some? ==> multiset(r.value) == multiset(fetched.value)
    ensures r.Ok? && fetched.None? ==> r.value == []
  {
    if IsNullOrEmpty(projectId) || IsNullOrEmpty(location) || IsNullOrEmpty(keyRing) then Err(IllegalArgument(""))
    else
      ComparingIsTotalPreorder(NameOfCryptoKey);
      Ok(SortResourceList(fetched, Comparing(NameOfCryptoKey)))
  }

  /** The test's key rings "test-key-ring" and "other-key-ring" sort with
      "other-key-ring" first. */
  lemma TestKeyRingsSorted()
    ensures TotalPreorder(Comparing(NameOfKeyRing))
    ensures InsertionSort([KeyRing("test-key-ring"), KeyRing("other-key-ring")], Comparing(NameOfKeyRing))
         == [KeyRing("other-key-ring"), KeyRing("test-key-ring")]
  {
    var t, o := KeyRing("test-key-ring"), KeyRing("other-key-ring");
    ComparingIsTotalPreorder(NameOfKeyRing);
    assert NameOfKeyRing(t) == "test-key-ring" && NameOfKeyRing(o) == "other-key-ring";
    assert "test-key-ring"[0] == 't' && "other-key-ring"[0] == 'o';
    FirstCharDecides("test-key-ring", "other-key-ring");
    SortTwo(t, o, Comparing(NameOfKeyRing));
  }

  /** Key rings come back in name order; a missing location is rejected. */
  lemma ListKeyRingsExample()
    ensures ListKeyRings(Some("test-project"), Some("test-location"), Some([KeyRing("test-key-ring"), KeyRing("other-key-ring")]))
         == Ok([KeyRing("other-key-ring"), KeyRing("test-key-ring")])
    ensures ListKeyRings(Some("test-project"), None, None) == Err(IllegalArgument(""))
  {
    TestKeyRingsSorted();
  }

  /** A `CryptoKeyVersion` as its list call sees it: its name and its state,
      possibly null. */
  datatype CryptoKeyVersion = CryptoKeyVersion(name: string, state: Option<string>)

  function NameOfVersion(v: CryptoKeyVersion): string { v.name }

  /** The filter of `listCryptoKeyVersions`: the state is exactly "ENABLED". */
  predicate IsEnabled(v: CryptoKeyVersion) {
    v.state == Some("ENABLED")
  }

  /** `listCryptoKeyVersions`: the enabled versions, sorted by name. */
  function ListCryptoKeyVersions(projectId: Option<string>, location: Option<string>, keyRing: Option<string>,
                                 cryptoKey: Option<string>, fetched: Option<seq<CryptoKeyVersion>>)
    : (r: Result<seq<CryptoKeyVersion>>)
    ensures r.Err? <==> !AllPresent([projectId, location, keyRing, cryptoKey])
    ensures r.Err? ==> r.error == IllegalArgument("")
    ensures r.Ok? ==> SortedBy(Comparing(NameOfVersion), r.value)
    ensures r.Ok? ==> forall i :: 0 <= i < |r.value| ==> r.value[i].state == Some("ENABLED")
    ensures r.Ok? && fetched.Some? ==> multiset(r.value) == multiset(Filter(fetched.value, IsEnabled))
    ensures r.Ok? && fetched.None? ==> r.value == []
  {
    if !AllPresent([projectId, location, keyRing, cryptoKey]) then Err(IllegalArgument(""))
    else
      ComparingIsTotalPreorder(NameOfVersion);
      Ok(ProcessResourceList(fetched, IsEnabled, Comparing(NameOfVersion)))
  }

  /** A disabled version is left out. */
  lemma ListCryptoKeyVersionsExample()
    ensures ListCryptoKeyVersions(Some("test-project"), Some("global"), Some("test-key-ring"), Some("test-crypto-key"),
              Some([CryptoKeyVersion("test-crypto-key-version", Some("ENABLED")),
                    CryptoKeyVersion("other-crypto-key-version", Some("DISABLED"))]))
         == Ok([CryptoKeyVersion("test-crypto-key-version", Some("ENABLED"))])
  {
    var e, d := CryptoKeyVersion("test-crypto-key-version", Some("ENABLED")),
                CryptoKeyVersion("other-crypto-key-version", Some("DISABLED"));
    assert !IsEnabled(d);
    assert [e, d][1..] == [d] && [d][1..] == [];
    assert Filter([e, d], IsEnabled) == [e];
    ComparingIsTotalPreorder(NameOfVersion);
    assert InsertionSort([e], Comparing(NameOfVersion)) == [e];
  }
}
