# GCP plugin client core, in Dafny

A model of the deterministic core of the Google Cloud client library that
the Graphite Jenkins plugins share:

- the list helpers in `ClientUtil`. Both the `cloud.graphite` copy and the
  older `graphite` copy are covered. The helpers:
  - filter and sort API answers (`processResourceList`);
  - take a resource's name from its self link (`nameFromSelfLink`);
  - build the label and key/value filter strings (`buildLabelsFilterString`,
    `buildFilterString`);
  - take an instance's project, zone and name from its self link
    (`parseInstanceResourceData`);
- the argument checks, filters, sort orders and polling loops of the Compute,
  Cloud KMS, Container Analysis and GKE clients;
- the resource names, request builders and digests of the wrappers around
  Google's generated API clients.

The generated clients themselves are not modelled; each remote call is a
parameter:

- a list call is the answer it returns, a possibly-null list (`Option<seq<_>>`);
- a get call is a function from the resource name or id it is given to the resource
  it answers, so a contract can say which name was asked for;
- a loop that polls until a condition holds, or a timeout ends the wait, runs
  over a finite sequence of poll results. Running out of that sequence is the
  timeout.

Java `null` is `None` wherever the source checks for it. Thrown exceptions are
the `Err` side of a `Result` (`Wrappers.Exception`). `String.split`, `trim`,
`lastIndexOf` and `Comparator.comparing` are modelled with their Java edge
cases: trailing empty strings are dropped by `split`, a split limit is
honoured, and a null sort key throws. `Stream.sorted` is a stable insertion
sort. It is proved stable, and proved to be the only stable sort of its input.

Modules, one per source file:

- `JavaStrings`: the `java.lang.String` operations the code uses.
- `StreamSort`: `filter` and stable `sorted`.
- `ClientUtil`: `ClientUtil`.
- `ResourceNames`: the `projects/...` path shape shared by every builder.
- `ComputeClient`: `ComputeClient`.
- `CloudKMSWrapper` and `CloudKMSClient`: the Cloud KMS wrapper and client.
- `ContainerAnalysisWrapper` and `ContainerAnalysisClient`: the Container
  Analysis wrapper and client.
- `ContainerWrapper` and `ContainerClient`: the GKE and registry wrapper and
  client.
- `BinaryAuthorizationWrapper`: the Binary Authorization wrapper.

## Model

| member | source | states |
|---|---|---|
| JavaStrings.IndexOf | gcp-client/src/main/java/com/google/cloud/graphite/platforms/plugin/client/ContainerClient.java:93 | `indexOf`: -1 exactly when the character is absent, otherwise its first position |
| JavaStrings.LastIndexOf | gcp-client/src/main/java/com/google/cloud/graphite/platforms/plugin/client/util/ClientUtil.java:85 | `lastIndexOf`: -1 exactly when the character is absent, otherwise its last position |
| JavaStrings.JoinSnoc | gcp-client/src/main/java/com/google/cloud/graphite/platforms/plugin/client/util/ClientUtil.java:108-111 | joining one more part appends the separator and the part |
| JavaStrings.Pieces | gcp-client/src/main/java/com/google/cloud/graphite/platforms/plugin/client/CloudKMSClient.java:241 | the cut of a string at every separator: parts free of the separator that join back to the string |
| JavaStrings.DropTrailingEmpty | gcp-client/src/main/java/com/google/cloud/graphite/platforms/plugin/client/CloudKMSClient.java:241 | `split` drops trailing empty strings: the result is a prefix ending in a non-empty part, and only empty parts were dropped |
| JavaStrings.Split | gcp-client/src/main/java/com/google/cloud/graphite/platforms/plugin/client/CloudKMSClient.java:241 | `split(c)`: the whole string when c is absent; otherwise parts free of c, the last one non-empty |
| JavaStrings.Trim | gcp-client/src/main/java/com/google/cloud/graphite/platforms/plugin/client/util/ClientUtil.java:113 | `trim`: a substring of the input whose ends are kept characters; empty exactly when every character is at most U+0020 |
| JavaStrings.EqualsIgnoreCaseIsEquivalence | gcp-client/src/main/java/com/google/graphite/platforms/plugin/client/ComputeClient.java:125 | `equalsIgnoreCase` is reflexive, symmetric and transitive |
| JavaStrings.SplitLimit | gcp-client/src/main/java/com/google/cloud/graphite/platforms/plugin/client/ContainerClient.java:93 | `split(c, limit)`: between 1 and `limit` parts, all but the last free of the separator, joining back to the string |
| JavaStrings.SplitLimitPieces | gcp-client/src/main/java/com/google/cloud/graphite/platforms/plugin/client/ContainerClient.java:93 | a limited split cuts where the unlimited one does and yields `min(parts, limit)` parts |
| JavaStrings.SplitInThree | gcp-client/src/main/java/com/google/cloud/graphite/platforms/plugin/client/ContainerClient.java:90-93 | a string `split` cuts into three or more parts is cut into exactly three by `split(c, 3)`, with the same first two |
| JavaStrings.IndexOfAfterFreePrefix | gcp-client/src/main/java/com/google/cloud/graphite/platforms/plugin/client/ContainerClient.java:93 | the first separator follows a separator-free prefix |
| JavaStrings.PiecesOfJoin | gcp-client/src/main/java/com/google/cloud/graphite/platforms/plugin/client/CloudKMSClient.java:241 | cutting what was joined gives the parts back |
| JavaStrings.SplitOfJoin | gcp-client/src/main/java/com/google/cloud/graphite/platforms/plugin/client/CloudKMSClient.java:241 | `split` inverts the join of separator-free parts whose last part is non-empty |
| JavaStrings.TrimStart | gcp-client/src/main/java/com/google/cloud/graphite/platforms/plugin/client/util/ClientUtil.java:113 | strips exactly the leading characters `trim` removes (code points up to U+0020) |
| JavaStrings.TrimEnd | gcp-client/src/main/java/com/google/cloud/graphite/platforms/plugin/client/util/ClientUtil.java:100 | strips exactly the trailing characters `trim` removes |
| JavaStrings.TrimEndOfSpaced | gcp-client/src/main/java/com/google/cloud/graphite/platforms/plugin/client/util/ClientUtil.java:98-100 | trimming the trailing space after a clause that ends in a visible character removes just that space |
| JavaStrings.TrimStartOfAppend | gcp-client/src/main/java/com/google/cloud/graphite/platforms/plugin/client/util/ClientUtil.java:113 | leading trim of a string with a visible character is unaffected by what follows |
| JavaStrings.TrimOfSpaced | gcp-client/src/main/java/com/google/cloud/graphite/platforms/plugin/client/util/ClientUtil.java:113 | `trim` of a builder ending in one space is its leading trim |
| JavaStrings.StringLeqTotal | gcp-client/src/main/java/com/google/graphite/platforms/plugin/client/ComputeClient.java:161 | `String.compareTo` orders any two strings |
| JavaStrings.StringLeqTransitive | gcp-client/src/main/java/com/google/graphite/platforms/plugin/client/ComputeClient.java:161 | `String.compareTo` is transitive |
| JavaStrings.StringLeqAntisymmetric | gcp-client/src/main/java/com/google/graphite/platforms/plugin/client/ComputeClient.java:161 | `String.compareTo` is antisymmetric: mutual order means equality |
| JavaStrings.StringLeqCommonPrefix | gcp-client/src/main/java/com/google/cloud/graphite/platforms/plugin/client/ContainerAnalysisClient.java:109 | a common prefix does not change how two strings compare |
| StreamSort.Filter | gcp-client/src/main/java/com/google/cloud/graphite/platforms/plugin/client/util/ClientUtil.java:58 | `filter` keeps exactly the kept elements, in order |
| StreamSort.FilterMultiset | gcp-client/src/main/java/com/google/cloud/graphite/platforms/plugin/client/util/ClientUtil.java:58 | the filter keeps every kept copy and drops every other |
| StreamSort.FilterSnoc | gcp-client/src/main/java/com/google/cloud/graphite/platforms/plugin/client/util/ClientUtil.java:58 | filtering a list with one more element |
| StreamSort.FilterAppend | gcp-client/src/main/java/com/google/cloud/graphite/platforms/plugin/client/util/ClientUtil.java:58 | filtering distributes over concatenation |
| StreamSort.FilterIsSubsequence | gcp-client/src/main/java/com/google/cloud/graphite/platforms/plugin/client/util/ClientUtil.java:58 | the filtered list is a subsequence of the input |
| StreamSort.PermutationKeepsAll | gcp-client/src/main/java/com/google/cloud/graphite/platforms/plugin/client/util/ClientUtil.java:73 | a list with the same multiset filtered by always-true is unchanged |
| StreamSort.FilterKeepAll | gcp-client/src/main/java/com/google/cloud/graphite/platforms/plugin/client/util/ClientUtil.java:73 | filtering with the always-true predicate of the two-argument overload changes nothing |
| StreamSort.Insert | gcp-client/src/main/java/com/google/cloud/graphite/platforms/plugin/client/util/ClientUtil.java:58 | the result holds only the new element and the list's elements, and a list sorted under a comparator stays sorted |
| StreamSort.InsertPermutes | gcp-client/src/main/java/com/google/cloud/graphite/platforms/plugin/client/util/ClientUtil.java:58 | an insertion adds exactly one copy of the element and loses nothing |
| StreamSort.InsertionSort | gcp-client/src/main/java/com/google/cloud/graphite/platforms/plugin/client/util/ClientUtil.java:58 | the reference for `sorted`: ordered under any comparator |
| StreamSort.InsertionSortPermutes | gcp-client/src/main/java/com/google/cloud/graphite/platforms/plugin/client/util/ClientUtil.java:58 | the reference sort is a permutation of its input |
| StreamSort.InsertKeepsOrderWithin | gcp-client/src/main/java/com/google/cloud/graphite/platforms/plugin/client/util/ClientUtil.java:58 | inserting keeps, in order, the elements of a set that are all equivalent to each other, the new one in front |
| StreamSort.InsertKeepsClassOrder | gcp-client/src/main/java/com/google/cloud/graphite/platforms/plugin/client/util/ClientUtil.java:58 | an insertion keeps the order of elements that compare equal |
| StreamSort.InsertionSortIsStable | gcp-client/src/main/java/com/google/cloud/graphite/platforms/plugin/client/util/ClientUtil.java:58 | `sorted` is stable: elements that compare equal keep their input order |
| StreamSort.FilterHeadIn | gcp-client/src/main/java/com/google/cloud/graphite/platforms/plugin/client/util/ClientUtil.java:58 | a kept head is the first element of the filter |
| StreamSort.InFilterWhenKept | gcp-client/src/main/java/com/google/cloud/graphite/platforms/plugin/client/util/ClientUtil.java:58 | a kept element of the input is in the filter |
| StreamSort.InSourceWhenFiltered | gcp-client/src/main/java/com/google/cloud/graphite/platforms/plugin/client/util/ClientUtil.java:58 | an element of the filter is in the input |
| StreamSort.NonEmptyWithSameClasses | gcp-client/src/main/java/com/google/cloud/graphite/platforms/plugin/client/util/ClientUtil.java:58 | lists with the same equivalence classes are empty together |
| StreamSort.SortedSameClassesEqual | gcp-client/src/main/java/com/google/cloud/graphite/platforms/plugin/client/util/ClientUtil.java:58 | two sorted lists with the same classes in the same order are equal |
| StreamSort.StableSortIsUnique | gcp-client/src/main/java/com/google/cloud/graphite/platforms/plugin/client/util/ClientUtil.java:58 | any stable sort of the input is the reference sort |
| ClientUtil.ProcessResourceList | gcp-client/src/main/java/com/google/cloud/graphite/platforms/plugin/client/util/ClientUtil.java:52-59 | a null list gives []; otherwise the result is sorted, holds only kept elements, and is a permutation of the filtered input; the older `graphite` copy, lines 43-50 of its ClientUtil.java, does the same |
| ClientUtil.ProcessResourceListKeepsExactlyTheKept | gcp-client/src/main/java/com/google/cloud/graphite/platforms/plugin/client/util/ClientUtil.java:57-58 | every kept element appears as often as in the input, every other never |
| ClientUtil.ProcessResourceListIsStable | gcp-client/src/main/java/com/google/cloud/graphite/platforms/plugin/client/util/ClientUtil.java:57-58 | elements that compare equal keep their input order |
| ClientUtil.ProcessResourceListIsAnyStableSort | gcp-client/src/main/java/com/google/cloud/graphite/platforms/plugin/client/util/ClientUtil.java:57-58 | any sorted list with the filtered input's classes in order is the result |
| ClientUtil.SortResourceList | gcp-client/src/main/java/com/google/cloud/graphite/platforms/plugin/client/util/ClientUtil.java:71-74 | the comparator-only overload keeps every element and only sorts; null gives []; the older `graphite` copy, lines 62-65 of its ClientUtil.java, does the same |
| ClientUtil.StringOrderIsTotalPreorder | gcp-client/src/main/java/com/google/graphite/platforms/plugin/client/ComputeClient.java:161 | `String::compareTo` is a total preorder |
| ClientUtil.ComparingIsTotalPreorder | gcp-client/src/main/java/com/google/cloud/graphite/platforms/plugin/client/util/ClientUtil.java:71-74 | `Comparator.comparing` on a string key is a total preorder |
| ClientUtil.ListSortedByKey | gcp-client/src/main/java/com/google/cloud/graphite/platforms/plugin/client/CloudKMSClient.java:68-93 | argument checks then sort by a key: IAE iff an argument is null or empty; otherwise sorted, a permutation, [] for null |
| ClientUtil.KeyOrEmpty | gcp-client/src/main/java/com/google/cloud/graphite/platforms/plugin/client/CloudKMSClient.java:57 | reads a possibly-null key as itself where present |
| ClientUtil.SortByNullableKey | gcp-client/src/main/java/com/google/cloud/graphite/platforms/plugin/client/CloudKMSClient.java:56-57 | `Comparator.comparing` on a possibly-null key: NullPointerException iff two or more items and one key is null; otherwise the stable sort |
| ClientUtil.SortStringsExample | gcp-client/src/test/java/com/google/cloud/graphite/platforms/plugin/client/util/ClientUtilTest.java:54-60 | ["test","example","foo"] sorts to ["example","foo","test"] |
| ClientUtil.SortNullOrEmptyExample | gcp-client/src/test/java/com/google/cloud/graphite/platforms/plugin/client/util/ClientUtilTest.java:40-52 | null and [] both give [] |
| ClientUtil.FilterZonesExample | gcp-client/src/test/java/com/google/graphite/platforms/plugin/client/util/ClientUtilTest.java:59-71 | zones outside us-east2, sorted by name |
| ClientUtil.NameFromSelfLink | gcp-client/src/main/java/com/google/cloud/graphite/platforms/plugin/client/util/ClientUtil.java:83-86 | IAE iff null or empty; otherwise the suffix after the last '/' (the whole string without one), free of '/'; the older `graphite` copy, lines 74-77 of its ClientUtil.java, does the same |
| ClientUtil.NameFromSelfLinkOfPath | gcp-client/src/main/java/com/google/cloud/graphite/platforms/plugin/client/util/ClientUtil.java:85 | `parent + "/" + name` gives `name` when it has no '/' |
| ClientUtil.NameFromSelfLinkOfName | gcp-client/src/main/java/com/google/cloud/graphite/platforms/plugin/client/util/ClientUtil.java:85 | a bare name comes back unchanged |
| ClientUtil.NameFromSelfLinkIdempotent | gcp-client/src/main/java/com/google/cloud/graphite/platforms/plugin/client/util/ClientUtil.java:85 | applying it twice gives the same result |
| ClientUtil.NameFromSelfLinkExamples | gcp-client/src/test/java/com/google/cloud/graphite/platforms/plugin/client/util/ClientUtilTest.java:83-97 | a bare zone name is its own name; null and "" are rejected |
| ClientUtil.NameFromZoneSelfLinkExample | gcp-client/src/test/java/com/google/cloud/graphite/platforms/plugin/client/util/ClientUtilTest.java:77-81 | the zone self link of the tests gives "asia-east1-a" |
| ClientUtil.LabelsFilterSnoc | gcp-client/src/main/java/com/google/cloud/graphite/platforms/plugin/client/util/ClientUtil.java:97-99 | one more label appends a space and its `(labels.K eq V)` clause |
| ClientUtil.LabelsBuilderStep | gcp-client/src/main/java/com/google/cloud/graphite/platforms/plugin/client/util/ClientUtil.java:97-99 | each round leaves the builder holding the clauses so far, space-separated, plus one trailing space |
| ClientUtil.LabelsFilterBrackets | gcp-client/src/main/java/com/google/cloud/graphite/platforms/plugin/client/util/ClientUtil.java:95-101 | a non-empty label filter starts with '(' and ends with ')' |
| ClientUtil.BuildLabelsFilterString | gcp-client/src/main/java/com/google/cloud/graphite/platforms/plugin/client/util/ClientUtil.java:95-101 | the loop computes the clauses joined by single spaces, without trailing space; the older `graphite` copy, lines 86-92 of its ClientUtil.java, does the same |
| ClientUtil.LabelsFilterExample | gcp-client/src/test/java/com/google/cloud/graphite/platforms/plugin/client/util/ClientUtilTest.java:100-108 | two labels give "(labels.key1 eq value1) (labels.key2 eq value2)" |
| ClientUtil.FilterStringSnoc | gcp-client/src/main/java/com/google/cloud/graphite/platforms/plugin/client/util/ClientUtil.java:106-112 | one more filter appends " AND " and its `K="V"` clause |
| ClientUtil.FilterStringPrefix | gcp-client/src/main/java/com/google/cloud/graphite/platforms/plugin/client/util/ClientUtil.java:105-112 | after i entries the filter text is the text after i - 1 entries, " AND " and the i-th clause |
| ClientUtil.FilterStringOfTwo | gcp-client/src/main/java/com/google/cloud/graphite/platforms/plugin/client/util/ClientUtil.java:103-114 | two filters give their two clauses joined by " AND " |
| ClientUtil.FilterBuilderStep | gcp-client/src/main/java/com/google/cloud/graphite/platforms/plugin/client/util/ClientUtil.java:106-112 | each round leaves the builder holding the clauses so far joined by " AND ", then " AND " while entries remain, or one space after the last |
| ClientUtil.FilterStringEnds | gcp-client/src/main/java/com/google/cloud/graphite/platforms/plugin/client/util/ClientUtil.java:103-114 | a non-empty filter string starts with its first clause and ends with '"' |
| ClientUtil.TrimFilterString | gcp-client/src/main/java/com/google/cloud/graphite/platforms/plugin/client/util/ClientUtil.java:113 | trimming the builder only strips the trailing space and any leading blanks of the first key |
| ClientUtil.AppendFilterClause | gcp-client/src/main/java/com/google/cloud/graphite/platforms/plugin/client/util/ClientUtil.java:108 | the appended text is the clause and one space |
| ClientUtil.BuildFilterString | gcp-client/src/main/java/com/google/cloud/graphite/platforms/plugin/client/util/ClientUtil.java:103-114 | the loop computes the clauses joined by " AND " (leading blanks of the first key trimmed) |
| ClientUtil.FilterStringOfThree | gcp-client/src/main/java/com/google/cloud/graphite/platforms/plugin/client/util/ClientUtil.java:103-114 | three filters give three clauses joined by " AND " |
| ClientUtil.FilterStringExamples | gcp-client/src/test/java/com/google/cloud/graphite/platforms/plugin/client/util/ClientUtilTest.java:110-125 | no filter gives "", one filter gives its clause with no AND |
| ClientUtil.FilterStringOfTwoExample | gcp-client/src/test/java/com/google/cloud/graphite/platforms/plugin/client/util/ClientUtilTest.java:127-134 | two filters are joined by " AND " in insertion order |
| ClientUtil.RunLength | gcp-client/src/main/java/com/google/cloud/graphite/platforms/plugin/client/util/ClientUtil.java:37 | the longest run of a character class from a position |
| ClientUtil.RunLengthIs | gcp-client/src/main/java/com/google/cloud/graphite/platforms/plugin/client/util/ClientUtil.java:37 | a run bounded by a non-member has exactly that length |
| ClientUtil.FindFrom | gcp-client/src/main/java/com/google/cloud/graphite/platforms/plugin/client/util/ClientUtil.java:126 | `find`: the first position from the start where the pattern matches, and no match before it; none only when it matches nowhere |
| ClientUtil.ParseInstanceResourceData | gcp-client/src/main/java/com/google/cloud/graphite/platforms/plugin/client/util/ClientUtil.java:123-135 | IAE iff null or empty; empty only when the pattern matches nowhere; otherwise the groups of the leftmost match |
| ClientUtil.HeadAtLinkHead | gcp-client/src/main/java/com/google/cloud/graphite/platforms/plugin/client/util/ClientUtil.java:37 | the 47-character prefix matches the pattern's literal head, with any character at the unescaped dots |
| ClientUtil.GroupThen | gcp-client/src/main/java/com/google/cloud/graphite/platforms/plugin/client/util/ClientUtil.java:37 | a group run stops where the class does |
| ClientUtil.LiteralThen | gcp-client/src/main/java/com/google/cloud/graphite/platforms/plugin/client/util/ClientUtil.java:37 | a literal followed by text |
| ClientUtil.ParseInstanceSelfLink | gcp-client/src/main/java/com/google/cloud/graphite/platforms/plugin/client/util/ClientUtil.java:123-135 | an instance self link parses to its project, zone and name |
| ClientUtil.ParseInstanceResourceDataExample | gcp-client/src/test/java/com/google/cloud/graphite/platforms/plugin/client/util/ClientUtilTest.java:137-146 | the test link parses to test-project-1, test-zone-1, test-name |
| ClientUtil.ParseShortText | gcp-client/src/main/java/com/google/cloud/graphite/platforms/plugin/client/util/ClientUtil.java:126-128 | text shorter than any match gives empty |
| ClientUtil.ParseInvalidExample | gcp-client/src/test/java/com/google/cloud/graphite/platforms/plugin/client/util/ClientUtilTest.java:148-151 | "fizz-buzz" gives empty |
| ClientUtil.ParseNullOrEmpty | gcp-client/src/main/java/com/google/cloud/graphite/platforms/plugin/client/util/ClientUtil.java:124 | null and "" are rejected |
| ResourceNames.ProjectNameIsPath | gcp-client/src/main/java/com/google/cloud/graphite/platforms/plugin/client/CloudKMSWrapper.java:112-114 | "projects/{p}" is the join of its two segments |
| ResourceNames.ChildIsPath | gcp-client/src/main/java/com/google/cloud/graphite/platforms/plugin/client/CloudKMSWrapper.java:116-141 | each builder extends its parent by a collection and an id |
| ResourceNames.SplitPath | gcp-client/src/main/java/com/google/cloud/graphite/platforms/plugin/client/CloudKMSWrapper.java:132-141 | a name whose segments are free of '/' splits back into them |
| ResourceNames.PathIsInjective | gcp-client/src/main/java/com/google/cloud/graphite/platforms/plugin/client/CloudKMSWrapper.java:132-141 | a name has one well-formed segment list |
| ResourceNames.NameOfChild | gcp-client/src/main/java/com/google/cloud/graphite/platforms/plugin/client/CloudKMSWrapper.java:132-141 | the last segment of a child name is its id |
| CloudKMSWrapper.LocationName | gcp-client/src/main/java/com/google/cloud/graphite/platforms/plugin/client/CloudKMSWrapper.java:112-114 | `toLocationName` is the '/'-join of "projects" and the project id |
| CloudKMSWrapper.KeyRingParent | gcp-client/src/main/java/com/google/cloud/graphite/platforms/plugin/client/CloudKMSWrapper.java:116-118 | the key-ring parent is the '/'-join of projects, p, locations, l |
| CloudKMSWrapper.CryptoKeyParent | gcp-client/src/main/java/com/google/cloud/graphite/platforms/plugin/client/CloudKMSWrapper.java:120-123 | the key parent adds keyRings, k to the key-ring parent's segments |
| CloudKMSWrapper.CryptoKeyVersionParent | gcp-client/src/main/java/com/google/cloud/graphite/platforms/plugin/client/CloudKMSWrapper.java:125-130 | the version parent adds cryptoKeys, c |
| CloudKMSWrapper.CryptoKeyVersionName | gcp-client/src/main/java/com/google/cloud/graphite/platforms/plugin/client/CloudKMSWrapper.java:132-141 | the version name is the '/'-join of all ten segments, each level extending its parent |
| CloudKMSWrapper.CryptoKeyVersionNameSplits | gcp-client/src/main/java/com/google/cloud/graphite/platforms/plugin/client/CloudKMSWrapper.java:132-141 | the version name splits into its ten segments |
| CloudKMSWrapper.NameOfCryptoKeyVersion | gcp-client/src/main/java/com/google/cloud/graphite/platforms/plugin/client/CloudKMSWrapper.java:132-141 | the version name's last segment is the version id |
| CloudKMSWrapper.KeyRingParentExample | gcp-client/src/main/java/com/google/cloud/graphite/platforms/plugin/client/CloudKMSWrapper.java:116-118 | "projects/test-project/locations/global" |
| CloudKMSWrapper.ToDigest | gcp-client/src/main/java/com/google/cloud/graphite/platforms/plugin/client/CloudKMSWrapper.java:143-159 | NoSuchAlgorithm for an unknown algorithm; IAE for a known non-SHA name; otherwise exactly the matching field holds the hash |
| CloudKMSWrapper.AsymmetricSignRequest | gcp-client/src/main/java/com/google/cloud/graphite/platforms/plugin/client/CloudKMSWrapper.java:90-110 | the request addresses the version name and carries `toDigest`, failing exactly as it does |
| CloudKMSClient.PurposeOfTokens | gcp-client/src/main/java/com/google/cloud/graphite/platforms/plugin/client/CloudKMSClient.java:240-255 | SIGN or DECRYPT as the second of 3-5 tokens; the two IAE messages otherwise |
| CloudKMSClient.DigestOfTokens | gcp-client/src/main/java/com/google/cloud/graphite/platforms/plugin/client/CloudKMSClient.java:257-276 | "SHA-" + the digits for a last token SHA256/384/512; IAE otherwise |
| CloudKMSClient.ParseKeyPurpose | gcp-client/src/main/java/com/google/cloud/graphite/platforms/plugin/client/CloudKMSClient.java:240-255 | the purpose is the second token of the `split("_")` when there are 3-5 tokens and it is SIGN or DECRYPT; IAE otherwise |
| CloudKMSClient.ParseDigestAlgorithm | gcp-client/src/main/java/com/google/cloud/graphite/platforms/plugin/client/CloudKMSClient.java:257-276 | a SHA-2 name carrying the digits of the last token when there are 3-5 tokens and it is SHA256/384/512; IAE otherwise |
| CloudKMSClient.SignSha512Tokens | gcp-client/src/main/java/com/google/cloud/graphite/platforms/plugin/client/CloudKMSClient.java:240-276 | whatever the algorithm name, tokens with SIGN second and SHA512 last give purpose SIGN and digest SHA-512 |
| CloudKMSClient.ParseAlgorithmOfTokens | gcp-client/src/main/java/com/google/cloud/graphite/platforms/plugin/client/CloudKMSClient.java:240-276 | both parsers on a joined name read its tokens |
| CloudKMSClient.ParsedValuesAreKnown | gcp-client/src/main/java/com/google/cloud/graphite/platforms/plugin/client/CloudKMSClient.java:245-268 | a purpose is SIGN or DECRYPT; a digest is one of the three SHA names |
| CloudKMSClient.RsaSignAlgorithmTokens | gcp-client/src/test/java/com/google/cloud/graphite/platforms/plugin/client/CloudKMSClientTest.java:53 | the test algorithm is the join of its five tokens |
| CloudKMSClient.RsaSignAlgorithmSplits | gcp-client/src/main/java/com/google/cloud/graphite/platforms/plugin/client/CloudKMSClient.java:241 | RSA_SIGN_PKCS1_4096_SHA512 splits into five tokens |
| CloudKMSClient.RsaSignAlgorithmExample | gcp-client/src/test/java/com/google/cloud/graphite/platforms/plugin/client/CloudKMSClientTest.java:753-779 | the test key has purpose SIGN and digest SHA-512 |
| CloudKMSClient.SymmetricAlgorithmTokens | gcp-client/src/main/java/com/google/cloud/graphite/platforms/plugin/client/CloudKMSClient.java:241 | GOOGLE_SYMMETRIC_ENCRYPTION is the join of its three tokens |
| CloudKMSClient.SymmetricAlgorithmSplits | gcp-client/src/main/java/com/google/cloud/graphite/platforms/plugin/client/CloudKMSClient.java:241 | GOOGLE_SYMMETRIC_ENCRYPTION splits into three tokens |
| CloudKMSClient.SymmetricAlgorithmExample | gcp-client/src/main/java/com/google/cloud/graphite/platforms/plugin/client/CloudKMSClient.java:240-276 | a symmetric key fails both parses with the "unspecified purpose" and "unspecified digest algorithm" messages |
| CloudKMSClient.SignWithAlgorithm | gcp-client/src/main/java/com/google/cloud/graphite/platforms/plugin/client/CloudKMSClient.java:222-233 | parse errors propagate; a non-SIGN purpose gives the IAE message; success is the wrapper's request; IllegalState only for an unavailable digest |
| CloudKMSClient.AsymmetricSign | gcp-client/src/main/java/com/google/cloud/graphite/platforms/plugin/client/CloudKMSClient.java:207-234 | IAE before any call when an argument is null or empty; then the version is looked up by its full name: a null algorithm throws NPE, otherwise it signs with that algorithm |
| CloudKMSClient.SignWithAlgorithmSucceeds | gcp-client/src/main/java/com/google/cloud/graphite/platforms/plugin/client/CloudKMSClient.java:222-233 | with the SHA digests available, signing succeeds iff the key is SIGN with a SHA digest, and never throws IllegalState |
| CloudKMSClient.SignWithSha512Key | gcp-client/src/main/java/com/google/cloud/graphite/platforms/plugin/client/CloudKMSClient.java:222-233 | a SIGN/SHA-512 key signs the SHA-512 hash under the version name |
| CloudKMSClient.AsymmetricSignWithSha512Key | gcp-client/src/main/java/com/google/cloud/graphite/platforms/plugin/client/CloudKMSClient.java:207-233 | with every argument present, a key whose algorithm parses to SIGN/SHA-512 signs the SHA-512 hash under the version name |
| CloudKMSClient.AsymmetricSignExample | gcp-client/src/test/java/com/google/cloud/graphite/platforms/plugin/client/CloudKMSClientTest.java:753-779 | the test key signs the SHA-512 hash of the payload |
| CloudKMSClient.ListLocations | gcp-client/src/main/java/com/google/cloud/graphite/platforms/plugin/client/CloudKMSClient.java:54-58 | IAE iff no project; NPE when two or more locations include one without display name; succeeds exactly otherwise, sorted by display name, a permutation, [] for null |
| CloudKMSClient.ListLocationsThrowsOnTestData | gcp-client/src/test/java/com/google/cloud/graphite/platforms/plugin/client/CloudKMSClientTest.java:78-87 | on the test's name-only locations the code throws NullPointerException |
| CloudKMSClient.ListLocationsByName | gcp-client/src/main/java/com/google/cloud/graphite/platforms/plugin/client/CloudKMSClient.java:50-58 | sorted by name, as documented: IAE iff no project, sorted, a permutation |
| CloudKMSClient.TestLocationsSorted | gcp-client/src/test/java/com/google/cloud/graphite/platforms/plugin/client/CloudKMSClientTest.java:78-87 | the test locations sort by name as the test expects |
| CloudKMSClient.ListLocationsByNameExample | gcp-client/src/test/java/com/google/cloud/graphite/platforms/plugin/client/CloudKMSClientTest.java:78-87 | the documented order gives the test's expected list |
| CloudKMSClient.ListKeyRings | gcp-client/src/main/java/com/google/cloud/graphite/platforms/plugin/client/CloudKMSClient.java:68-75 | IAE iff project or location missing; sorted by name, a permutation, [] for null |
| CloudKMSClient.ListCryptoKeys | gcp-client/src/main/java/com/google/cloud/graphite/platforms/plugin/client/CloudKMSClient.java:85-93 | IAE iff project, location or key ring missing; sorted by name, a permutation, [] for null |
| CloudKMSClient.TestKeyRingsSorted | gcp-client/src/test/java/com/google/cloud/graphite/platforms/plugin/client/CloudKMSClientTest.java:126-136 | the test key rings sort with other-key-ring first |
| CloudKMSClient.ListKeyRingsExample | gcp-client/src/test/java/com/google/cloud/graphite/platforms/plugin/client/CloudKMSClientTest.java:126-136 | the test key rings come back sorted; a null location is rejected |
| CloudKMSClient.ListCryptoKeyVersions | gcp-client/src/main/java/com/google/cloud/graphite/platforms/plugin/client/CloudKMSClient.java:129-140 | IAE iff an id is missing; only versions whose state is exactly ENABLED, sorted by name, exactly the enabled ones |
| CloudKMSClient.ListCryptoKeyVersionsExample | gcp-client/src/test/java/com/google/cloud/graphite/platforms/plugin/client/CloudKMSClientTest.java:368-386 | a DISABLED version is left out |
| ComputeClient.MergeMetadataItems | gcp-client/src/main/java/com/google/graphite/platforms/plugin/client/ComputeClient.java:79-94 | the loop computes the winner items followed by the loser items whose key no winner has |
| ComputeClient.MergeKeepsWinnerFirst | gcp-client/src/main/java/com/google/graphite/platforms/plugin/client/ComputeClient.java:81-85 | the winner list is a prefix of the result; a null loser gives the winner list |
| ComputeClient.MergeKeepsLoserItemsWithNewKeys | gcp-client/src/main/java/com/google/graphite/platforms/plugin/client/ComputeClient.java:86-92 | a loser item follows the prefix iff no winner item has its key |
| ComputeClient.MergeKeepsLoserOrder | gcp-client/src/main/java/com/google/graphite/platforms/plugin/client/ComputeClient.java:86-92 | kept loser items keep their order |
| ComputeClient.MergeKeepsEveryKey | gcp-client/src/main/java/com/google/graphite/platforms/plugin/client/ComputeClient.java:85-92 | every key of either list is in the result, and no other |
| ComputeClient.MergeKeepsKeysUnique | gcp-client/src/main/java/com/google/graphite/platforms/plugin/client/ComputeClient.java:85-92 | lists with unique keys merge into a list with unique keys |
| ComputeClient.SubsequenceKeepsUniqueKeys | gcp-client/src/main/java/com/google/graphite/platforms/plugin/client/ComputeClient.java:86-92 | a subsequence of a list with unique keys has unique keys |
| ComputeClient.SubsequenceMembers | gcp-client/src/main/java/com/google/graphite/platforms/plugin/client/ComputeClient.java:86-92 | a subsequence only holds elements of its source |
| ComputeClient.MergeMetadataExample | gcp-client/src/test/java/com/google/graphite/platforms/plugin/client/ComputeClientTest.java:167-178 | one overlap out of two existing items leaves the size of the existing list |
| ComputeClient.IsDeprecatedCases | gcp-client/src/main/java/com/google/graphite/platforms/plugin/client/ComputeClient.java:713-715 | null is not deprecated; "DEPRECATED" in any case is; another state is not |
| ComputeClient.ListProjectResources | gcp-client/src/main/java/com/google/graphite/platforms/plugin/client/ComputeClient.java:103-109 | `listRegions`/`listImages`: IAE iff no project; the non-deprecated items, sorted by name |
| ComputeClient.ListZoneResources | gcp-client/src/main/java/com/google/graphite/platforms/plugin/client/ComputeClient.java:137-145 | `listMachineTypes`/`listDiskTypes`/`listAcceleratorTypes`: asked for the zone's name; the non-deprecated items, sorted |
| ComputeClient.ListZoneResourcesOfName | gcp-client/src/main/java/com/google/graphite/platforms/plugin/client/ComputeClient.java:137-145 | given a bare zone name, the list is fetched for exactly that zone, filtered and sorted |
| ComputeClient.ListBootDiskTypes | gcp-client/src/main/java/com/google/graphite/platforms/plugin/client/ComputeClient.java:191-200 | non-deprecated disk types whose name does not start with "local-", sorted by name |
| ComputeClient.ListZones | gcp-client/src/main/java/com/google/graphite/platforms/plugin/client/ComputeClient.java:119-127 | zones whose region equals the region link ignoring case, sorted by name |
| ComputeClient.ListSubnetworks | gcp-client/src/main/java/com/google/graphite/platforms/plugin/client/ComputeClient.java:272-282 | subnetworks whose network equals the link ignoring case, from the region's name, sorted |
| ComputeClient.ListCpuPlatforms | gcp-client/src/main/java/com/google/graphite/platforms/plugin/client/ComputeClient.java:155-162 | the zone's platforms in `String` order, a permutation |
| ComputeClient.TestMachineTypesFiltered | gcp-client/src/test/java/com/google/graphite/platforms/plugin/client/ComputeClientTest.java:116-129 | the deprecated test machine type is dropped |
| ComputeClient.TestMachineTypesSorted | gcp-client/src/test/java/com/google/graphite/platforms/plugin/client/ComputeClientTest.java:116-129 | the remaining test machine types sort a, b, z |
| ComputeClient.TestMachineTypesProcessed | gcp-client/src/test/java/com/google/graphite/platforms/plugin/client/ComputeClientTest.java:116-129 | processing the test list gives a, b, z |
| ComputeClient.ListMachineTypesExample | gcp-client/src/test/java/com/google/graphite/platforms/plugin/client/ComputeClientTest.java:116-129 | the call returns three machine types |
| ComputeClient.ListTestMachineTypes | gcp-client/src/test/java/com/google/graphite/platforms/plugin/client/ComputeClientTest.java:116-129 | the call returns a, b, z |
| ComputeClient.InsertInstance | gcp-client/src/main/java/com/google/graphite/platforms/plugin/client/ComputeClient.java:295-305 | IAE for no project or a missing zone link, NPE for no instance; the template insert iff the template link is present and non-empty; the zone is the name in the instance's zone link |
| ComputeClient.ConcatMembers | gcp-client/src/main/java/com/google/graphite/platforms/plugin/client/ComputeClient.java:389-393 | an instance is listed iff one non-null scoped list holds it |
| ComputeClient.ListInstancesWithLabel | gcp-client/src/main/java/com/google/graphite/platforms/plugin/client/ComputeClient.java:381-395 | IAE for no project, NPE for null labels; the loop concatenates the lists of the labels' filter query |
| ComputeClient.IsOperationDone | gcp-client/src/main/java/com/google/graphite/platforms/plugin/client/ComputeClient.java:706-711 | null is not done; done iff the status is "DONE" |
| ComputeClient.AwaitOperation | gcp-client/src/main/java/com/google/graphite/platforms/plugin/client/ComputeClient.java:659-684 | a success never carries an error |
| ComputeClient.AwaitEndsAtFirstDone | gcp-client/src/main/java/com/google/graphite/platforms/plugin/client/ComputeClient.java:660-684 | the wait ends at the first done poll: OperationException with its error, or success returning the holder with its error cleared |
| ComputeClient.AwaitEndsAtFirstBroken | gcp-client/src/main/java/com/google/graphite/platforms/plugin/client/ComputeClient.java:667-673 | a fetched operation without status before any done poll ends the wait with the NullPointerException `isOperationDone` throws |
| ComputeClient.AwaitTimesOut | gcp-client/src/main/java/com/google/graphite/platforms/plugin/client/ComputeClient.java:678-680 | without a done poll the wait ends with the timeout's InterruptedException |
| ComputeClient.AwaitSuccessHasCause | gcp-client/src/main/java/com/google/graphite/platforms/plugin/client/ComputeClient.java:660-684 | a success comes from a done poll without error |
| ComputeClient.AwaitSkipsFailedFetches | gcp-client/src/main/java/com/google/graphite/platforms/plugin/client/ComputeClient.java:672-675 | a failed fetch counts as not done |
| ComputeClient.WaitForOperationCompletion | gcp-client/src/main/java/com/google/graphite/platforms/plugin/client/ComputeClient.java:650-685 | IAE when an argument is missing or the timeout is not positive; otherwise the wait over the polls |
| ComputeClient.WaitForOperation | gcp-client/src/main/java/com/google/graphite/platforms/plugin/client/ComputeClient.java:632-638 | NPE for a null operation; otherwise waits on its name and zone |
| ComputeClient.AwaitReturnsBlankHolder | gcp-client/src/main/java/com/google/graphite/platforms/plugin/client/ComputeClient.java:659-684 | the wait returns the blank holder, not the operation polled to completion |
| ComputeClient.AwaitFinalOperation | gcp-client/src/main/java/com/google/graphite/platforms/plugin/client/ComputeClient.java:640-649 | the documented wait: a success is a done operation without error |
| ComputeClient.AwaitFinalOperationAgrees | gcp-client/src/main/java/com/google/graphite/platforms/plugin/client/ComputeClient.java:659-684 | the documented wait fails exactly when the written one does, and on success returns the first done operation |
| ContainerAnalysisWrapper.OccurrenceNameSplits | gcp-client/src/main/java/com/google/cloud/graphite/platforms/plugin/client/ContainerAnalysisWrapper.java:75-82 | an occurrence name splits into projects, p, occurrences, o |
| ContainerAnalysisWrapper.NameOfOccurrence | gcp-client/src/main/java/com/google/cloud/graphite/platforms/plugin/client/ContainerAnalysisWrapper.java:79-82 | `nameFromSelfLink` of an occurrence name is its id |
| ContainerAnalysisWrapper.OccurrenceNamesOrderByIds | gcp-client/src/main/java/com/google/cloud/graphite/platforms/plugin/client/ContainerAnalysisWrapper.java:79-82 | within a project, occurrence names order as their ids |
| ContainerAnalysisWrapper.OccurrenceParent | gcp-client/src/main/java/com/google/cloud/graphite/platforms/plugin/client/ContainerAnalysisWrapper.java:75-77 | the occurrence parent is the '/'-join of projects, p |
| ContainerAnalysisWrapper.OccurrenceName | gcp-client/src/main/java/com/google/cloud/graphite/platforms/plugin/client/ContainerAnalysisWrapper.java:80-82 | an occurrence name is the '/'-join of projects, p, occurrences, o |
| ContainerAnalysisWrapper.NoteName | gcp-client/src/main/java/com/google/cloud/graphite/platforms/plugin/client/ContainerAnalysisWrapper.java:84-86 | a note name is the '/'-join of projects, p, note, n |
| ContainerAnalysisWrapper.NoteNameSplits | gcp-client/src/main/java/com/google/cloud/graphite/platforms/plugin/client/ContainerAnalysisWrapper.java:84-86 | a note name splits into projects, p, note, n (singular "note") |
| ContainerAnalysisWrapper.ToAttestation | gcp-client/src/main/java/com/google/cloud/graphite/platforms/plugin/client/ContainerAnalysisWrapper.java:88-99 | an attestation with one signature from which the signature, key id and payload read back unchanged |
| ContainerAnalysisWrapper.ToAttestationOccurrence | gcp-client/src/main/java/com/google/cloud/graphite/platforms/plugin/client/ContainerAnalysisWrapper.java:88-114 | kind ATTESTATION, the resource URI, the note name, exactly one signature with the key id, and the payload |
| ContainerAnalysisWrapper.AttestationOccurrenceIsInjective | gcp-client/src/main/java/com/google/cloud/graphite/platforms/plugin/client/ContainerAnalysisWrapper.java:100-114 | different arguments build different occurrences |
| ContainerAnalysisClient.StatusOccurrenceFilterText | gcp-client/src/main/java/com/google/cloud/graphite/platforms/plugin/client/ContainerAnalysisClient.java:147-157 | resourceUrl, then noteProjectId "goog-analysis", then noteId "PACKAGE_VULNERABILITY", joined by AND |
| ContainerAnalysisClient.VulnerabilityFilterText | gcp-client/src/main/java/com/google/cloud/graphite/platforms/plugin/client/ContainerAnalysisClient.java:105-108 | resourceUrl, then kind "VULNERABILITY", joined by AND |
| ContainerAnalysisClient.ListVulnerabilityScanOccurrences | gcp-client/src/main/java/com/google/cloud/graphite/platforms/plugin/client/ContainerAnalysisClient.java:100-110 | IAE iff an id is missing; the listing of the vulnerability filter sorted by name, a permutation, [] for null; NPE only when a listed occurrence has no name |
| ContainerAnalysisClient.ListVulnerabilityScanOccurrencesExample | gcp-client/src/test/java/com/google/cloud/graphite/platforms/plugin/client/ContainerAnalysisClientTest.java:210-230 | two occurrences come back sorted by name |
| ContainerAnalysisClient.TestOccurrencesSorted | gcp-client/src/test/java/com/google/cloud/graphite/platforms/plugin/client/ContainerAnalysisClientTest.java:210-230 | the test occurrences sort other-occurrence first |
| ContainerAnalysisClient.CreateAttestation | gcp-client/src/main/java/com/google/cloud/graphite/platforms/plugin/client/ContainerAnalysisClient.java:125-142 | IAE iff one of the six checked arguments is missing; otherwise the attestation occurrence under the project |
| ContainerAnalysisClient.CreateAttestationAcceptsMissingKey | gcp-client/src/test/java/com/google/cloud/graphite/platforms/plugin/client/ContainerAnalysisClientTest.java:393-420 | a null or empty public key id is accepted |
| ContainerAnalysisClient.CreateAttestationChecked | gcp-client/src/test/java/com/google/cloud/graphite/platforms/plugin/client/ContainerAnalysisClientTest.java:393-420 | the checked variant rejects a missing key id and otherwise agrees |
| ContainerAnalysisClient.FirstDiscoveredIndex | gcp-client/src/main/java/com/google/cloud/graphite/platforms/plugin/client/ContainerAnalysisClient.java:162-166 | the first occurrence with a `discovered` field, -1 if none |
| ContainerAnalysisClient.StatusOccurrence | gcp-client/src/main/java/com/google/cloud/graphite/platforms/plugin/client/ContainerAnalysisClient.java:144-169 | a failed list gives empty; a null list throws NPE; otherwise the first discovered occurrence |
| ContainerAnalysisClient.GetStatusOccurrence | gcp-client/src/main/java/com/google/cloud/graphite/platforms/plugin/client/ContainerAnalysisClient.java:162-168 | the early-return loop computes the status occurrence |
| ContainerAnalysisClient.ScanStatus | gcp-client/src/main/java/com/google/cloud/graphite/platforms/plugin/client/ContainerAnalysisClient.java:171-188 | a failed get gives empty; a status in FINISHED_STATUSES is returned unchanged, any other gives empty |
| ContainerAnalysisClient.ScanStatusExamples | gcp-client/src/test/java/com/google/cloud/graphite/platforms/plugin/client/ContainerAnalysisClientTest.java:93-138 | the three finished statuses are returned; PENDING and SCANNING give empty |
| ContainerAnalysisClient.AwaitStatusOccurrence | gcp-client/src/main/java/com/google/cloud/graphite/platforms/plugin/client/ContainerAnalysisClient.java:76-80 | a result has a `discovered` field |
| ContainerAnalysisClient.AwaitScanStatus | gcp-client/src/main/java/com/google/cloud/graphite/platforms/plugin/client/ContainerAnalysisClient.java:82-88 | a result is a finished status |
| ContainerAnalysisClient.GetVulnerabilityScanStatusSync | gcp-client/src/main/java/com/google/cloud/graphite/platforms/plugin/client/ContainerAnalysisClient.java:69-89 | IAE for a missing id or a negative timeout (0 allowed); otherwise the first wait's exception, then the id lookup's, then the second wait's outcome for the found occurrence's id; a result is a finished status |
| ContainerAnalysisClient.AwaitStatusOccurrenceTimesOut | gcp-client/src/test/java/com/google/cloud/graphite/platforms/plugin/client/ContainerAnalysisClientTest.java:141-155 | without a discovered occurrence the wait times out |
| ContainerAnalysisClient.SyncTimesOutWithoutDiscovery | gcp-client/src/test/java/com/google/cloud/graphite/platforms/plugin/client/ContainerAnalysisClientTest.java:141-155 | so does the whole call |
| ContainerAnalysisClient.AwaitScanStatusTimesOut | gcp-client/src/test/java/com/google/cloud/graphite/platforms/plugin/client/ContainerAnalysisClientTest.java:157-175 | without a finished status the wait times out |
| ContainerAnalysisClient.AwaitStatusOccurrenceEndsAtFirst | gcp-client/src/main/java/com/google/cloud/graphite/platforms/plugin/client/ContainerAnalysisClient.java:76-80 | the first wait ends at the first poll that finds a discovered occurrence, returning it, or that throws |
| ContainerAnalysisClient.AwaitScanStatusEndsAtFirst | gcp-client/src/main/java/com/google/cloud/graphite/platforms/plugin/client/ContainerAnalysisClient.java:82-88 | the second wait ends at the first poll with a finished status, returning that status, or that throws |
| ContainerAnalysisClient.SyncReturnsFirstFinishedStatus | gcp-client/src/main/java/com/google/cloud/graphite/platforms/plugin/client/ContainerAnalysisClient.java:69-89 | with valid arguments, the occurrence found first and the first finished status of that occurrence's id, the call returns that status |
| ContainerAnalysisClient.TestStatusOccurrenceFound | gcp-client/src/test/java/com/google/cloud/graphite/platforms/plugin/client/ContainerAnalysisClientTest.java:93-115 | the test's PENDING occurrence is found at the first poll and its id is "test-occurrence" |
| ContainerAnalysisClient.TestScanFinishesThird | gcp-client/src/test/java/com/google/cloud/graphite/platforms/plugin/client/ContainerAnalysisClientTest.java:93-115 | the test's scan polls SCANNING twice, then FINISHED_SUCCESS |
| ContainerAnalysisClient.SyncExample | gcp-client/src/test/java/com/google/cloud/graphite/platforms/plugin/client/ContainerAnalysisClientTest.java:93-115 | the test polls end in FINISHED_SUCCESS |
| ContainerWrapper.ApiNameSplits | gcp-client/src/main/java/com/google/cloud/graphite/platforms/plugin/client/ContainerWrapper.java:76-79 | a cluster name splits into projects, p, locations, l, clusters, c |
| ContainerWrapper.ApiNameIsInjective | gcp-client/src/main/java/com/google/cloud/graphite/platforms/plugin/client/ContainerWrapper.java:76-83 | different clusters have different names |
| ContainerWrapper.NameOfCluster | gcp-client/src/main/java/com/google/cloud/graphite/platforms/plugin/client/ContainerWrapper.java:76-79 | the cluster name's last segment is the cluster |
| ContainerWrapper.ApiParent | gcp-client/src/main/java/com/google/cloud/graphite/platforms/plugin/client/ContainerWrapper.java:81-83 | the parent is the '/'-join of projects, p, locations, l |
| ContainerWrapper.ApiName | gcp-client/src/main/java/com/google/cloud/graphite/platforms/plugin/client/ContainerWrapper.java:76-79 | a cluster's name adds clusters, c to its parent's segments |
| ContainerWrapper.ManifestUrlHost | gcp-client/src/main/java/com/google/cloud/graphite/platforms/plugin/client/ContainerWrapper.java:32 | the host sits between "https://" and the next '/' |
| ContainerWrapper.ManifestUrlTag | gcp-client/src/main/java/com/google/cloud/graphite/platforms/plugin/client/ContainerWrapper.java:32 | the tag is the URL's last segment |
| ContainerWrapper.ManifestUrlIsInjective | gcp-client/src/main/java/com/google/cloud/graphite/platforms/plugin/client/ContainerWrapper.java:32 | different host, image path or tag give different URLs |
| ContainerClient.GetCluster | gcp-client/src/main/java/com/google/cloud/graphite/platforms/plugin/client/ContainerClient.java:56-62 | IAE iff project, location or cluster is missing; otherwise the cluster under its API name |
| ContainerClient.GetClusterAddressesCluster | gcp-client/src/main/java/com/google/cloud/graphite/platforms/plugin/client/ContainerWrapper.java:42-49 | the call addresses projects/p/locations/l/clusters/c |
| ContainerClient.ListAllClusters | gcp-client/src/main/java/com/google/cloud/graphite/platforms/plugin/client/ContainerClient.java:71-76 | IAE iff no project; asks the wildcard location "-"; succeeds exactly unless two or more clusters include one without a name; sorted by name, a permutation, [] for null |
| ContainerClient.TestClustersSorted | gcp-client/src/test/java/com/google/cloud/graphite/platforms/plugin/client/ContainerClientTest.java:127-137 | the test clusters sort otherCluster first |
| ContainerClient.ListAllClustersSortsTwo | gcp-client/src/main/java/com/google/cloud/graphite/platforms/plugin/client/ContainerClient.java:71-76 | two clusters fetched out of name order come back swapped |
| ContainerClient.ListAllClustersSortsTestClusters | gcp-client/src/test/java/com/google/cloud/graphite/platforms/plugin/client/ContainerClientTest.java:127-137 | the test's testCluster and otherCluster come back with otherCluster first |
| ContainerClient.ListAllClustersExample | gcp-client/src/test/java/com/google/cloud/graphite/platforms/plugin/client/ContainerClientTest.java:107-148 | sorted clusters, [] for null, IAE for "" |
| ContainerClient.DigestArguments | gcp-client/src/main/java/com/google/cloud/graphite/platforms/plugin/client/ContainerClient.java:89-95 | IAE iff the URI is empty or splits into fewer than 3 parts, or the tag is empty; otherwise host, project and the rest rejoin to the URI |
| ContainerClient.DigestNameIsNotEmpty | gcp-client/src/main/java/com/google/cloud/graphite/platforms/plugin/client/ContainerClient.java:90-93 | the image name handed on is never empty |
| ContainerClient.SplitOfTrailingSlash | gcp-client/src/main/java/com/google/cloud/graphite/platforms/plugin/client/ContainerClient.java:91 | "d/p/" splits into at most two parts |
| ContainerClient.GetDigest | gcp-client/src/main/java/com/google/cloud/graphite/platforms/plugin/client/ContainerClient.java:89-95 | the digest header for the manifest URL of the split URI and the tag |
| ContainerClient.DigestUrlOfUri | gcp-client/src/main/java/com/google/cloud/graphite/platforms/plugin/client/ContainerClient.java:93-94 | the URL is the URI with "/v2" after the host, then "/manifests/" and the tag |
| ContainerClient.InsertAfterHost | gcp-client/src/main/java/com/google/cloud/graphite/platforms/plugin/client/ContainerWrapper.java:32 | the manifest URL of a split URI |
| ContainerClient.GetDigestExample | gcp-client/src/main/java/com/google/cloud/graphite/platforms/plugin/client/ContainerClient.java:81-86 | gcr.io/example-project/example:latest is looked up at https://gcr.io/v2/example-project/example/manifests/latest |
| ContainerClient.DigestPartsUnique | gcp-client/src/main/java/com/google/cloud/graphite/platforms/plugin/client/ContainerClient.java:93 | a URI with host and project free of '/' is cut into exactly those |
| ContainerClient.CutAtFirstTwo | gcp-client/src/main/java/com/google/cloud/graphite/platforms/plugin/client/ContainerClient.java:93 | cutting at the first two '/' is unambiguous |
| ContainerClient.CutAtFirst | gcp-client/src/main/java/com/google/cloud/graphite/platforms/plugin/client/ContainerClient.java:93 | cutting at the first '/' is unambiguous |
| BinaryAuthorizationWrapper.AttestorNameSplits | gcp-client/src/main/java/com/google/cloud/graphite/platforms/plugin/client/BinaryAuthorizationWrapper.java:48-54 | parent and attestor names split into their segments |
| BinaryAuthorizationWrapper.GetAttestorAddressesChildOfList | gcp-client/src/main/java/com/google/cloud/graphite/platforms/plugin/client/BinaryAuthorizationWrapper.java:31-54 | getAttestor addresses a child of the parent listAttestors addresses, whose last segment is the attestor |
| BinaryAuthorizationWrapper.AttestorNameIsInjective | gcp-client/src/main/java/com/google/cloud/graphite/platforms/plugin/client/BinaryAuthorizationWrapper.java:52-54 | different attestors have different names |
| BinaryAuthorizationWrapper.AttestorParent | gcp-client/src/main/java/com/google/cloud/graphite/platforms/plugin/client/BinaryAuthorizationWrapper.java:48-50 | the attestor parent is the '/'-join of projects, p |
| BinaryAuthorizationWrapper.AttestorName | gcp-client/src/main/java/com/google/cloud/graphite/platforms/plugin/client/BinaryAuthorizationWrapper.java:52-54 | an attestor name is the '/'-join of projects, p, attestors, a |

## Left out

- Network I/O is left out: the generated API clients, `ClientFactory`,
  credentials, transports, the `.execute()` chains and `IOException`. Each call
  is a parameter; a failing call is a poll or list answer marked as failed.
- Time is left out: the Awaitility waits, poll intervals, sleeps and the real
  timeout are not modelled. A wait runs over a finite sequence of poll results
  and times out when the sequence ends, so the time left and the `Duration`
  arithmetic are not modelled.
- `createSnapshotSync` (older `graphite` ComputeClient.java:487-509) is not
  part of this model: it snapshots an instance's disks in a parallel stream,
  and concurrency is out of scope. The Container Analysis wait is sequential
  and is modelled as written: two waits, one after the other, each over its
  own sequence of answers.
- Logging is left out.
- `MessageDigest` hashing is a parameter `hash`. Whether an algorithm is
  available is a parameter `known`. Base64 and the protobuf `ByteString`
  conversions are not modelled.
- `getDigest` is modelled only as the URL it builds and hands on. The HTTP
  request, its `Accept` header and reading the `Docker-Content-Digest` header
  are a parameter `fetch`.
- `equalsIgnoreCase` folds ASCII letters only. `compareTo` compares Dafny
  characters, not UTF-16 code units; the two differ only outside the Basic
  Multilingual Plane.
- The metadata items of `mergeMetadataItems` are modelled as a sequence of
  key/value pairs. Only keys and order matter there.
- `ClientUtil.ParseInstanceResourceData`: the regular expression is modelled
  by its structure: the literal head, the three character classes and the
  groups. Java's general regex engine is not modelled.
- Only the fields the code reads are kept for the API objects (instances,
  operations, occurrences, clusters, locations, keys and versions). The Grafeas
  `discovered.discovered` nesting is collapsed to one level.
- `CloudKMSClient.ListKeyRings`, `CloudKMSClient.ListCryptoKeys`,
  `CloudKMSClient.ListCryptoKeyVersions`: key ring, key and version names are
  non-null strings. A listed item with a null name is not modelled.
- `BinaryAuthorizationWrapper.ListAttestors` and
  `BinaryAuthorizationWrapper.GetAttestor` have no ensures of their own. They
  only forward to the API. What they address is stated by
  `GetAttestorAddressesChildOfList`.
- The `BinaryAuthorizationClient` and the older `graphite` `ContainerClient`
  are not part of this model.
- `ComputeClient.ListSubnetworks`: a listed subnetwork with a null network
  would throw a NullPointerException. That case is not modelled; the network
  is read as a present string. A zone with a null region is modelled: it is
  not matched.
- `ComputeClient.ListProjectResources`, `ComputeClient.ListZoneResources`,
  `ComputeClient.ListBootDiskTypes`, `ComputeClient.ListZones` and
  `ComputeClient.ListSubnetworks`: a resource's name is a present string. A listed resource with a null
  `getName()` would make `Comparator.comparing` throw NullPointerException
  (ComputeClient.java:103-200); that case is not modelled.
- `ComputeClient.IsDeprecated`: a `DeprecationStatus` whose state is null would
  throw NullPointerException at `equalsIgnoreCase` (ComputeClient.java:714).
  The state is modelled as a present string.
- `ComputeClient.AwaitOperation`: a successful fetch always yields an
  operation. A null operation from `getZoneOperation` would throw
  NullPointerException at `op.getError()` (ComputeClient.java:671) before
  `isOperationDone` sees it; that case is not modelled.
- `ComputeClient.ListCpuPlatforms`: the zone is always found. A null zone
  from `getZone` would throw NullPointerException (ComputeClient.java:160);
  only a null platform list is modelled.
- `ContainerAnalysisClient.GetVulnerabilityScanStatusSync`: the occurrence id
  is read from the found occurrence's name once, before the second wait. The
  source reads it inside every poll of that wait; the result is the same
  except when the second wait gets no poll at all. The time left for the second
  wait is not computed (see the line on time above).
- Null elements inside a listed collection are not modelled: every list is a
  sequence of present items. In the source a null element would throw, for
  example in `ImmutableList.copyOf` or at `o.getDiscovered()`
  (ContainerAnalysisClient.java:163).
- The test examples are stated over the tests' own literal ids. Where a
  literal made the solver slow, the example is stated over symbolic ids with
  the same shape.

## Findings

| source | as written | input that shows it | evidently intended | confidence | as-written member | corrected member |
|---|---|---|---|---|---|---|
| gcp-client/src/main/java/com/google/cloud/graphite/platforms/plugin/client/CloudKMSClient.java:54-58 | `listLocations` sorts by `getDisplayName` | locations that have names but no display names, as in the client's tests: sorting two of them throws NullPointerException | sorted by name, as the method's documentation and the test's expectation say | not executed | CloudKMSClient.ListLocationsThrowsOnTestData | CloudKMSClient.ListLocationsByName |
| gcp-client/src/main/java/com/google/cloud/graphite/platforms/plugin/client/ContainerAnalysisClient.java:134-139 | `createAttestation` checks six arguments but not `publicKeyId` | `publicKeyId` null or "" with every other argument present: an attestation is created | the client's tests expect IllegalArgumentException for a missing key id | not executed | ContainerAnalysisClient.CreateAttestationAcceptsMissingKey | ContainerAnalysisClient.CreateAttestationChecked |
| gcp-client/src/main/java/com/google/graphite/platforms/plugin/client/ComputeClient.java:659-684 | `waitForOperationCompletion` returns the holder it only copies errors into | one poll of a DONE operation without error: the blank holder comes back | the operation in its final state, as the method's documentation says | not executed | ComputeClient.AwaitReturnsBlankHolder | ComputeClient.AwaitFinalOperation |
