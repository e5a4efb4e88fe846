/** The GKE client: argument checks in front of the wrapper, the sorted
    cluster listing over every location, and the splitting of a container
    image URI into the registry request for its digest.

    The wrapper's network calls are parameters: `get` answers a cluster's API
    name, `list` answers a location's API name (null for no clusters) and
    `fetch` answers a manifest URL with the digest header (null when absent).
 */
module ContainerClient {
  import opened Wrappers
  import opened JavaStrings
  import opened StreamSort
  import opened ClientUtil
  import W = ContainerWrapper

  /** The location that stands for every location of a project. */
  const LocationWildcard: string := "-"

  // ---------------------------------------------------------------------------
  // getCluster

  /** `getCluster`: the three names must be present and non-empty; the
      wrapper then asks for the cluster under its API name. */
  function GetCluster(projectId: Option<string>, location: Option<string>, cluster: Option<string>,
                      get: string -> W.Cluster): (r: Result<W.Cluster>)
    ensures r.Err? <==> IsNullOrEmpty(projectId) || IsNullOrEmpty(location) || IsNullOrEmpty(cluster)
    ensures r.Err? ==> r.error == IllegalArgument("")
    ensures r.Ok? ==> r.value == get(W.ApiName(projectId.value, location.value, cluster.value))
  {
    if IsNullOrEmpty(projectId) || IsNullOrEmpty(location) || IsNullOrEmpty(cluster) then Err(IllegalArgument(""))
    else Ok(get(W.ApiName(projectId.value, location.value, cluster.value)))
  }

  /** Ids free of '/' reach the wrapper as the path
      projects/{p}/locations/{l}/clusters/{c}, whose last segment is the
      cluster's name. */
  lemma GetClusterAddressesCluster(projectId: string, location: string, cluster: string, get: string -> W.Cluster)
    requires projectId != [] && location != [] && cluster != []
    requires '/' !in projectId && '/' !in location && '/' !in cluster
    ensures GetCluster(Some(projectId), Some(location), Some(cluster), get).Ok?
    ensures exists name ::
      && Split(name, '/') == ["projects", projectId, "locations", location, "clusters", cluster]
      && NameFromSelfLink(Some(name)) == Ok(cluster)
      && GetCluster(Some(projectId), Some(location), Some(cluster), get) == Ok(get(name))
  {
    var name := W.ApiName(projectId, location, cluster);
    W.ApiNameSplits(projectId, location, cluster);
    W.NameOfCluster(projectId, location, cluster);
    assert Split(name, '/') == ["projects", projectId, "locations", location, "clusters", cluster];
  }

  // ---------------------------------------------------------------------------
  // listAllClusters

  function ClusterNameOf(c: W.Cluster): Option<string> {
    c.name
  }

  /** `listAllClusters`: the project must be present and non-empty; the
      clusters of every location come back sorted by name, a null answer as
      the empty list. Sorting two or more clusters of which one has no name
      throws NullPointerException. */
  function ListAllClusters(projectId: Option<string>, list: string -> Option<seq<W.Cluster>>)
    : (r: Result<seq<W.Cluster>>)
    ensures IsNullOrEmpty(projectId) <==> r == Err(IllegalArgument(""))
    ensures r.Ok? <==>
      && !IsNullOrEmpty(projectId)
      && var fetched := list(W.ApiParent(projectId.value, LocationWildcard));
         !(fetched.Some? && |fetched.value| >= 2 && !AllKeysPresent(fetched.value, ClusterNameOf))
    ensures r.Ok? ==> var fetched := list(W.ApiParent(projectId.value, LocationWildcard));
      && SortedBy(Comparing(KeyOrEmpty(ClusterNameOf)), r.value)
      && (fetched.Some? ==> multiset(r.value) == multiset(fetched.value))
      && (fetched.None? ==> r.value == [])
    ensures r.Err? && r.error.NullPointer? ==>
      var fetched := list(W.ApiParent(projectId.value, LocationWildcard));
      fetched.Some? && |fetched.value| >= 2 && !AllKeysPresent(fetched.value, ClusterNameOf)
  {
    if IsNullOrEmpty(projectId) then Err(IllegalArgument(""))
    else SortByNullableKey(list(W.ApiParent(projectId.value, LocationWildcard)), ClusterNameOf)
  }

  function NamedCluster(name: string): W.Cluster {
    W.Cluster(Some(name), Some("us-west1-a"))
  }

  /** The client's test clusters "testCluster" and "otherCluster" sort as
      "otherCluster" first. */
  lemma TestClustersSorted()
    ensures TotalPreorder(Comparing(KeyOrEmpty(ClusterNameOf)))
    ensures InsertionSort([NamedCluster("testCluster"), NamedCluster("otherCluster")], Comparing(KeyOrEmpty(ClusterNameOf)))
         == [NamedCluster("otherCluster"), NamedCluster("testCluster")]
  {
    var t, o := NamedCluster("testCluster"), NamedCluster("otherCluster");
    var key := KeyOrEmpty(ClusterNameOf);
    assert key(t) == "testCluster" && key(o) == "otherCluster";
    assert "testCluster"[0] == 't' && "otherCluster"[0] == 'o';
    FirstCharDecides("testCluster", "otherCluster");
    ComparingIsTotalPreorder(key);
    SortTwo(t, o, Comparing(key));
  }

  /** The listing asks for the wildcard location, sorts the test clusters by
      name and turns a null answer into the empty list. */
  lemma ListAllClustersExample(projectId: string, list: string -> Option<seq<W.Cluster>>,
                               empty: string -> Option<seq<W.Cluster>>)
    requires projectId != []
    requires list(W.ApiParent(projectId, "-")) == Some([NamedCluster("testCluster"), NamedCluster("otherCluster")])
    requires empty(W.ApiParent(projectId, "-")) == None
    ensures ListAllClusters(Some(projectId), list) == Ok([NamedCluster("otherCluster"), NamedCluster("testCluster")])
    ensures ListAllClusters(Some(projectId), empty) == Ok([])
    ensures ListAllClusters(Some(""), list) == Err(IllegalArgument(""))
  {
    ListAllClustersSortsTestClusters(projectId, list);
  }

  /** Two named clusters listed out of name order come back swapped. */
  lemma ListAllClustersSortsTwo(projectId: string, list: string -> Option<seq<W.Cluster>>, t: W.Cluster, o: W.Cluster)
    requires projectId != []
    requires list(W.ApiParent(projectId, LocationWildcard)) == Some([t, o])
    requires t.name.Some? && o.name.Some? && !StringLeq(t.name.value, o.name.value)
    ensures ListAllClusters(Some(projectId), list) == Ok([o, t])
  {
    var key := KeyOrEmpty(ClusterNameOf);
    ComparingIsTotalPreorder(key);
    SortTwo(t, o, Comparing(key));
    assert AllKeysPresent([t, o], ClusterNameOf);
  }

  lemma ListAllClustersSortsTestClusters(projectId: string, list: string -> Option<seq<W.Cluster>>)
    requires projectId != []
    requires list(W.ApiParent(projectId, "-")) == Some([NamedCluster("testCluster"), NamedCluster("otherCluster")])
    ensures ListAllClusters(Some(projectId), list) == Ok([NamedCluster("otherCluster"), NamedCluster("testCluster")])
  {
    assert "testCluster"[0] == 't' && "otherCluster"[0] == 'o';
    FirstCharDecides("testCluster", "otherCluster");
    ListAllClustersSortsTwo(projectId, list, NamedCluster("testCluster"), NamedCluster("otherCluster"));
  }

  // ---------------------------------------------------------------------------
  // getDigest

  /** The arguments `getDigest` hands to the wrapper: registry host, project,
      the rest of the image path and the tag. */
  datatype DigestCall = DigestCall(domain: string, projectId: string, name: string, tag: string)

  /** The checks and the splitting of `getDigest`: the URI must be non-empty
      and `split("/")` must cut it into at least three parts (trailing empty
      parts dropped), the tag must be non-empty; the URI is then cut at its
      first two '/' only, so the image name keeps any further '/'. */
  function DigestArguments(resourceUri: Option<string>, tag: Option<string>): (r: Result<DigestCall>)
    ensures r.Err? <==> IsNullOrEmpty(resourceUri) || |Split(resourceUri.value, '/')| < 3 || IsNullOrEmpty(tag)
    ensures r.Err? ==> r.error == IllegalArgument("")
    ensures r.Ok? ==> var c := r.value;
      && c.domain + "/" + c.projectId + "/" + c.name == resourceUri.value
      && c.domain == Split(resourceUri.value, '/')[0]
      && c.projectId == Split(resourceUri.value, '/')[1]
      && '/' !in c.domain && '/' !in c.projectId
      && c.tag == tag.value
  {
    if IsNullOrEmpty(resourceUri) || |Split(resourceUri.value, '/')| < 3 || IsNullOrEmpty(tag) then
      Err(IllegalArgument(""))
    else
      var tokens := SplitLimit(resourceUri.value, '/', 3);
      SplitInThree(resourceUri.value, '/');
      assert Join(tokens, "/") == tokens[0] + "/" + tokens[1] + "/" + tokens[2] by {
        assert tokens == [tokens[0], tokens[1]] + [tokens[2]];
        assert [tokens[0], tokens[1]] == [tokens[0]] + [tokens[1]];
        JoinSnoc([tokens[0]], tokens[1], "/");
        JoinSnoc([tokens[0], tokens[1]], tokens[2], "/");
      }
      Ok(DigestCall(tokens[0], tokens[1], tokens[2], tag.value))
  }

  /** The image name handed to the wrapper is never empty: a URI ending in
      "{domain}/{project}/" splits into only two parts. */
  lemma DigestNameIsNotEmpty(resourceUri: Option<string>, tag: Option<string>)
    requires DigestArguments(resourceUri, tag).Ok?
    ensures DigestArguments(resourceUri, tag).value.name != []
  {
    var c := DigestArguments(resourceUri, tag).value;
    if c.name == [] {
      assert resourceUri.value == c.domain + "/" + c.projectId + "/";
      SplitOfTrailingSlash(c.domain, c.projectId);
      assert false;
    }
  }

  lemma SplitOfTrailingSlash(domain: string, projectId: string)
    requires '/' !in domain && '/' !in projectId
    ensures |Split(domain + "/" + projectId + "/", '/')| <= 2
  {
    var s := domain + "/" + projectId + "/";
    var ts := [domain, projectId, ""];
    assert Join(ts, "/") == s by {
      assert ts == [domain, projectId] + [""];
      assert [domain, projectId] == [domain] + [projectId];
      JoinSnoc([domain], projectId, "/");
      JoinSnoc([domain, projectId], "", "/");
    }
    assert forall i :: 0 <= i < |ts| ==> '/' !in ts[i];
    PiecesOfJoin(ts, '/');
    assert s[|domain|] == '/';
    var r := DropTrailingEmpty(ts);
    assert |r| <= 2;
  }

  /** `getDigest`: the digest header of the registry's answer for the
      manifest URL built from the split URI and the tag. */
  function GetDigest(resourceUri: Option<string>, tag: Option<string>, fetch: string -> Option<string>)
    : (r: Result<Option<string>>)
    ensures r.Err? <==> DigestArguments(resourceUri, tag).Err?
    ensures r.Err? ==> r.error == IllegalArgument("")
    ensures r.Ok? ==> var c := DigestArguments(resourceUri, tag).value;
      r.value == fetch(W.ManifestUrl(c.domain, c.projectId, c.name, c.tag))
  {
    var c :- DigestArguments(resourceUri, tag);
    Ok(fetch(W.ManifestUrl(c.domain, c.projectId, c.name, c.tag)))
  }

  /** The manifest URL is the image URI with "/v2" inserted after the
      registry host, followed by "/manifests/" and the tag. */
  lemma DigestUrlOfUri(resourceUri: string, tag: string)
    requires DigestArguments(Some(resourceUri), Some(tag)).Ok?
    ensures var c := DigestArguments(Some(resourceUri), Some(tag)).value;
      && 0 <= |c.domain| < |resourceUri|
      && W.ManifestUrl(c.domain, c.projectId, c.name, c.tag)
         == "https://" + c.domain + "/v2" + resourceUri[|c.domain|..] + "/manifests/" + tag
  {
    var c := DigestArguments(Some(resourceUri), Some(tag)).value;
    InsertAfterHost(c.domain, c.projectId, c.name, resourceUri, tag);
  }

  lemma InsertAfterHost(domain: string, projectId: string, name: string, uri: string, tag: string)
    requires uri == domain + "/" + projectId + "/" + name
    ensures 0 <= |domain| < |uri|
    ensures W.ManifestUrl(domain, projectId, name, tag)
         == "https://" + domain + "/v2" + uri[|domain|..] + "/manifests/" + tag
  {
    assert uri == domain + ("/" + projectId + "/" + name);
    assert uri[|domain|..] == "/" + projectId + "/" + name;
  }

  /** The documented image "gcr.io/example-project/example" with tag
      "latest" is looked up at
      https://gcr.io/v2/example-project/example/manifests/latest. */
  lemma GetDigestExample(fetch: string -> Option<string>)
    ensures GetDigest(Some("gcr.io" + "/" + "example-project" + "/" + "example"), Some("latest"), fetch)
         == Ok(fetch("https://" + "gcr.io" + "/v2/" + "example-project" + "/" + "example" + "/manifests/" + "latest"))
  {
    var uri := "gcr.io" + "/" + "example-project" + "/" + "example";
    var ts := ["gcr.io", "example-project", "example"];
    assert Join(ts, "/") == uri by {
      assert ts == ["gcr.io", "example-project"] + ["example"];
      assert ["gcr.io", "example-project"] == ["gcr.io"] + ["example-project"];
      JoinSnoc(["gcr.io"], "example-project", "/");
      JoinSnoc(["gcr.io", "example-project"], "example", "/");
    }
    assert '/' !in "gcr.io" && '/' !in "example-project" && '/' !in "example";
    SplitOfJoin(ts, '/');
    DigestPartsUnique("gcr.io", "example-project", "example", uri);
  }

  /** A URI of host and project free of '/' and a non-empty rest is cut into
      exactly those three. */
  lemma DigestPartsUnique(domain: string, projectId: string, name: string, uri: string)
    requires '/' !in domain && '/' !in projectId
    requires uri == domain + "/" + projectId + "/" + name
    requires |Split(uri, '/')| >= 3
    ensures DigestArguments(Some(uri), Some("latest")).Ok?
    ensures DigestArguments(Some(uri), Some("latest")).value == DigestCall(domain, projectId, name, "latest")
  {
    var c := DigestArguments(Some(uri), Some("latest")).value;
    CutAtFirstTwo(domain, projectId, name, c.domain, c.projectId, c.name);
  }

  /** Cutting at the first two '/' is unambiguous. */
  lemma CutAtFirstTwo(d: string, p: string, n: string, d': string, p': string, n': string)
    requires '/' !in d && '/' !in p && '/' !in d' && '/' !in p'
    requires d + "/" + p + "/" + n == d' + "/" + p' + "/" + n'
    ensures d == d' && p == p' && n == n'
  {
    assert d + "/" + p + "/" + n == d + "/" + (p + "/" + n);
    assert d' + "/" + p' + "/" + n' == d' + "/" + (p' + "/" + n');
    CutAtFirst(d, p + "/" + n, d', p' + "/" + n');
    CutAtFirst(p, n, p', n');
  }

  /** Cutting at the first '/' is unambiguous. */
  lemma CutAtFirst(a: string, b: string, a': string, b': string)
    requires '/' !in a && '/' !in a'
    requires a + "/" + b == a' + "/" + b'
    ensures a == a' && b == b'
  {
    var s := a + "/" + b;
    assert s == a + ['/'] + b && s == a' + ['/'] + b';
    IndexOfAfterFreePrefix(a, '/', b);
    IndexOfAfterFreePrefix(a', '/', b');
    assert a == s[..|a|] && a' == s[..|a'|];
    assert b == s[|a| + 1..] && b' == s[|a'| + 1..];
  }
}
