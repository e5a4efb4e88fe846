/** The names and the manifest URL the GKE wrapper builds: clusters live under
    `projects/{p}/locations/{l}`, and a container image's manifest is fetched
    from its registry's v2 API.
 */
module ContainerWrapper {
  import opened Wrappers
  import opened JavaStrings
  import opened ClientUtil
  import opened ResourceNames

  /** A GKE cluster, as far as the client reads it: its name (possibly null)
      and its location. */
  datatype Cluster = Cluster(name: Option<string>, location: Option<string>)

  /** `toApiParent`: "projects/{p}/locations/{l}". */
  function ApiParent(projectId: string, location: string): (r: string)
    ensures IsPathOf(r, ["projects", projectId, "locations", location])
  {
    ProjectNameIsPath(projectId);
    ChildIsPath(ProjectName(projectId), ["projects", projectId], "locations", location);
    assert ["projects", projectId] + ["locations", location] == ["projects", projectId, "locations", location];
    Child(ProjectName(projectId), "locations", location)
  }

  /** `toApiName`: "projects/{p}/locations/{l}/clusters/{c}". */
  function ApiName(projectId: string, location: string, clusterName: string): (r: string)
    ensures IsPathOf(r, ["projects", projectId, "locations", location, "clusters", clusterName])
  {
    ChildIsPath(ApiParent(projectId, location), ["projects", projectId, "locations", location], "clusters", clusterName);
    assert ["projects", projectId, "locations", location] + ["clusters", clusterName]
        == ["projects", projectId, "locations", location, "clusters", clusterName];
    Child(ApiParent(projectId, location), "clusters", clusterName)
  }

  /** With ids free of '/' and a non-empty cluster name, a cluster's name
      splits back into its collections and ids. */
  lemma ApiNameSplits(projectId: string, location: string, clusterName: string)
    requires '/' !in projectId && '/' !in location && '/' !in clusterName && clusterName != []
    ensures Split(ApiName(projectId, location, clusterName), '/')
         == ["projects", projectId, "locations", location, "clusters", clusterName]
  {
    var segments := ["projects", projectId, "locations", location, "clusters", clusterName];
    assert '/' !in "projects" && '/' !in "locations" && '/' !in "clusters";
    assert forall i :: 0 <= i < |segments| ==> '/' !in segments[i];
    SplitPath(ApiName(projectId, location, clusterName), segments);
  }

  /** Different clusters (ids free of '/', non-empty names) have different
      API names. */
  lemma ApiNameIsInjective(p: string, l: string, c: string, p': string, l': string, c': string)
    requires '/' !in p && '/' !in l && '/' !in c && c != []
    requires '/' !in p' && '/' !in l' && '/' !in c' && c' != []
    requires ApiName(p, l, c) == ApiName(p', l', c')
    ensures p == p' && l == l' && c == c'
  {
    ApiNameSplits(p, l, c);
    ApiNameSplits(p', l', c');
    var s, s' := ["projects", p, "locations", l, "clusters", c], ["projects", p', "locations", l', "clusters", c'];
    assert s == s';
    assert s[1] == s'[1] && s[3] == s'[3] && s[5] == s'[5];
  }

  /** The last segment of a cluster's API name is the cluster's name. */
  lemma NameOfCluster(projectId: string, location: string, clusterName: string)
    requires '/' !in clusterName
    ensures NameFromSelfLink(Some(ApiName(projectId, location, clusterName))) == Ok(clusterName)
  {
    NameOfChild(ApiParent(projectId, location), "clusters", clusterName);
  }

  /** The `GET_RESOURCE_URL` format: "https://{domain}/v2/{project}/{name}/manifests/{tag}". */
  function ManifestUrl(domain: string, projectId: string, name: string, tag: string): string {
    "https://" + domain + "/v2/" + projectId + "/" + name + "/manifests/" + tag
  }

  /** The registry host is the URL's text between "https://" and the next
      '/'. */
  lemma ManifestUrlHost(domain: string, projectId: string, name: string, tag: string)
    requires '/' !in domain
    ensures var url := ManifestUrl(domain, projectId, name, tag);
      && StartsWith(url, "https://")
      && IndexOf(url[8..], '/') == |domain|
      && url[8..][..|domain|] == domain
  {
    var url := ManifestUrl(domain, projectId, name, tag);
    var rest := "v2/" + projectId + "/" + name + "/manifests/" + tag;
    assert url == "https://" + (domain + ['/'] + rest) by {
      assert "/v2/" == ['/'] + "v2/";
    }
    assert url[8..] == domain + ['/'] + rest;
    IndexOfAfterFreePrefix(domain, '/', rest);
  }

  /** A non-empty tag free of '/' is the URL's last segment. */
  lemma ManifestUrlTag(domain: string, projectId: string, name: string, tag: string)
    requires '/' !in tag && tag != []
    ensures NameFromSelfLink(Some(ManifestUrl(domain, projectId, name, tag))) == Ok(tag)
  {
    var front := "https://" + domain + "/v2/" + projectId + "/" + name + "/manifests";
    assert ManifestUrl(domain, projectId, name, tag) == front + "/" + tag by {
      assert "/manifests/" == "/manifests" + "/";
    }
    NameFromSelfLinkOfPath(front, tag);
  }

  /** The image path sits between the host part and the manifest part. */
  lemma ManifestUrlAroundPath(domain: string, projectId: string, name: string, tag: string)
    ensures ManifestUrl(domain, projectId, name, tag)
         == ("https://" + domain + "/v2/") + (projectId + "/" + name) + ("/manifests/" + tag)
  {
  }

  /** Two requests for tags free of '/' at hosts free of '/' go to the same URL
      only if they name the same host, image path and tag. */
  lemma ManifestUrlIsInjective(domain: string, projectId: string, name: string, tag: string,
                               domain': string, projectId': string, name': string, tag': string)
    requires '/' !in domain && '/' !in tag && tag != []
    requires '/' !in domain' && '/' !in tag' && tag' != []
    requires ManifestUrl(domain, projectId, name, tag) == ManifestUrl(domain', projectId', name', tag')
    ensures domain == domain' && tag == tag'
    ensures projectId + "/" + name == projectId' + "/" + name'
  {
    var url := ManifestUrl(domain, projectId, name, tag);
    ManifestUrlHost(domain, projectId, name, tag);
    ManifestUrlHost(domain', projectId', name', tag');
    assert domain == domain';
    ManifestUrlTag(domain, projectId, name, tag);
    ManifestUrlTag(domain', projectId', name', tag');
    assert tag == tag';
    var path, path' := projectId + "/" + name, projectId' + "/" + name';
    ManifestUrlAroundPath(domain, projectId, name, tag);
    ManifestUrlAroundPath(domain, projectId', name', tag);
    var front, back := "https://" + domain + "/v2/", "/manifests/" + tag;
    assert url == front + path + back && url == front + path' + back;
    assert |path| == |path'|;
    assert path == url[|front|..|front| + |path|];
    assert path' == url[|front|..|front| + |path|];
  }
}
