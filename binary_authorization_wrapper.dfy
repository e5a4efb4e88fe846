/** The names the Binary Authorization wrapper addresses: a project's
    attestors are listed under `projects/{p}` and each is fetched as
    `projects/{p}/attestors/{a}`.

    The API's answers are parameters: `list` answers a parent name with the
    attestors under it (possibly null), `get` answers an attestor's name.
 */
module BinaryAuthorizationWrapper {
  import opened Wrappers
  import opened JavaStrings
  import opened ClientUtil
  import opened ResourceNames

  /** An attestor, as far as the plugin reads it: its resource name. */
  datatype Attestor = Attestor(name: Option<string>)

  /** `toAttestorParent`: "projects/{p}". */
  function AttestorParent(projectId: string): (r: string)
    ensures IsPathOf(r, ["projects", projectId])
  {
    ProjectNameIsPath(projectId);
    ProjectName(projectId)
  }

  /** `toAttestorName`: "projects/{p}/attestors/{a}". */
  function AttestorName(projectId: string, attestor: string): (r: string)
    ensures IsPathOf(r, ["projects", projectId, "attestors", attestor])
  {
    ChildIsPath(AttestorParent(projectId), ["projects", projectId], "attestors", attestor);
    assert ["projects", projectId] + ["attestors", attestor] == ["projects", projectId, "attestors", attestor];
    Child(AttestorParent(projectId), "attestors", attestor)
  }

  /** `listAttestors`: the attestors under the project's parent name. */
  function ListAttestors(projectId: string, list: string -> Option<seq<Attestor>>): Option<seq<Attestor>> {
    list(AttestorParent(projectId))
  }

  /** `getAttestor`: the attestor under its full name. */
  function GetAttestor(projectId: string, attestor: string, get: string -> Attestor): Attestor {
    get(AttestorName(projectId, attestor))
  }

  /** With ids free of '/' and a non-empty attestor id, an attestor's name
      splits into the project's parent segments, the collection and the id. */
  lemma AttestorNameSplits(projectId: string, attestor: string)
    requires '/' !in projectId && '/' !in attestor && attestor != []
    ensures projectId != [] ==> Split(AttestorParent(projectId), '/') == ["projects", projectId]
    ensures Split(AttestorName(projectId, attestor), '/') == ["projects", projectId, "attestors", attestor]
  {
    assert '/' !in "projects" && '/' !in "attestors";
    if projectId != [] {
      SplitPath(AttestorParent(projectId), ["projects", projectId]);
    }
    SplitPath(AttestorName(projectId, attestor), ["projects", projectId, "attestors", attestor]);
  }

  /** The attestor fetched is the one the listing's parent holds, and its
      name's last segment is the attestor's id: `getAttestor` addresses a
      child of what `listAttestors` addresses. */
  lemma GetAttestorAddressesChildOfList(projectId: string, attestor: string, get: string -> Attestor)
    requires '/' !in attestor
    ensures var name := AttestorName(projectId, attestor);
      && StartsWith(name, AttestorParent(projectId) + "/attestors/")
      && NameFromSelfLink(Some(name)) == Ok(attestor)
      && GetAttestor(projectId, attestor, get) == get(name)
  {
    NameOfChild(AttestorParent(projectId), "attestors", attestor);
    var name := AttestorName(projectId, attestor);
    assert name == (AttestorParent(projectId) + "/attestors/") + attestor;
  }

  /** Different attestors (ids free of '/', non-empty attestor ids) are
      fetched under different names. */
  lemma AttestorNameIsInjective(p: string, a: string, p': string, a': string)
    requires '/' !in p && '/' !in a && a != []
    requires '/' !in p' && '/' !in a' && a' != []
    requires AttestorName(p, a) == AttestorName(p', a')
    ensures p == p' && a == a'
  {
    AttestorNameSplits(p, a);
    AttestorNameSplits(p', a');
    var s, s' := ["projects", p, "attestors", a], ["projects", p', "attestors", a'];
    assert s == s';
    assert s[1] == s'[1] && s[3] == s'[3];
  }
}
