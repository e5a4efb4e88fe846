/** Google Cloud resource names: `projects/{project}` followed by pairs of a
    collection and an id, all separated by '/'. Every wrapper builds its names
    this way, one level at a time.
 */
module ResourceNames {
  import opened Wrappers
  import opened JavaStrings
  import opened ClientUtil

  /** "projects/{projectId}". */
  function ProjectName(projectId: string): string {
    "projects/" + projectId
  }

  /** "{parent}/{collection}/{id}". */
  function Child(parent: string, collection: string, id: string): string {
    parent + "/" + collection + "/" + id
  }

  /** A name is the '/'-join of its segments. */
  predicate IsPathOf(name: string, segments: seq<string>) {
    name == Join(segments, "/")
  }

  lemma ProjectNameIsPath(projectId: string)
    ensures IsPathOf(ProjectName(projectId), ["projects", projectId])
  {
  }

  lemma ChildIsPath(parent: string, segments: seq<string>, collection: string, id: string)
    requires segments != [] && IsPathOf(parent, segments)
    ensures IsPathOf(Child(parent, collection, id), segments + [collection, id])
  {
    JoinSnoc(segments, collection, "/");
    JoinSnoc(segments + [collection], id, "/");
    assert segments + [collection] + [id] == segments + [collection, id];
  }

  /** No segment holds a '/', and the last one is not empty. */
  predicate WellFormedSegments(segments: seq<string>) {
    && segments != []
    && (forall i :: 0 <= i < |segments| ==> '/' !in segments[i])
    && segments[|segments| - 1] != []
  }

  /** Splitting a well-formed name at '/' recovers its segments. */
  lemma SplitPath(name: string, segments: seq<string>)
    requires IsPathOf(name, segments) && WellFormedSegments(segments)
    ensures Split(name, '/') == segments
  {
    SplitOfJoin(segments, '/');
  }

  /** Two well-formed names are equal only if their segments are. */
  lemma PathIsInjective(name: string, s1: seq<string>, s2: seq<string>)
    requires IsPathOf(name, s1) && WellFormedSegments(s1)
    requires IsPathOf(name, s2) && WellFormedSegments(s2)
    ensures s1 == s2
  {
    SplitPath(name, s1);
    SplitPath(name, s2);
  }

  /** The last segment of a child's name is its id. */
  lemma NameOfChild(parent: string, collection: string, id: string)
    requires '/' !in id
    ensures NameFromSelfLink(Some(Child(parent, collection, id))) == Ok(id)
  {
    assert Child(parent, collection, id) == (parent + "/" + collection) + "/" + id;
    NameFromSelfLinkOfPath(parent + "/" + collection, id);
  }
}
