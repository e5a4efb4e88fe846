/** The names and records the Container Analysis wrapper builds: occurrence
    and note names, and the attestation occurrence it creates.

    An `Occurrence` keeps the fields the client and wrapper read or set; each
    may be null in the API model, so each is an `Option`.
 */
module ContainerAnalysisWrapper {
  import opened Wrappers
  import opened JavaStrings
  import opened ClientUtil
  import opened ResourceNames

  /** `toOccurrenceParent`: "projects/{p}". */
  function OccurrenceParent(projectId: string): (r: string)
    ensures IsPathOf(r, ["projects", projectId])
  {
    ProjectNameIsPath(projectId);
    ProjectName(projectId)
  }

  /** `toOccurrenceName`: "projects/{p}/occurrences/{o}". */
  function OccurrenceName(projectId: string, occurrenceId: string): (r: string)
    ensures IsPathOf(r, ["projects", projectId, "occurrences", occurrenceId])
  {
    ChildIsPath(OccurrenceParent(projectId), ["projects", projectId], "occurrences", occurrenceId);
    assert ["projects", projectId] + ["occurrences", occurrenceId] == ["projects", projectId, "occurrences", occurrenceId];
    Child(OccurrenceParent(projectId), "occurrences", occurrenceId)
  }

  /** `toNoteName`: "projects/{p}/note/{n}", with the singular collection
      "note". */
  function NoteName(projectId: string, note: string): (r: string)
    ensures IsPathOf(r, ["projects", projectId, "note", note])
  {
    ProjectNameIsPath(projectId);
    ChildIsPath(ProjectName(projectId), ["projects", projectId], "note", note);
    assert ["projects", projectId] + ["note", note] == ["projects", projectId, "note", note];
    Child(ProjectName(projectId), "note", note)
  }

  /** With ids free of '/' and a non-empty occurrence id, the name splits back
      into its collections and ids. */
  lemma OccurrenceNameSplits(projectId: string, occurrenceId: string)
    requires '/' !in projectId && '/' !in occurrenceId && occurrenceId != []
    ensures Split(OccurrenceName(projectId, occurrenceId), '/') == ["projects", projectId, "occurrences", occurrenceId]
  {
    assert '/' !in "projects" && '/' !in "occurrences";
    SplitPath(OccurrenceName(projectId, occurrenceId), ["projects", projectId, "occurrences", occurrenceId]);
  }

  /** The client reads the occurrence id back from the name with
      `nameFromSelfLink`; that gives the id whenever it holds no '/'. */
  lemma NameOfOccurrence(projectId: string, occurrenceId: string)
    requires '/' !in occurrenceId
    ensures NameFromSelfLink(Some(OccurrenceName(projectId, occurrenceId))) == Ok(occurrenceId)
  {
    NameOfChild(OccurrenceParent(projectId), "occurrences", occurrenceId);
  }

  /** Within one project, occurrence names order as their ids do. */
  lemma OccurrenceNamesOrderByIds(projectId: string, x: string, y: string)
    ensures StringLeq(OccurrenceName(projectId, x), OccurrenceName(projectId, y)) == StringLeq(x, y)
  {
    var prefix := OccurrenceParent(projectId) + "/" + "occurrences" + "/";
    assert OccurrenceName(projectId, x) == prefix + x;
    assert OccurrenceName(projectId, y) == prefix + y;
    StringLeqCommonPrefix(prefix, x, y);
  }

  lemma NoteNameSplits(projectId: string, note: string)
    requires '/' !in projectId && '/' !in note && note != []
    ensures Split(NoteName(projectId, note), '/') == ["projects", projectId, "note", note]
  {
    assert '/' !in "projects" && '/' !in "note";
    SplitPath(NoteName(projectId, note), ["projects", projectId, "note", note]);
  }

  /** A signature and the id of the key that made it (never checked, so
      possibly null). */
  datatype Signature = Signature(signature: string, publicKeyId: Option<string>)

  datatype GenericSignedAttestation = GenericSignedAttestation(signatures: seq<Signature>, serializedPayload: string)

  /** The discovery details of a vulnerability-scan occurrence. */
  datatype Discovered = Discovered(analysisStatus: Option<string>)

  datatype Occurrence = Occurrence(
    name: Option<string>,
    kind: Option<string>,
    resourceUri: Option<string>,
    noteName: Option<string>,
    attestation: Option<GenericSignedAttestation>,
    discovered: Option<Discovered>)

  /** What a signed attestation carries: its only signature, that signature's
      key id and the payload, if it has exactly one signature. */
  function SignedContents(a: GenericSignedAttestation): Option<(string, Option<string>, string)> {
    if |a.signatures| == 1 then Some((a.signatures[0].signature, a.signatures[0].publicKeyId, a.serializedPayload))
    else None
  }

  /** `toAttestation` with the `toSignature` it calls: an attestation from
      which the signature, the key id and the payload read back unchanged. */
  function ToAttestation(signature: string, publicKeyId: Option<string>, payload: string): (r: GenericSignedAttestation)
    ensures SignedContents(r) == Some((signature, publicKeyId, payload))
  {
    GenericSignedAttestation([Signature(signature, publicKeyId)], payload)
  }

  /** What an attestation occurrence attests, if it holds an attestation with
      exactly one signature. */
  function AttestedContents(o: Occurrence): Option<(string, Option<string>, string)> {
    if o.attestation.Some? then SignedContents(o.attestation.value) else None
  }

  /** `toAttestationOccurrence`: an ATTESTATION occurrence on the resource,
      under the note, from which the signature, key id and payload read back
      unchanged; the server assigns its name. */
  function ToAttestationOccurrence(resourceUri: string, noteProjectId: string, noteId: string, signature: string,
                                   publicKeyId: Option<string>, payload: string): (r: Occurrence)
    ensures r.kind == Some("ATTESTATION")
    ensures r.resourceUri == Some(resourceUri)
    ensures r.noteName == Some(NoteName(noteProjectId, noteId))
    ensures AttestedContents(r) == Some((signature, publicKeyId, payload))
    ensures r.name.None? && r.discovered.None?
  {
    Occurrence(None, Some("ATTESTATION"), Some(resourceUri), Some(NoteName(noteProjectId, noteId)),
               Some(ToAttestation(signature, publicKeyId, payload)), None)
  }

  /** Two attestation occurrences are the same only when they were built from
      the same arguments (ids free of '/', a non-empty note id). */
  lemma AttestationOccurrenceIsInjective(
    resourceUri: string, noteProjectId: string, noteId: string, signature: string, publicKeyId: Option<string>,
    payload: string,
    resourceUri': string, noteProjectId': string, noteId': string, signature': string, publicKeyId': Option<string>,
    payload': string)
    requires '/' !in noteProjectId && '/' !in noteId && noteId != []
    requires '/' !in noteProjectId' && '/' !in noteId' && noteId' != []
    requires ToAttestationOccurrence(resourceUri, noteProjectId, noteId, signature, publicKeyId, payload)
          == ToAttestationOccurrence(resourceUri', noteProjectId', noteId', signature', publicKeyId', payload')
    ensures resourceUri == resourceUri' && noteProjectId == noteProjectId' && noteId == noteId'
    ensures signature == signature' && publicKeyId == publicKeyId' && payload == payload'
  {
    NoteNameSplits(noteProjectId, noteId);
    NoteNameSplits(noteProjectId', noteId');
    var s := ["projects", noteProjectId, "note", noteId];
    var s' := ["projects", noteProjectId', "note", noteId'];
    assert s == s';
    assert s[1] == s'[1] && s[3] == s'[3];
  }
}
