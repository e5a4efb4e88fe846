/** The Container Analysis client: its argument checks, the filter strings of
    its queries, the choice of the status occurrence, the reading of a scan
    status, and the two waits of the synchronous status call.

    The waits are modelled over the answers the wrapper gives within the
    timeout, one per poll; time itself is not modelled.
 */
module ContainerAnalysisClient {
  import opened Wrappers
  import opened JavaStrings
  import opened StreamSort
  import opened ClientUtil
  import W = ContainerAnalysisWrapper

  const VulnerabilityNoteProjectId := "goog-analysis"
  const VulnerabilityNoteId := "PACKAGE_VULNERABILITY"
  const VulnerabilityKind := "VULNERABILITY"
  const FinishedStatuses: seq<string> := ["FINISHED_SUCCESS", "FINISHED_FAILED", "FINISHED_UNSUPPORTED"]

  /** `FINISHED_STATUSES.contains(status)`; the list holds no null. */
  predicate IsFinished(status: Option<string>) {
    status.Some? && status.value in FinishedStatuses
  }

  // ---------------------------------------------------------------------------
  // Filter strings

  /** The filters of the status-occurrence query, in the map's order. */
  function StatusOccurrenceFilters(resourceUrl: string): seq<(string, string)> {
    [("resourceUrl", resourceUrl), ("noteProjectId", VulnerabilityNoteProjectId), ("noteId", VulnerabilityNoteId)]
  }

  /** The filters of `listVulnerabilityScanOccurrences`, in the map's order. */
  function VulnerabilityFilters(resourceUrl: string): seq<(string, string)> {
    [("resourceUrl", resourceUrl), ("kind", VulnerabilityKind)]
  }

  lemma ResourceUrlClause(resourceUrl: string)
    ensures FilterClause(("resourceUrl", resourceUrl)) == "resourceUrl=\"" + resourceUrl + "\""
  {
  }

  lemma NoteProjectClause()
    ensures FilterClause(("noteProjectId", VulnerabilityNoteProjectId)) == "noteProjectId=\"goog-analysis\""
  {
  }

  lemma NoteIdClause()
    ensures FilterClause(("noteId", VulnerabilityNoteId)) == "noteId=\"PACKAGE_VULNERABILITY\""
  {
    assert "noteId" + "=\"" == "noteId=\"";
  }

  lemma KindClause()
    ensures FilterClause(("kind", VulnerabilityKind)) == "kind=\"VULNERABILITY\""
  {
  }

  /** The status query asks for the resource's occurrences of the
      vulnerability note, resource first. */
  lemma StatusOccurrenceFilterText(resourceUrl: string)
    ensures FilterString(StatusOccurrenceFilters(resourceUrl))
         == "resourceUrl=\"" + resourceUrl + "\"" + " AND " + "noteProjectId=\"goog-analysis\""
            + " AND " + "noteId=\"PACKAGE_VULNERABILITY\""
  {
    ResourceUrlClause(resourceUrl);
    NoteProjectClause();
    NoteIdClause();
    FilterStringOfThree(("resourceUrl", resourceUrl), ("noteProjectId", VulnerabilityNoteProjectId),
                        ("noteId", VulnerabilityNoteId));
  }

  /** The vulnerability query asks for the resource's VULNERABILITY
      occurrences. */
  lemma VulnerabilityFilterText(resourceUrl: string)
    ensures FilterString(VulnerabilityFilters(resourceUrl))
         == "resourceUrl=\"" + resourceUrl + "\"" + " AND " + "kind=\"VULNERABILITY\""
  {
    ResourceUrlClause(resourceUrl);
    KindClause();
    FilterStringOfTwo(("resourceUrl", resourceUrl), ("kind", VulnerabilityKind));
  }

  // ---------------------------------------------------------------------------
  // listVulnerabilityScanOccurrences

  function OccurrenceNameOf(o: W.Occurrence): Option<string> { o.name }

  /** `listVulnerabilityScanOccurrences`: `list` stands for the wrapper's
      `listOccurrences(projectId, filter)`; its answer comes back sorted by
      name. */
  function ListVulnerabilityScanOccurrences(projectId: Option<string>, resourceUrl: Option<string>,
                                            list: (string, string) -> Option<seq<W.Occurrence>>)
    : (r: Result<seq<W.Occurrence>>)
    ensures IsNullOrEmpty(projectId) || IsNullOrEmpty(resourceUrl) <==> r == Err(IllegalArgument(""))
    ensures r.Ok? <==>
      && !IsNullOrEmpty(projectId) && !IsNullOrEmpty(resourceUrl)
      && var fetched := list(projectId.value, FilterString(VulnerabilityFilters(resourceUrl.value)));
         !(fetched.Some? && |fetched.value| >= 2 && !AllKeysPresent(fetched.value, OccurrenceNameOf))
    ensures r.Ok? ==> var fetched := list(projectId.value, FilterString(VulnerabilityFilters(resourceUrl.value)));
      && SortedBy(Comparing(KeyOrEmpty(OccurrenceNameOf)), r.value)
      && (fetched.Some? ==> multiset(r.value) == multiset(fetched.value))
      && (fetched.None? ==> r.value == [])
    ensures r.Err? && r.error.NullPointer? ==>
      var fetched := list(projectId.value, FilterString(VulnerabilityFilters(resourceUrl.value)));
      fetched.Some? && !AllKeysPresent(fetched.value, OccurrenceNameOf)
  {
    if IsNullOrEmpty(projectId) || IsNullOrEmpty(resourceUrl) then Err(IllegalArgument(""))
    else SortByNullableKey(list(projectId.value, FilterString(VulnerabilityFilters(resourceUrl.value))), OccurrenceNameOf)
  }

  /** An occurrence of the client's tests, named within a project. */
  function VulnerabilityOccurrence(projectId: string, occurrenceId: string): W.Occurrence {
    W.Occurrence(Some(W.OccurrenceName(projectId, occurrenceId)), Some(VulnerabilityKind), None, None, None, None)
  }

  /** Within one project, occurrences sort by their ids: the test's two
      occurrences come back "other-occurrence" first. */
  lemma ListVulnerabilityScanOccurrencesExample(projectId: string, resourceUrl: string,
                                                list: (string, string) -> Option<seq<W.Occurrence>>)
    requires projectId != [] && resourceUrl != []
    requires list(projectId, FilterString(VulnerabilityFilters(resourceUrl)))
          == Some([VulnerabilityOccurrence(projectId, "test-occurrence"),
                   VulnerabilityOccurrence(projectId, "other-occurrence")])
    ensures ListVulnerabilityScanOccurrences(Some(projectId), Some(resourceUrl), list)
         == Ok([VulnerabilityOccurrence(projectId, "other-occurrence"),
                VulnerabilityOccurrence(projectId, "test-occurrence")])
  {
    var t, o := VulnerabilityOccurrence(projectId, "test-occurrence"), VulnerabilityOccurrence(projectId, "other-occurrence");
    TestOccurrencesSorted(projectId);
    assert AllKeysPresent([t, o], OccurrenceNameOf);
  }

  lemma TestOccurrencesSorted(projectId: string)
    ensures TotalPreorder(Comparing(KeyOrEmpty(OccurrenceNameOf)))
    ensures InsertionSort([VulnerabilityOccurrence(projectId, "test-occurrence"),
                           VulnerabilityOccurrence(projectId, "other-occurrence")], Comparing(KeyOrEmpty(OccurrenceNameOf)))
         == [VulnerabilityOccurrence(projectId, "other-occurrence"), VulnerabilityOccurrence(projectId, "test-occurrence")]
  {
    var t, o := VulnerabilityOccurrence(projectId, "test-occurrence"), VulnerabilityOccurrence(projectId, "other-occurrence");
    var key := KeyOrEmpty(OccurrenceNameOf);
    assert key(t) == W.OccurrenceName(projectId, "test-occurrence");
    assert key(o) == W.OccurrenceName(projectId, "other-occurrence");
    W.OccurrenceNamesOrderByIds(projectId, "test-occurrence", "other-occurrence");
    assert "test-occurrence"[0] == 't' && "other-occurrence"[0] == 'o';
    FirstCharDecides("test-occurrence", "other-occurrence");
    ComparingIsTotalPreorder(key);
    SortTwo(t, o, Comparing(key));
  }

  // ---------------------------------------------------------------------------
  // createAttestation

  /** The call `createAttestation` makes: the occurrence it creates under the
      project. */
  datatype CreateCall = CreateCall(parent: string, occurrence: W.Occurrence)

  predicate AttestationArgumentsPresent(projectId: Option<string>, resourceUrl: Option<string>,
                                        noteProjectId: Option<string>, noteId: Option<string>,
                                        signature: Option<string>, payload: Option<string>) {
    && !IsNullOrEmpty(projectId) && !IsNullOrEmpty(resourceUrl) && !IsNullOrEmpty(noteProjectId)
    && !IsNullOrEmpty(noteId) && !IsNullOrEmpty(signature) && !IsNullOrEmpty(payload)
  }

  /** `createAttestation` as written: every argument but the key id is checked. */
  function CreateAttestation(projectId: Option<string>, resourceUrl: Option<string>, noteProjectId: Option<string>,
                             noteId: Option<string>, signature: Option<string>, publicKeyId: Option<string>,
                             payload: Option<string>): (r: Result<CreateCall>)
    ensures r.Err? <==> !AttestationArgumentsPresent(projectId, resourceUrl, noteProjectId, noteId, signature, payload)
    ensures r.Err? ==> r.error == IllegalArgument("")
    ensures r.Ok? ==> r.value.parent == W.OccurrenceParent(projectId.value)
    ensures r.Ok? ==> r.value.occurrence.kind == Some("ATTESTATION")
    ensures r.Ok? ==> r.value.occurrence.resourceUri == resourceUrl
    ensures r.Ok? ==> r.value.occurrence.noteName == Some(W.NoteName(noteProjectId.value, noteId.value))
    ensures r.Ok? ==> W.AttestedContents(r.value.occurrence) == Some((signature.value, publicKeyId, payload.value))
  {
    if !AttestationArgumentsPresent(projectId, resourceUrl, noteProjectId, noteId, signature, payload) then
      Err(IllegalArgument(""))
    else
      Ok(CreateCall(W.OccurrenceParent(projectId.value),
                    W.ToAttestationOccurrence(resourceUrl.value, noteProjectId.value, noteId.value, signature.value,
                                              publicKeyId, payload.value)))
  }

  /** The call as written accepts a null key id and sends an attestation
      whose signature names no key. */
  lemma CreateAttestationAcceptsMissingKey(projectId: string, resourceUrl: string, noteProjectId: string,
                                           noteId: string, signature: string, payload: string)
    requires projectId != [] && resourceUrl != [] && noteProjectId != [] && noteId != []
    requires signature != [] && payload != []
    ensures var r := CreateAttestation(Some(projectId), Some(resourceUrl), Some(noteProjectId), Some(noteId),
                                       Some(signature), None, Some(payload));
      r.Ok? && W.AttestedContents(r.value.occurrence) == Some((signature, None, payload))
  {
  }

  /** `createAttestation` with the key id checked as well, as the client's
      tests expect; otherwise the same call. */
  function CreateAttestationChecked(projectId: Option<string>, resourceUrl: Option<string>,
                                    noteProjectId: Option<string>, noteId: Option<string>, signature: Option<string>,
                                    publicKeyId: Option<string>, payload: Option<string>): (r: Result<CreateCall>)
    ensures r.Err? <==> !AttestationArgumentsPresent(projectId, resourceUrl, noteProjectId, noteId, signature, payload)
                        || IsNullOrEmpty(publicKeyId)
    ensures r.Err? ==> r.error == IllegalArgument("")
    ensures r.Ok? ==> r == CreateAttestation(projectId, resourceUrl, noteProjectId, noteId, signature, publicKeyId,
                                             payload)
    ensures r.Ok? ==> W.AttestedContents(r.value.occurrence).value.1 == publicKeyId && publicKeyId.value != []
  {
    if IsNullOrEmpty(publicKeyId) then Err(IllegalArgument(""))
    else CreateAttestation(projectId, resourceUrl, noteProjectId, noteId, signature, publicKeyId, payload)
  }

  // ---------------------------------------------------------------------------
  // The status occurrence

  /** The first occurrence with discovery details, or -1. */
  function FirstDiscoveredIndex(occurrences: seq<W.Occurrence>): (r: int)
    ensures -1 <= r < |occurrences|
    ensures r >= 0 ==> occurrences[r].discovered.Some?
    ensures forall k :: 0 <= k < |occurrences| && (r == -1 || k < r) ==> occurrences[k].discovered.None?
    decreases |occurrences|
  {
    if occurrences == [] then -1
    else if occurrences[0].discovered.Some? then 0
    else
      var rest := FirstDiscoveredIndex(occurrences[1..]);
      if rest == -1 then -1 else rest + 1
  }

  /** One answer of `listOccurrences` to the status query: a failure
      (`IOException`), or the list, possibly null. */
  datatype ListPoll = ListFailed | Listed(occurrences: Option<seq<W.Occurrence>>)

  /** `getStatusOccurrence`: a failed query means "not yet"; otherwise the
      first listed occurrence with discovery details, if any. Iterating over a
      null list throws. */
  function StatusOccurrence(poll: ListPoll): (r: Result<Option<W.Occurrence>>)
    ensures poll.ListFailed? ==> r == Ok(None)
    ensures r.Err? <==> poll == Listed(None)
    ensures r.Err? ==> r.error == NullPointer
    ensures poll.Listed? && poll.occurrences.Some? ==>
      var s := poll.occurrences.value;
      && r.Ok?
      && (r.value.None? <==> forall k :: 0 <= k < |s| ==> s[k].discovered.None?)
      && (r.value.Some? ==> var i := FirstDiscoveredIndex(s);
                            && 0 <= i < |s| && r.value.value == s[i] && s[i].discovered.Some?
                            && forall k :: 0 <= k < i ==> s[k].discovered.None?)
  {
    match poll
    case ListFailed => Ok(None)
    case Listed(occurrences) =>
      if occurrences.None? then Err(NullPointer)
      else
        var i := FirstDiscoveredIndex(occurrences.value);
        if i == -1 then Ok(None) else Ok(Some(occurrences.value[i]))
  }

  /** The loop of `getStatusOccurrence`, returning at the first occurrence
      with discovery details. */
  method GetStatusOccurrence(poll: ListPoll) returns (r: Result<Option<W.Occurrence>>)
    ensures r == StatusOccurrence(poll)
  {
    if poll.ListFailed? {
      return Ok(None);
    }
    if poll.occurrences.None? {
      return Err(NullPointer);
    }
    var occurrences := poll.occurrences.value;
    for i := 0 to |occurrences|
      invariant forall k :: 0 <= k < i ==> occurrences[k].discovered.None?
    {
      if occurrences[i].discovered.Some? {
        return Ok(Some(occurrences[i]));
      }
    }
    return Ok(None);
  }

  // ---------------------------------------------------------------------------
  // The scan status

  /** One answer of `getOccurrence`: a failure (`IOException`) or the
      occurrence. */
  datatype GetPoll = GetFailed | Got(occurrence: W.Occurrence)

  /** `getVulnerabilityScanStatus`: a failed fetch means "not yet"; a fetched
      occurrence without discovery details throws; a finished status is
      returned unchanged, any other status means "not yet". */
  function ScanStatus(poll: GetPoll): (r: Result<Option<string>>)
    ensures poll.GetFailed? ==> r == Ok(None)
    ensures r.Err? <==> poll.Got? && poll.occurrence.discovered.None?
    ensures r.Err? ==> r.error == NullPointer
    ensures r.Ok? && poll.Got? ==> (r.value.Some? <==> IsFinished(poll.occurrence.discovered.value.analysisStatus))
    ensures r.Ok? && r.value.Some? ==> poll.Got? && Some(r.value.value) == poll.occurrence.discovered.value.analysisStatus
  {
    match poll
    case GetFailed => Ok(None)
    case Got(occurrence) =>
      if occurrence.discovered.None? then Err(NullPointer)
      else
        var status := occurrence.discovered.value.analysisStatus;
        if IsFinished(status) then Ok(Some(status.value)) else Ok(None)
  }

  /** A discovery occurrence of the client's tests. */
  function DiscoveryOccurrence(status: string): W.Occurrence {
    W.Occurrence(Some(W.OccurrenceName("test-project", "test-occurrence")), Some("DISCOVERY"), None, None, None,
                 Some(W.Discovered(Some(status))))
  }

  /** Each finished status is final; PENDING and SCANNING are not. */
  lemma ScanStatusExamples()
    ensures ScanStatus(Got(DiscoveryOccurrence("FINISHED_SUCCESS"))) == Ok(Some("FINISHED_SUCCESS"))
    ensures ScanStatus(Got(DiscoveryOccurrence("FINISHED_FAILED"))) == Ok(Some("FINISHED_FAILED"))
    ensures ScanStatus(Got(DiscoveryOccurrence("FINISHED_UNSUPPORTED"))) == Ok(Some("FINISHED_UNSUPPORTED"))
    ensures ScanStatus(Got(DiscoveryOccurrence("PENDING"))) == Ok(None)
    ensures ScanStatus(Got(DiscoveryOccurrence("SCANNING"))) == Ok(None)
  {
    assert FinishedStatuses[0] == "FINISHED_SUCCESS" && FinishedStatuses[1] == "FINISHED_FAILED";
    assert FinishedStatuses[2] == "FINISHED_UNSUPPORTED";
  }

  // ---------------------------------------------------------------------------
  // getVulnerabilityScanStatusSync

  /** The first wait: polls the status query until an occurrence with
      discovery details turns up; an exception ends the wait. */
  function AwaitStatusOccurrence(polls: seq<ListPoll>): (r: Result<W.Occurrence>)
    ensures r.Ok? ==> r.value.discovered.Some?
    decreases |polls|
  {
    if polls == [] then Err(ConditionTimeout)
    else
      var found :- StatusOccurrence(polls[0]);
      if found.Some? then Ok(found.value) else AwaitStatusOccurrence(polls[1..])
  }

  /** The second wait: polls the occurrence until its status is finished. */
  function AwaitScanStatus(polls: seq<GetPoll>): (r: Result<string>)
    ensures r.Ok? ==> r.value in FinishedStatuses
    decreases |polls|
  {
    if polls == [] then Err(ConditionTimeout)
    else
      var status :- ScanStatus(polls[0]);
      if status.Some? then Ok(status.value) else AwaitScanStatus(polls[1..])
  }

  /** `getVulnerabilityScanStatusSync`. `listPolls` are the answers to the
      status query within the timeout; `getPolls(id)` are the answers to
      `getOccurrence` for the occurrence id within the time left. */
  function GetVulnerabilityScanStatusSync(projectId: Option<string>, resourceUrl: Option<string>, timeoutMillis: int,
                                          listPolls: seq<ListPoll>, getPolls: string -> seq<GetPoll>)
    : (r: Result<string>)
    ensures IsNullOrEmpty(projectId) || IsNullOrEmpty(resourceUrl) || timeoutMillis < 0
      ==> r == Err(IllegalArgument(""))
    ensures r.Ok? ==> r.value in FinishedStatuses
    ensures r.Ok? ==> && AwaitStatusOccurrence(listPolls).Ok?
                      && var id := NameFromSelfLink(AwaitStatusOccurrence(listPolls).value.name);
                         id.Ok? && r == AwaitScanStatus(getPolls(id.value))
    ensures !IsNullOrEmpty(projectId) && !IsNullOrEmpty(resourceUrl) && timeoutMillis >= 0 ==>
      var found := AwaitStatusOccurrence(listPolls);
      && (found.Err? ==> r == Err(found.error))
      && (found.Ok? ==> var id := NameFromSelfLink(found.value.name);
                        && (id.Err? ==> r == Err(id.error))
                        && (id.Ok? ==> r == AwaitScanStatus(getPolls(id.value))))
  {
    if IsNullOrEmpty(projectId) || IsNullOrEmpty(resourceUrl) || timeoutMillis < 0 then Err(IllegalArgument(""))
    else
      var occurrence :- AwaitStatusOccurrence(listPolls);
      var occurrenceId :- NameFromSelfLink(occurrence.name);
      AwaitScanStatus(getPolls(occurrenceId))
  }

  /** A poll that lists no occurrence with discovery details. */
  predicate FindsNothing(poll: ListPoll) {
    poll.ListFailed? || (poll.occurrences.Some? && forall k :: 0 <= k < |poll.occurrences.value| ==>
                                                             poll.occurrences.value[k].discovered.None?)
  }

  lemma {:induction false} AwaitStatusOccurrenceTimesOut(polls: seq<ListPoll>)
    requires forall i :: 0 <= i < |polls| ==> FindsNothing(polls[i])
    ensures AwaitStatusOccurrence(polls) == Err(ConditionTimeout)
    decreases |polls|
  {
    if polls != [] {
      assert FindsNothing(polls[0]);
      AwaitStatusOccurrenceTimesOut(polls[1..]);
    }
  }

  /** Without an occurrence with discovery details the call times out. */
  lemma SyncTimesOutWithoutDiscovery(projectId: Option<string>, resourceUrl: Option<string>, timeoutMillis: int,
                                     listPolls: seq<ListPoll>, getPolls: string -> seq<GetPoll>)
    requires !IsNullOrEmpty(projectId) && !IsNullOrEmpty(resourceUrl) && timeoutMillis >= 0
    requires forall i :: 0 <= i < |listPolls| ==> FindsNothing(listPolls[i])
    ensures GetVulnerabilityScanStatusSync(projectId, resourceUrl, timeoutMillis, listPolls, getPolls)
         == Err(ConditionTimeout)
  {
    AwaitStatusOccurrenceTimesOut(listPolls);
  }

  /** A poll whose occurrence has a status that is not finished. */
  predicate StillScanning(poll: GetPoll) {
    poll.GetFailed? || (poll.occurrence.discovered.Some? && !IsFinished(poll.occurrence.discovered.value.analysisStatus))
  }

  lemma {:induction false} AwaitScanStatusTimesOut(polls: seq<GetPoll>)
    requires forall i :: 0 <= i < |polls| ==> StillScanning(polls[i])
    ensures AwaitScanStatus(polls) == Err(ConditionTimeout)
    decreases |polls|
  {
    if polls != [] {
      assert StillScanning(polls[0]);
      AwaitScanStatusTimesOut(polls[1..]);
    }
  }

  /** The first wait ends at the first poll that does not mean "not yet":
      with the occurrence found there, or with the exception it threw. */
  lemma {:induction false} AwaitStatusOccurrenceEndsAtFirst(polls: seq<ListPoll>, k: nat)
    requires k < |polls| && StatusOccurrence(polls[k]) != Ok(None)
    requires forall j :: 0 <= j < k ==> StatusOccurrence(polls[j]) == Ok(None)
    ensures StatusOccurrence(polls[k]).Ok? ==> AwaitStatusOccurrence(polls) == Ok(StatusOccurrence(polls[k]).value.value)
    ensures StatusOccurrence(polls[k]).Err? ==> AwaitStatusOccurrence(polls) == Err(NullPointer)
    decreases k
  {
    if k > 0 {
      assert StatusOccurrence(polls[0]) == Ok(None);
      assert polls[1..][k - 1] == polls[k];
      AwaitStatusOccurrenceEndsAtFirst(polls[1..], k - 1);
    }
  }

  /** The second wait ends at the first poll that does not mean "not yet":
      with the finished status read there, or with the exception it threw. */
  lemma {:induction false} AwaitScanStatusEndsAtFirst(polls: seq<GetPoll>, k: nat)
    requires k < |polls| && ScanStatus(polls[k]) != Ok(None)
    requires forall j :: 0 <= j < k ==> ScanStatus(polls[j]) == Ok(None)
    ensures ScanStatus(polls[k]).Ok? ==> AwaitScanStatus(polls) == Ok(ScanStatus(polls[k]).value.value)
    ensures ScanStatus(polls[k]).Err? ==> AwaitScanStatus(polls) == Err(NullPointer)
    decreases k
  {
    if k > 0 {
      assert ScanStatus(polls[0]) == Ok(None);
      assert polls[1..][k - 1] == polls[k];
      AwaitScanStatusEndsAtFirst(polls[1..], k - 1);
    }
  }

  /** When the status occurrence turns up at list poll `k` and the scan of
      that occurrence is first seen finished at poll `m`, the call returns
      that status. */
  lemma SyncReturnsFirstFinishedStatus(projectId: Option<string>, resourceUrl: Option<string>, timeoutMillis: int,
                                       listPolls: seq<ListPoll>, getPolls: string -> seq<GetPoll>,
                                       k: nat, occurrenceId: string, m: nat)
    requires !IsNullOrEmpty(projectId) && !IsNullOrEmpty(resourceUrl) && timeoutMillis >= 0
    requires k < |listPolls| && StatusOccurrence(listPolls[k]).Ok? && StatusOccurrence(listPolls[k]).value.Some?
    requires forall j :: 0 <= j < k ==> StatusOccurrence(listPolls[j]) == Ok(None)
    requires NameFromSelfLink(StatusOccurrence(listPolls[k]).value.value.name) == Ok(occurrenceId)
    requires m < |getPolls(occurrenceId)| && ScanStatus(getPolls(occurrenceId)[m]).Ok?
    requires ScanStatus(getPolls(occurrenceId)[m]).value.Some?
    requires forall j :: 0 <= j < m ==> ScanStatus(getPolls(occurrenceId)[j]) == Ok(None)
    ensures GetVulnerabilityScanStatusSync(projectId, resourceUrl, timeoutMillis, listPolls, getPolls)
         == Ok(ScanStatus(getPolls(occurrenceId)[m]).value.value)
  {
    AwaitStatusOccurrenceEndsAtFirst(listPolls, k);
    AwaitScanStatusEndsAtFirst(getPolls(occurrenceId), m);
  }

  /** The client's test: the status occurrence is PENDING, then the scan is
      SCANNING twice and FINISHED_SUCCESS. */
  function TestStatusPolls(occurrenceId: string): seq<GetPoll> {
    if occurrenceId == "test-occurrence" then
      [Got(DiscoveryOccurrence("SCANNING")), Got(DiscoveryOccurrence("SCANNING")),
       Got(DiscoveryOccurrence("FINISHED_SUCCESS"))]
    else []
  }

  /** The test's status occurrence is found at the first poll, and its id
      read back from its name. */
  lemma TestStatusOccurrenceFound()
    ensures StatusOccurrence(Listed(Some([DiscoveryOccurrence("PENDING")]))) == Ok(Some(DiscoveryOccurrence("PENDING")))
    ensures NameFromSelfLink(DiscoveryOccurrence("PENDING").name) == Ok("test-occurrence")
  {
    assert FirstDiscoveredIndex([DiscoveryOccurrence("PENDING")]) == 0;
    W.NameOfOccurrence("test-project", "test-occurrence");
  }

  /** The test's scan is first seen finished at the third poll. */
  lemma TestScanFinishesThird()
    ensures |TestStatusPolls("test-occurrence")| == 3
    ensures forall j :: 0 <= j < 2 ==> ScanStatus(TestStatusPolls("test-occurrence")[j]) == Ok(None)
    ensures ScanStatus(TestStatusPolls("test-occurrence")[2]) == Ok(Some("FINISHED_SUCCESS"))
  {
    ScanStatusExamples();
  }

  lemma SyncExample()
    ensures GetVulnerabilityScanStatusSync(Some("test-project"), Some("gcr.io/test-project/test@sha256:abcdef"), 7000,
                                           [Listed(Some([DiscoveryOccurrence("PENDING")]))], TestStatusPolls)
         == Ok("FINISHED_SUCCESS")
  {
    TestStatusOccurrenceFound();
    TestScanFinishesThird();
    SyncReturnsFirstFinishedStatus(Some("test-project"), Some("gcr.io/test-project/test@sha256:abcdef"), 7000,
                                   [Listed(Some([DiscoveryOccurrence("PENDING")]))], TestStatusPolls,
                                   0, "test-occurrence", 2);
  }
}
