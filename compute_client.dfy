/** The decision logic of the Compute Engine client: merging instance metadata,
    the filters and sort keys of the list calls, the choice between the two
    instance-insert calls, and how waiting for a zone operation ends.

    Every remote call is replaced by its answer, passed in as a parameter:
    `fetched` is the list the API returned (None for a null list), and a wait
    receives the sequence of poll outcomes that fit before its timeout.
 */
module ComputeClient {
  import opened Wrappers
  import opened JavaStrings
  import opened StreamSort
  import opened ClientUtil

  // ---------------------------------------------------------------------------
  // mergeMetadataItems

  /** A `Metadata.Items` entry. */
  datatype MetadataItem = MetadataItem(key: string, value: Option<string>)

  predicate HasKey(items: seq<MetadataItem>, key: string) {
    exists i :: 0 <= i < |items| && items[i].key == key
  }

  /** Loser items survive only when no winner item has their key. */
  function NotOverriddenBy(winner: seq<MetadataItem>): MetadataItem -> bool {
    (item: MetadataItem) => !HasKey(winner, item.key)
  }

  /** The merged list: the winner items, then the surviving loser items. */
  function MergedItems(winner: seq<MetadataItem>, loser: Option<seq<MetadataItem>>): seq<MetadataItem> {
    if loser.None? then winner else winner + Filter(loser.value, NotOverriddenBy(winner))
  }

  /** `mergeMetadataItems`: copies the winner list, then adds each loser item
      whose key no winner item has. */
  method MergeMetadataItems(winner: seq<MetadataItem>, loser: Option<seq<MetadataItem>>) returns (result: seq<MetadataItem>)
    ensures result == MergedItems(winner, loser)
  {
    if loser.None? {
      return winner;
    }
    var existing := loser.value;
    result := winner;
    for i := 0 to |existing|
      invariant result == winner + Filter(existing[..i], NotOverriddenBy(winner))
    {
      if !HasKey(winner, existing[i].key) {
        result := result + [existing[i]];
      }
      assert existing[..i + 1] == existing[..i] + [existing[i]];
      FilterSnoc(existing[..i], existing[i], NotOverriddenBy(winner));
    }
    assert existing[..|existing|] == existing;
  }

  /** The winner items come first, unchanged and in order; with a null loser
      they are the whole result. */
  lemma MergeKeepsWinnerFirst(winner: seq<MetadataItem>, loser: Option<seq<MetadataItem>>)
    ensures |winner| <= |MergedItems(winner, loser)|
    ensures MergedItems(winner, loser)[..|winner|] == winner
    ensures loser.None? ==> MergedItems(winner, loser) == winner
  {
  }

  /** After the winner items, each loser item occurs exactly as often as in the
      loser list if no winner item has its key, and not at all otherwise. */
  lemma MergeKeepsLoserItemsWithNewKeys(winner: seq<MetadataItem>, loser: seq<MetadataItem>, x: MetadataItem)
    ensures var tail := MergedItems(winner, Some(loser))[|winner|..];
      multiset(tail)[x] == if HasKey(winner, x.key) then 0 else multiset(loser)[x]
  {
    assert MergedItems(winner, Some(loser))[|winner|..] == Filter(loser, NotOverriddenBy(winner));
    FilterMultiset(loser, NotOverriddenBy(winner), x);
  }

  /** The surviving loser items keep their relative order. */
  lemma MergeKeepsLoserOrder(winner: seq<MetadataItem>, loser: seq<MetadataItem>)
    ensures IsSubsequence(MergedItems(winner, Some(loser))[|winner|..], loser)
  {
    assert MergedItems(winner, Some(loser))[|winner|..] == Filter(loser, NotOverriddenBy(winner));
    FilterIsSubsequence(loser, NotOverriddenBy(winner));
  }

  /** Every key of either list is in the result. */
  lemma MergeKeepsEveryKey(winner: seq<MetadataItem>, loser: seq<MetadataItem>, key: string)
    ensures HasKey(MergedItems(winner, Some(loser)), key) <==> HasKey(winner, key) || HasKey(loser, key)
  {
    var m := MergedItems(winner, Some(loser));
    var tail := Filter(loser, NotOverriddenBy(winner));
    assert m == winner + tail;
    if HasKey(winner, key) {
      var i :| 0 <= i < |winner| && winner[i].key == key;
      assert m[i] == winner[i];
    } else if HasKey(loser, key) {
      var i :| 0 <= i < |loser| && loser[i].key == key;
      FilterMultiset(loser, NotOverriddenBy(winner), loser[i]);
      assert loser[i] in multiset(loser);
      assert loser[i] in multiset(tail);
      var j :| 0 <= j < |tail| && tail[j] == loser[i];
      assert m[|winner| + j] == loser[i];
    }
    if HasKey(m, key) {
      var i :| 0 <= i < |m| && m[i].key == key;
      if i >= |winner| {
        var x := tail[i - |winner|];
        assert x in multiset(tail);
        FilterMultiset(loser, NotOverriddenBy(winner), x);
        assert x in multiset(loser);
        var j :| 0 <= j < |loser| && loser[j] == x;
      }
    }
  }

  predicate UniqueKeys(items: seq<MetadataItem>) {
    forall i, j :: 0 <= i < j < |items| ==> items[i].key != items[j].key
  }

  /** When each list holds every key once, so does the merge: a winner item
      replaces the loser item with its key instead of joining it. */
  lemma MergeKeepsKeysUnique(winner: seq<MetadataItem>, loser: seq<MetadataItem>)
    requires UniqueKeys(winner) && UniqueKeys(loser)
    ensures UniqueKeys(MergedItems(winner, Some(loser)))
  {
    var m := MergedItems(winner, Some(loser));
    var keep := NotOverriddenBy(winner);
    var tail := Filter(loser, keep);
    assert m == winner + tail;
    FilterIsSubsequence(loser, keep);
    SubsequenceKeepsUniqueKeys(tail, loser);
    forall i, j | 0 <= i < j < |m| ensures m[i].key != m[j].key {
      if j >= |winner| && i < |winner| {
        assert keep(tail[j - |winner|]);
      }
    }
  }

  lemma {:induction false} SubsequenceKeepsUniqueKeys(a: seq<MetadataItem>, b: seq<MetadataItem>)
    requires IsSubsequence(a, b) && UniqueKeys(b)
    ensures UniqueKeys(a)
    decreases |b|
  {
    if a != [] && b != [] {
      if a[0] == b[0] && IsSubsequence(a[1..], b[1..]) {
        SubsequenceKeepsUniqueKeys(a[1..], b[1..]);
        SubsequenceMembers(a[1..], b[1..]);
        forall j | 0 < j < |a| ensures a[0].key != a[j].key {
          assert a[j] == a[1..][j - 1];
          var k :| 0 <= k < |b[1..]| && b[1..][k] == a[j];
          assert b[k + 1] == a[j];
        }
      } else {
        SubsequenceKeepsUniqueKeys(a, b[1..]);
      }
    }
  }

  lemma {:induction false} SubsequenceMembers(a: seq<MetadataItem>, b: seq<MetadataItem>)
    requires IsSubsequence(a, b)
    ensures forall i :: 0 <= i < |a| ==> exists k :: 0 <= k < |b| && b[k] == a[i]
    decreases |b|
  {
    if a != [] && b != [] {
      if a[0] == b[0] && IsSubsequence(a[1..], b[1..]) {
        SubsequenceMembers(a[1..], b[1..]);
        forall i | 0 < i < |a| ensures exists k :: 0 <= k < |b| && b[k] == a[i] {
          assert a[i] == a[1..][i - 1];
          var k :| 0 <= k < |b[1..]| && b[1..][k] == a[i];
          assert b[k + 1] == a[i];
        }
      } else {
        SubsequenceMembers(a, b[1..]);
        forall i | 0 <= i < |a| ensures exists k :: 0 <= k < |b| && b[k] == a[i] {
          var k :| 0 <= k < |b[1..]| && b[1..][k] == a[i];
          assert b[k + 1] == a[i];
        }
      }
    }
  }

  /** One new "ssh-keys" item over an old "ssh-keys" and a "no-overwrite" item
      gives as many items as there were. */
  lemma MergeMetadataExample()
    ensures |MergedItems([MetadataItem("ssh-keys", Some("new"))],
                         Some([MetadataItem("ssh-keys", Some("old")), MetadataItem("no-overwrite", Some("no-overwrite"))]))|
         == 2
  {
    var winner := [MetadataItem("ssh-keys", Some("new"))];
    var old1, old2 := MetadataItem("ssh-keys", Some("old")), MetadataItem("no-overwrite", Some("no-overwrite"));
    assert HasKey(winner, old1.key);
    assert winner[0].key[0] != old2.key[0];
    assert !HasKey(winner, old2.key);
    assert [old1, old2][1..] == [old2];
    assert Filter([old1, old2], NotOverriddenBy(winner)) == [old2];
  }

  // ---------------------------------------------------------------------------
  // Resource filters

  /** A `DeprecationStatus`. */
  datatype DeprecationStatus = DeprecationStatus(state: string)

  /** `isDeprecated`: present, with state "DEPRECATED" in any case. */
  predicate IsDeprecated(deprecated: Option<DeprecationStatus>) {
    deprecated.Some? && EqualsIgnoreCase(deprecated.value.state, "DEPRECATED")
  }

  lemma IsDeprecatedCases(deprecated: Option<DeprecationStatus>)
    ensures deprecated.None? ==> !IsDeprecated(deprecated)
    ensures deprecated == Some(DeprecationStatus("DEPRECATED")) ==> IsDeprecated(deprecated)
    ensures deprecated == Some(DeprecationStatus("deprecated")) ==> IsDeprecated(deprecated)
    ensures deprecated == Some(DeprecationStatus("ACTIVE")) ==> !IsDeprecated(deprecated)
  {
  }

  /** A region, machine type, disk type, image or accelerator type: a name and
      an optional deprecation status. */
  datatype Resource = Resource(name: string, deprecated: Option<DeprecationStatus>)

  function ResourceName(r: Resource): string { r.name }

  predicate NotDeprecated(r: Resource) { !IsDeprecated(r.deprecated) }

  /** The filter of `listBootDiskTypes`: not deprecated and not a local disk. */
  predicate IsBootDiskType(d: Resource) {
    !IsDeprecated(d.deprecated) && !StartsWith(d.name, "local-")
  }

  /** A `Zone`: its name and the self link of its region (possibly null). */
  datatype Zone = Zone(name: string, region: Option<string>)

  function ZoneNameOf(z: Zone): string { z.name }

  /** The filter of `listZones`: the region link, compared ignoring case. */
  function InRegion(regionLink: string): Zone -> bool {
    (z: Zone) => EqualsIgnoreCaseOrNull(regionLink, z.region)
  }

  /** A `Subnetwork`: its name and the self link of its network. */
  datatype Subnetwork = Subnetwork(name: string, network: string)

  function SubnetworkName(s: Subnetwork): string { s.name }

  /** The filter of `listSubnetworks`: the network link, compared ignoring case. */
  function InNetwork(networkLink: string): Subnetwork -> bool {
    (s: Subnetwork) => EqualsIgnoreCase(s.network, networkLink)
  }

  // ---------------------------------------------------------------------------
  // List calls

  /** `listRegions` and `listImages`: the project's resources without the
      deprecated ones, sorted by name. */
  function ListProjectResources(projectId: Option<string>, fetched: Option<seq<Resource>>): (r: Result<seq<Resource>>)
    ensures r.Err? <==> IsNullOrEmpty(projectId)
    ensures r.Err? ==> r.error == IllegalArgument("")
    ensures r.Ok? ==> SortedBy(Comparing(ResourceName), r.value)
    ensures r.Ok? ==> forall i :: 0 <= i < |r.value| ==> !IsDeprecated(r.value[i].deprecated)
    ensures r.Ok? && fetched.Some? ==> multiset(r.value) == multiset(Filter(fetched.value, NotDeprecated))
    ensures r.Ok? && fetched.None? ==> r.value == []
  {
    if IsNullOrEmpty(projectId) then Err(IllegalArgument(""))
    else
      ComparingIsTotalPreorder(ResourceName);
      Ok(ProcessResourceList(fetched, NotDeprecated, Comparing(ResourceName)))
  }

  /** `listMachineTypes`, `listDiskTypes` and `listAcceleratorTypes`: the
      resources of the zone named by the zone link, without the deprecated
      ones, sorted by name. `fetch` answers for a zone name. */
  function ListZoneResources(projectId: Option<string>, zoneLink: Option<string>,
                             fetch: string -> Option<seq<Resource>>): (r: Result<seq<Resource>>)
    ensures r.Err? <==> IsNullOrEmpty(projectId) || IsNullOrEmpty(zoneLink)
    ensures r.Err? ==> r.error == IllegalArgument("")
    ensures r.Ok? ==> NameFromSelfLink(zoneLink).Ok?
    ensures r.Ok? ==> var fetched := fetch(NameFromSelfLink(zoneLink).value);
      && SortedBy(Comparing(ResourceName), r.value)
      && (forall i :: 0 <= i < |r.value| ==> !IsDeprecated(r.value[i].deprecated))
      && (fetched.Some? ==> multiset(r.value) == multiset(Filter(fetched.value, NotDeprecated)))
      && (fetched.None? ==> r.value == [])
  {
    if IsNullOrEmpty(projectId) || IsNullOrEmpty(zoneLink) then Err(IllegalArgument(""))
    else
      var zone := NameFromSelfLink(zoneLink).value;
      ComparingIsTotalPreorder(ResourceName);
      Ok(ProcessResourceList(fetch(zone), NotDeprecated, Comparing(ResourceName)))
  }

  /** `listBootDiskTypes`: like the disk-type list, without the "local-" disks. */
  function ListBootDiskTypes(projectId: Option<string>, zoneLink: Option<string>,
                             fetch: string -> Option<seq<Resource>>): (r: Result<seq<Resource>>)
    ensures r.Err? <==> IsNullOrEmpty(projectId) || IsNullOrEmpty(zoneLink)
    ensures r.Ok? ==> var fetched := fetch(NameFromSelfLink(zoneLink).value);
      && SortedBy(Comparing(ResourceName), r.value)
      && (forall i :: 0 <= i < |r.value| ==>
            !IsDeprecated(r.value[i].deprecated) && !StartsWith(r.value[i].name, "local-"))
      && (fetched.Some? ==> multiset(r.value) == multiset(Filter(fetched.value, IsBootDiskType)))
      && (fetched.None? ==> r.value == [])
  {
    if IsNullOrEmpty(projectId) || IsNullOrEmpty(zoneLink) then Err(IllegalArgument(""))
    else
      var zone := NameFromSelfLink(zoneLink).value;
      ComparingIsTotalPreorder(ResourceName);
      Ok(ProcessResourceList(fetch(zone), IsBootDiskType, Comparing(ResourceName)))
  }

  /** `listZones`: the zones of the region link, sorted by name. */
  function ListZones(projectId: Option<string>, regionLink: Option<string>, fetched: Option<seq<Zone>>): (r: Result<seq<Zone>>)
    ensures r.Err? <==> IsNullOrEmpty(projectId) || IsNullOrEmpty(regionLink)
    ensures r.Ok? ==> SortedBy(Comparing(ZoneNameOf), r.value)
    ensures r.Ok? ==> forall i :: 0 <= i < |r.value| ==> EqualsIgnoreCaseOrNull(regionLink.value, r.value[i].region)
    ensures r.Ok? && fetched.Some? ==> multiset(r.value) == multiset(Filter(fetched.value, InRegion(regionLink.value)))
    ensures r.Ok? && fetched.None? ==> r.value == []
  {
    if IsNullOrEmpty(projectId) || IsNullOrEmpty(regionLink) then Err(IllegalArgument(""))
    else
      ComparingIsTotalPreorder(ZoneNameOf);
      Ok(ProcessResourceList(fetched, InRegion(regionLink.value), Comparing(ZoneNameOf)))
  }

  /** `listSubnetworks`: the subnetworks of the network link in the region
      named by the region link, sorted by name. */
  function ListSubnetworks(projectId: Option<string>, networkLink: Option<string>, regionLink: Option<string>,
                           fetch: string -> Option<seq<Subnetwork>>): (r: Result<seq<Subnetwork>>)
    ensures r.Err? <==> IsNullOrEmpty(projectId) || IsNullOrEmpty(networkLink) || IsNullOrEmpty(regionLink)
    ensures r.Ok? ==> var fetched := fetch(NameFromSelfLink(regionLink).value);
      && SortedBy(Comparing(SubnetworkName), r.value)
      && (forall i :: 0 <= i < |r.value| ==> EqualsIgnoreCase(r.value[i].network, networkLink.value))
      && (fetched.Some? ==> multiset(r.value) == multiset(Filter(fetched.value, InNetwork(networkLink.value))))
      && (fetched.None? ==> r.value == [])
  {
    if IsNullOrEmpty(projectId) || IsNullOrEmpty(networkLink) || IsNullOrEmpty(regionLink) then Err(IllegalArgument(""))
    else
      var region := NameFromSelfLink(regionLink).value;
      ComparingIsTotalPreorder(SubnetworkName);
      Ok(ProcessResourceList(fetch(region), InNetwork(networkLink.value), Comparing(SubnetworkName)))
  }

  /** `listCpuPlatforms`: the zone's platform names in `String` order. */
  function ListCpuPlatforms(projectId: Option<string>, zoneLink: Option<string>,
                            platforms: string -> Option<seq<string>>): (r: Result<seq<string>>)
    ensures r.Err? <==> IsNullOrEmpty(projectId) || IsNullOrEmpty(zoneLink)
    ensures r.Ok? ==> SortedBy(StringLeq, r.value)
    ensures r.Ok? ==> var fetched := platforms(NameFromSelfLink(zoneLink).value);
      && (fetched.Some? ==> multiset(r.value) == multiset(fetched.value))
      && (fetched.None? ==> r.value == [])
  {
    if IsNullOrEmpty(projectId) || IsNullOrEmpty(zoneLink) then Err(IllegalArgument(""))
    else
      var zone := NameFromSelfLink(zoneLink).value;
      StringOrderIsTotalPreorder();
      Ok(SortResourceList(platforms(zone), StringLeq))
  }

  /** The machine types of the client's test: "b", "a", "z" and a deprecated "d". */
  function TestMachineTypes(zone: string): Option<seq<Resource>> {
    Some([Resource("b", None), Resource("a", None), Resource("z", None),
          Resource("d", Some(DeprecationStatus("DEPRECATED")))])
  }

  lemma TestMachineTypesFiltered()
    ensures Filter(TestMachineTypes("test").value, NotDeprecated)
         == [Resource("b", None), Resource("a", None), Resource("z", None)]
  {
    var a, b, z, d := Resource("b", None), Resource("a", None), Resource("z", None),
                      Resource("d", Some(DeprecationStatus("DEPRECATED")));
    var s := [a, b, z, d];
    assert s[1..] == [b, z, d] && s[1..][1..] == [z, d] && s[1..][1..][1..] == [d] && [d][1..] == [];
    assert IsDeprecated(d.deprecated);
  }

  lemma TestMachineTypesSorted()
    ensures TotalPreorder(Comparing(ResourceName))
    ensures InsertionSort([Resource("b", None), Resource("a", None), Resource("z", None)], Comparing(ResourceName))
         == [Resource("a", None), Resource("b", None), Resource("z", None)]
  {
    ComparingIsTotalPreorder(ResourceName);
    var a, b, z := Resource("a", None), Resource("b", None), Resource("z", None);
    assert ResourceName(a) == "a" && ResourceName(b) == "b" && ResourceName(z) == "z";
    assert "a"[0] == 'a' && "b"[0] == 'b' && "z"[0] == 'z';
    FirstCharDecides("a", "z");
    FirstCharDecides("b", "z");
    FirstCharDecides("b", "a");
    SortThreeMiddle(b, a, z, Comparing(ResourceName));
  }

  lemma TestMachineTypesProcessed()
    ensures TotalPreorder(Comparing(ResourceName))
    ensures ProcessResourceList(TestMachineTypes("test"), NotDeprecated, Comparing(ResourceName))
         == [Resource("a", None), Resource("b", None), Resource("z", None)]
  {
    TestMachineTypesFiltered();
    TestMachineTypesSorted();
  }

  /** The deprecated machine type is dropped and the rest come sorted by name. */
  lemma ListMachineTypesExample()
    ensures ListZoneResources(Some("test-project"), Some("test"), TestMachineTypes)
         == Ok([Resource("a", None), Resource("b", None), Resource("z", None)])
  {
    ListTestMachineTypes();
    TestMachineTypesProcessed();
  }

  /** Given a bare zone name, the list is fetched for that zone. */
  lemma ListZoneResourcesOfName(projectId: string, zone: string, fetch: string -> Option<seq<Resource>>)
    requires projectId != [] && zone != [] && '/' !in zone
    ensures TotalPreorder(Comparing(ResourceName))
    ensures ListZoneResources(Some(projectId), Some(zone), fetch)
         == Ok(ProcessResourceList(fetch(zone), NotDeprecated, Comparing(ResourceName)))
  {
    NameFromSelfLinkOfName(zone);
    ComparingIsTotalPreorder(ResourceName);
  }

  lemma ListTestMachineTypes()
    ensures TotalPreorder(Comparing(ResourceName))
    ensures ListZoneResources(Some("test-project"), Some("test"), TestMachineTypes)
         == Ok(ProcessResourceList(TestMachineTypes("test"), NotDeprecated, Comparing(ResourceName)))
  {
    ListZoneResourcesOfName("test-project", "test", TestMachineTypes);
  }

  // ---------------------------------------------------------------------------
  // instances

  /** The two insert calls of `insertInstance`. */
  datatype InsertCall =
    | InsertWithTemplate(projectId: string, zone: string, templateLink: string)
    | PlainInsert(projectId: string, zone: string)

  /** The field of an `Instance` that `insertInstance` reads: its zone link. */
  datatype Instance = Instance(zone: Option<string>)

  /** `insertInstance`: the zone is the name in the instance's zone link; the
      template call is made exactly when the template link is present and not
      empty. */
  function InsertInstance(projectId: Option<string>, templateLink: Option<string>,
                          instance: Option<Instance>): (r: Result<InsertCall>)
    ensures IsNullOrEmpty(projectId) ==> r == Err(IllegalArgument(""))
    ensures !IsNullOrEmpty(projectId) && instance.None? ==> r == Err(NullPointer)
    ensures !IsNullOrEmpty(projectId) && instance.Some? && IsNullOrEmpty(instance.value.zone)
      ==> r == Err(IllegalArgument(""))
    ensures r.Ok? <==> !IsNullOrEmpty(projectId) && instance.Some? && !IsNullOrEmpty(instance.value.zone)
    ensures r.Ok? ==> r.value.projectId == projectId.value
    ensures r.Ok? ==> Ok(r.value.zone) == NameFromSelfLink(instance.value.zone)
    ensures r.Ok? ==> (r.value.InsertWithTemplate? <==> !IsNullOrEmpty(templateLink))
    ensures r.Ok? && r.value.InsertWithTemplate? ==> r.value.templateLink == templateLink.value
  {
    if IsNullOrEmpty(projectId) then Err(IllegalArgument(""))
    else if instance.None? then Err(NullPointer)
    else
      var zone :- NameFromSelfLink(instance.value.zone);
      if templateLink.Some? && templateLink.value != [] then Ok(InsertWithTemplate(projectId.value, zone, templateLink.value))
      else Ok(PlainInsert(projectId.value, zone))
  }

  /** The non-null instance lists of an aggregated listing, concatenated. */
  function Concat<T>(lists: seq<Option<seq<T>>>): seq<T> {
    if lists == [] then []
    else Concat(lists[..|lists| - 1]) + (if lists[|lists| - 1].Some? then lists[|lists| - 1].value else [])
  }

  /** An instance is listed exactly when one of the scoped lists holds it. */
  lemma {:induction false} ConcatMembers<T>(lists: seq<Option<seq<T>>>, x: T)
    ensures x in Concat(lists) <==> exists i :: 0 <= i < |lists| && lists[i].Some? && x in lists[i].value
    decreases |lists|
  {
    if lists != [] {
      var init := lists[..|lists| - 1];
      var n := |init|;
      var tail := if lists[n].Some? then lists[n].value else [];
      assert Concat(lists) == Concat(init) + tail;
      ConcatMembers(init, x);
      if x in Concat(init) {
        var i :| 0 <= i < n && init[i].Some? && x in init[i].value;
        assert lists[i] == init[i];
      } else if x in tail {
        assert lists[n].Some? && x in lists[n].value;
      }
      if exists i :: 0 <= i < |lists| && lists[i].Some? && x in lists[i].value {
        var i :| 0 <= i < |lists| && lists[i].Some? && x in lists[i].value;
        if i < n {
          assert init[i] == lists[i];
        }
      }
    }
  }

  /** `listInstancesWithLabel`: queries with the labels' filter string and
      collects the instances of every scope. `aggregated` answers for a filter
      with the values of the returned map, in its iteration order. */
  method ListInstancesWithLabel<T>(projectId: Option<string>, labels: Option<seq<(string, string)>>,
                                   aggregated: string -> seq<Option<seq<T>>>) returns (r: Result<seq<T>>)
    ensures IsNullOrEmpty(projectId) ==> r == Err(IllegalArgument(""))
    ensures !IsNullOrEmpty(projectId) && labels.None? ==> r == Err(NullPointer)
    ensures !IsNullOrEmpty(projectId) && labels.Some? ==> r == Ok(Concat(aggregated(LabelsFilter(labels.value))))
  {
    if IsNullOrEmpty(projectId) {
      return Err(IllegalArgument(""));
    }
    if labels.None? {
      return Err(NullPointer);
    }
    var filter := BuildLabelsFilterString(labels.value);
    var result := aggregated(filter);
    var instances: seq<T> := [];
    for i := 0 to |result|
      invariant instances == Concat(result[..i])
    {
      if result[i].Some? {
        instances := instances + result[i].value;
      }
      assert result[..i + 1][..i] == result[..i];
    }
    assert result[..|result|] == result;
    return Ok(instances);
  }

  // ---------------------------------------------------------------------------
  // Waiting for a zone operation

  /** The `Operation.Error` of an operation: its error codes. */
  datatype OperationError = OperationError(codes: seq<string>)

  /** The fields of an `Operation` that the wait reads or returns. */
  datatype Operation = Operation(name: Option<string>, zone: Option<string>,
                                 status: Option<string>, error: Option<OperationError>)

  /** `new Operation()`: every field null. */
  const BlankOperation := Operation(None, None, None, None)

  /** `isOperationDone`: null is not done; otherwise done iff the status is
      "DONE"; a null status throws. */
  function IsOperationDone(operation: Option<Operation>): (r: Result<bool>)
    ensures operation.None? ==> r == Ok(false)
    ensures operation.Some? && operation.value.status.None? ==> r == Err(NullPointer)
    ensures r == Ok(true) <==> operation.Some? && operation.value.status == Some("DONE")
  {
    if operation.None? then Ok(false)
    else if operation.value.status.None? then Err(NullPointer)
    else Ok(operation.value.status.value == "DONE")
  }

  /** What one poll of the wait saw: the zone operation, or an `IOException`. */
  datatype Poll = FetchFailed | Fetched(operation: Operation)

  const TimeoutMessage := "Timed out waiting for operation to complete."

  /** The wait after its argument checks, over the polls that fit before the
      timeout: a failed fetch is retried, each fetched operation's error is
      copied into the holder, the first done operation ends the wait, and no
      done operation means a timeout. The holder is what is returned. */
  function AwaitOperation(polls: seq<Poll>, holder: Operation): (r: Result<Operation>)
    ensures r.Ok? ==> r.value.error.None?
    decreases |polls|
  {
    if polls == [] then Err(Interrupted(TimeoutMessage))
    else match polls[0]
      case FetchFailed => AwaitOperation(polls[1..], holder)
      case Fetched(op) =>
        var held := holder.(error := op.error);
        match IsOperationDone(Some(op))
        case Err(e) => Err(e)
        case Ok(done) =>
          if !done then AwaitOperation(polls[1..], held)
          else if held.error.Some? then Err(OperationFailed(held.error.value.codes))
          else Ok(held)
  }

  predicate IsDone(p: Poll) { p.Fetched? && p.operation.status == Some("DONE") }

  /** A poll that would throw: a fetched operation without status. */
  predicate IsBroken(p: Poll) { p.Fetched? && p.operation.status.None? }

  /** The wait ends at the first done poll: with `OperationException` when
      that operation carries an error, otherwise with the holder, whose error
      the last copy has cleared. */
  lemma {:induction false} AwaitEndsAtFirstDone(polls: seq<Poll>, holder: Operation, k: nat)
    requires k < |polls| && IsDone(polls[k])
    requires forall j :: 0 <= j < k ==> !IsDone(polls[j]) && !IsBroken(polls[j])
    ensures polls[k].operation.error.Some? ==>
      AwaitOperation(polls, holder) == Err(OperationFailed(polls[k].operation.error.value.codes))
    ensures polls[k].operation.error.None? ==> AwaitOperation(polls, holder) == Ok(holder.(error := None))
    decreases k
  {
    if k > 0 {
      var held := if polls[0].FetchFailed? then holder else holder.(error := polls[0].operation.error);
      AwaitEndsAtFirstDone(polls[1..], held, k - 1);
      assert held.(error := None) == holder.(error := None);
    }
  }

  /** A fetched operation without status ends the wait: `isOperationDone`
      throws NullPointerException and the wait passes it on. */
  lemma {:induction false} AwaitEndsAtFirstBroken(polls: seq<Poll>, holder: Operation, k: nat)
    requires k < |polls| && IsBroken(polls[k])
    requires forall j :: 0 <= j < k ==> !IsDone(polls[j]) && !IsBroken(polls[j])
    ensures AwaitOperation(polls, holder) == Err(NullPointer)
    decreases k
  {
    if k > 0 {
      var held := if polls[0].FetchFailed? then holder else holder.(error := polls[0].operation.error);
      AwaitEndsAtFirstBroken(polls[1..], held, k - 1);
    }
  }

  /** Without a done poll (and without a broken one) the wait times out. */
  lemma {:induction false} AwaitTimesOut(polls: seq<Poll>, holder: Operation)
    requires forall j :: 0 <= j < |polls| ==> !IsDone(polls[j]) && !IsBroken(polls[j])
    ensures AwaitOperation(polls, holder) == Err(Interrupted(TimeoutMessage))
    decreases |polls|
  {
    if polls != [] {
      var held := if polls[0].FetchFailed? then holder else holder.(error := polls[0].operation.error);
      AwaitTimesOut(polls[1..], held);
    }
  }

  /** A success always comes from a done operation without error. */
  lemma {:induction false} AwaitSuccessHasCause(polls: seq<Poll>, holder: Operation)
    requires AwaitOperation(polls, holder).Ok?
    ensures exists k :: 0 <= k < |polls| && IsDone(polls[k]) && polls[k].operation.error.None?
    decreases |polls|
  {
    if polls[0].FetchFailed? || !IsDone(polls[0]) {
      var held := if polls[0].FetchFailed? then holder else holder.(error := polls[0].operation.error);
      AwaitSuccessHasCause(polls[1..], held);
      var k :| 0 <= k < |polls[1..]| && IsDone(polls[1..][k]) && polls[1..][k].operation.error.None?;
      assert polls[k + 1] == polls[1..][k];
    }
  }

  /** Failed fetches change nothing. */
  lemma AwaitSkipsFailedFetches(polls: seq<Poll>, holder: Operation)
    ensures AwaitOperation([FetchFailed] + polls, holder) == AwaitOperation(polls, holder)
  {
    assert ([FetchFailed] + polls)[1..] == polls;
  }

  /** `waitForOperationCompletion(projectId, operationName, zoneLink, timeout)`. */
  method WaitForOperationCompletion(projectId: Option<string>, operationName: Option<string>,
                                    zoneLink: Option<string>, timeout: int, polls: seq<Poll>)
    returns (r: Result<Operation>)
    ensures IsNullOrEmpty(projectId) || IsNullOrEmpty(operationName) || IsNullOrEmpty(zoneLink) || timeout <= 0
      ==> r == Err(IllegalArgument(""))
    ensures !IsNullOrEmpty(projectId) && !IsNullOrEmpty(operationName) && !IsNullOrEmpty(zoneLink) && timeout > 0
      ==> r == AwaitOperation(polls, BlankOperation)
  {
    if IsNullOrEmpty(projectId) || IsNullOrEmpty(operationName) || IsNullOrEmpty(zoneLink) || timeout <= 0 {
      return Err(IllegalArgument(""));
    }
    var operation := BlankOperation;
    var i := 0;
    while i < |polls|
      invariant 0 <= i <= |polls|
      invariant AwaitOperation(polls, BlankOperation) == AwaitOperation(polls[i..], operation)
    {
      assert polls[i..][1..] == polls[i + 1..];
      if polls[i].Fetched? {
        var op := polls[i].operation;
        operation := operation.(error := op.error);
        var done := IsOperationDone(Some(op));
        if done.Err? {
          return Err(done.error);
        }
        if done.value {
          if operation.error.Some? {
            return Err(OperationFailed(operation.error.value.codes));
          }
          return Ok(operation);
        }
      }
      i := i + 1;
    }
    return Err(Interrupted(TimeoutMessage));
  }

  /** `waitForOperationCompletion(projectId, operation, timeout)`: a null
      operation throws; otherwise its name and zone are waited on. */
  method WaitForOperation(projectId: Option<string>, operation: Option<Operation>, timeout: int, polls: seq<Poll>)
    returns (r: Result<Operation>)
    ensures operation.None? ==> r == Err(NullPointer)
    ensures operation.Some? ==>
      var op := operation.value;
      if IsNullOrEmpty(projectId) || IsNullOrEmpty(op.name) || IsNullOrEmpty(op.zone) || timeout <= 0
      then r == Err(IllegalArgument(""))
      else r == AwaitOperation(polls, BlankOperation)
  {
    if operation.None? {
      return Err(NullPointer);
    }
    r := WaitForOperationCompletion(projectId, operation.value.name, operation.value.zone, timeout, polls);
  }

  /** What the wait returns: the blank holder, not the operation that was
      polled to completion, whatever that operation's name or other fields. */
  lemma AwaitReturnsBlankHolder(op: Operation)
    requires op.status == Some("DONE") && op.error.None? && op.name.Some?
    ensures AwaitOperation([Fetched(op)], BlankOperation) == Ok(BlankOperation)
    ensures AwaitOperation([Fetched(op)], BlankOperation) != Ok(op)
  {
  }

  /** The wait as documented: it returns the final state of the operation. */
  function AwaitFinalOperation(polls: seq<Poll>): (r: Result<Operation>)
    ensures r.Ok? ==> r.value.status == Some("DONE") && r.value.error.None?
    decreases |polls|
  {
    if polls == [] then Err(Interrupted(TimeoutMessage))
    else match polls[0]
      case FetchFailed => AwaitFinalOperation(polls[1..])
      case Fetched(op) =>
        match IsOperationDone(Some(op))
        case Err(e) => Err(e)
        case Ok(done) =>
          if !done then AwaitFinalOperation(polls[1..])
          else if op.error.Some? then Err(OperationFailed(op.error.value.codes))
          else Ok(op)
  }

  /** The documented wait fails exactly when the one as written fails, and on
      success returns the first done operation. */
  lemma {:induction false} AwaitFinalOperationAgrees(polls: seq<Poll>, holder: Operation)
    ensures AwaitFinalOperation(polls).Err? <==> AwaitOperation(polls, holder).Err?
    ensures AwaitFinalOperation(polls).Err? ==> AwaitFinalOperation(polls) == AwaitOperation(polls, holder)
    ensures AwaitFinalOperation(polls).Ok? ==>
      exists k :: 0 <= k < |polls| && polls[k].Fetched? && AwaitFinalOperation(polls).value == polls[k].operation
                  && IsDone(polls[k]) && forall j :: 0 <= j < k ==> !IsDone(polls[j])
    decreases |polls|
  {
    if polls != [] {
      var held := if polls[0].FetchFailed? then holder else holder.(error := polls[0].operation.error);
      AwaitFinalOperationAgrees(polls[1..], held);
      if !IsDone(polls[0]) && AwaitFinalOperation(polls).Ok? {
        var k :| 0 <= k < |polls[1..]| && polls[1..][k].Fetched?
                 && AwaitFinalOperation(polls[1..]).value == polls[1..][k].operation
                 && IsDone(polls[1..][k]) && forall j :: 0 <= j < k ==> !IsDone(polls[1..][j]);
        assert polls[k + 1] == polls[1..][k];
        forall j | 0 <= j < k + 1 ensures !IsDone(polls[j]) {
          if j > 0 {
            assert polls[j] == polls[1..][j - 1];
          }
        }
      }
    }
  }
}
