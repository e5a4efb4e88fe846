/** Helpers shared by every client: filtering and sorting resource lists,
    taking the name off a self link, building request filter strings and
    parsing an instance self link.
 */
module ClientUtil {
  import opened Wrappers
  import opened JavaStrings
  import opened StreamSort

  // ---------------------------------------------------------------------------
  // processResourceList

  /** `processResourceList(items, filter, comparator)`: null gives the empty
      list; otherwise the kept items, stably sorted. */
  function ProcessResourceList<T(!new)>(items: Option<seq<T>>, keep: T -> bool, leq: (T, T) -> bool): (r: seq<T>)
    requires TotalPreorder(leq)
    ensures items.None? ==> r == []
    ensures SortedBy(leq, r)
    ensures forall i :: 0 <= i < |r| ==> keep(r[i])
    ensures items.Some? ==> multiset(r) == multiset(Filter(items.value, keep))
  {
    if items.None? then []
    else
      var kept := Filter(items.value, keep);
      var sorted := InsertionSort(kept, leq);
      InsertionSortPermutes(kept, leq);
      PermutationKeepsAll(sorted, kept, keep);
      sorted
  }

  /** Each item survives exactly as often as it occurs, if it is kept. */
  lemma ProcessResourceListKeepsExactlyTheKept<T(!new)>(items: seq<T>, keep: T -> bool, leq: (T, T) -> bool, x: T)
    requires TotalPreorder(leq)
    ensures multiset(ProcessResourceList(Some(items), keep, leq))[x] == if keep(x) then multiset(items)[x] else 0
  {
    FilterMultiset(items, keep, x);
  }

  /** Items the comparator cannot tell apart keep their input order. */
  lemma ProcessResourceListIsStable<T(!new)>(items: seq<T>, keep: T -> bool, leq: (T, T) -> bool, e: T)
    requires TotalPreorder(leq)
    ensures Filter(ProcessResourceList(Some(items), keep, leq), ClassOf(leq, e))
         == Filter(Filter(items, keep), ClassOf(leq, e))
  {
    InsertionSortIsStable(Filter(items, keep), leq, e);
  }

  /** The result is the only ordered, stable arrangement of the kept items, so
      it is what any stable sort (the JDK's included) returns. */
  lemma ProcessResourceListIsAnyStableSort<T(!new)>(items: seq<T>, keep: T -> bool, leq: (T, T) -> bool, r: seq<T>)
    requires TotalPreorder(leq)
    requires SortedBy(leq, r)
    requires SameClasses(leq, r, Filter(items, keep))
    ensures ProcessResourceList(Some(items), keep, leq) == r
  {
    StableSortIsUnique(Filter(items, keep), r, leq);
  }

  /** `processResourceList(items, comparator)`: the overload that keeps all. */
  function SortResourceList<T(!new)>(items: Option<seq<T>>, leq: (T, T) -> bool): (r: seq<T>)
    requires TotalPreorder(leq)
    ensures items.None? ==> r == []
    ensures items.Some? ==> multiset(r) == multiset(items.value)
    ensures items.Some? ==> r == InsertionSort(items.value, leq)
    ensures SortedBy(leq, r)
  {
    FilterKeepAll(if items.None? then [] else items.value);
    ProcessResourceList(items, KeepAll(), leq)
  }

  /** `Comparator.comparing(key)` over `String.compareTo`. */
  function Comparing<T>(key: T -> string): (T, T) -> bool {
    (a: T, b: T) => StringLeq(key(a), key(b))
  }

  lemma StringOrderIsTotalPreorder()
    ensures TotalPreorder(StringLeq)
  {
    forall a, b ensures StringLeq(a, b) || StringLeq(b, a) {
      StringLeqTotal(a, b);
    }
    forall a, b, c | StringLeq(a, b) && StringLeq(b, c) ensures StringLeq(a, c) {
      StringLeqTransitive(a, b, c);
    }
  }

  lemma ComparingIsTotalPreorder<T(!new)>(key: T -> string)
    ensures TotalPreorder(Comparing(key))
  {
    var leq := Comparing(key);
    forall a, b ensures leq(a, b) || leq(b, a) {
      StringLeqTotal(key(a), key(b));
    }
    forall a, b, c | leq(a, b) && leq(b, c) ensures leq(a, c) {
      StringLeqTransitive(key(a), key(b), key(c));
    }
  }

  /** The list calls that only check their arguments and sort the answer by a
      name key: every argument must be present and non-empty, then the
      fetched list (null meaning none) comes back sorted by the key. */
  function ListSortedByKey<T(!new)>(args: seq<Option<string>>, fetched: Option<seq<T>>, key: T -> string): (r: Result<seq<T>>)
    ensures r.Err? <==> !AllPresent(args)
    ensures r.Err? ==> r.error == IllegalArgument("")
    ensures r.Ok? ==> SortedBy(Comparing(key), r.value)
    ensures r.Ok? && fetched.Some? ==> multiset(r.value) == multiset(fetched.value)
    ensures r.Ok? && fetched.None? ==> r.value == []
  {
    if !AllPresent(args) then Err(IllegalArgument(""))
    else
      ComparingIsTotalPreorder(key);
      Ok(SortResourceList(fetched, Comparing(key)))
  }

  /** A key that may be null, read as the empty string where it is null. */
  function KeyOrEmpty<T(!new)>(key: T -> Option<string>): (k: T -> string)
    ensures forall x :: key(x).Some? ==> k(x) == key(x).value
    ensures forall x :: key(x).None? ==> k(x) == ""
  {
    (x: T) => if key(x).Some? then key(x).value else ""
  }

  predicate AllKeysPresent<T>(items: seq<T>, key: T -> Option<string>) {
    forall i :: 0 <= i < |items| ==> key(items[i]).Some?
  }

  /** `processResourceList(items, Comparator.comparing(key))` for a key that
      may be null. `compareTo` on a null key, or with one as its argument,
      throws, and sorting two or more elements compares every one of them, so
      a null key among two or more items throws; one item is never compared. */
  function SortByNullableKey<T(!new)>(items: Option<seq<T>>, key: T -> Option<string>): (r: Result<seq<T>>)
    ensures r.Err? <==> items.Some? && |items.value| >= 2 && !AllKeysPresent(items.value, key)
    ensures r.Err? ==> r.error == NullPointer
    ensures r.Ok? ==> SortedBy(Comparing(KeyOrEmpty(key)), r.value)
    ensures r.Ok? && items.Some? ==> multiset(r.value) == multiset(items.value)
    ensures r.Ok? && items.None? ==> r.value == []
    ensures r.Ok? && items.Some? ==>
      TotalPreorder(Comparing(KeyOrEmpty(key))) && r.value == InsertionSort(items.value, Comparing(KeyOrEmpty(key)))
  {
    if items.Some? && |items.value| >= 2 && !AllKeysPresent(items.value, key) then Err(NullPointer)
    else
      ComparingIsTotalPreorder(KeyOrEmpty(key));
      Ok(SortResourceList(items, Comparing(KeyOrEmpty(key))))
  }

  /** Sorting with `String::compareTo` yields the strings in lexicographic
      order; under that order equal means identical, so the result is unique. */
  lemma SortStringsExample()
    ensures TotalPreorder(StringLeq)
    ensures SortResourceList(Some(["test", "example", "foo"]), StringLeq) == ["example", "foo", "test"]
  {
    StringOrderIsTotalPreorder();
    var a, b, c := "test", "example", "foo";
    assert a[0] == 't' && b[0] == 'e' && c[0] == 'f';
    FirstCharDecides(b, c);
    FirstCharDecides(a, b);
    FirstCharDecides(a, c);
    SortThreeLast(a, b, c, StringLeq);
    FilterKeepAll([a, b, c]);
  }

  lemma SortNullOrEmptyExample()
    ensures TotalPreorder(StringLeq)
    ensures SortResourceList(None, StringLeq) == []
    ensures SortResourceList(Some([]), StringLeq) == []
  {
    StringOrderIsTotalPreorder();
  }

  /** A zone as (name, region). */
  function ZoneName(z: (string, string)): string { z.0 }

  /** The test's filter: zones whose region is not "us-east2". */
  predicate OutsideUsEast2(z: (string, string)) { z.1 != "us-east2" }

  /** Zones outside "us-east2", sorted by name. */
  lemma FilterZonesExample()
    ensures TotalPreorder(Comparing(ZoneName))
    ensures ProcessResourceList(
              Some([("us-west1-a", "us-west1"), ("us-central1-b", "us-central1"), ("us-east2-c", "us-east2")]),
              OutsideUsEast2, Comparing(ZoneName))
         == [("us-central1-b", "us-central1"), ("us-west1-a", "us-west1")]
  {
    ComparingIsTotalPreorder(ZoneName);
    var a, b, c := ("us-west1-a", "us-west1"), ("us-central1-b", "us-central1"), ("us-east2-c", "us-east2");
    var s := [a, b, c];
    assert s[1..] == [b, c] && s[1..][1..] == [c] && s[1..][1..][1..] == [];
    assert OutsideUsEast2(a) && OutsideUsEast2(b) && !OutsideUsEast2(c);
    assert Filter([c], OutsideUsEast2) == [];
    assert Filter([b, c], OutsideUsEast2) == [b];
    assert Filter(s, OutsideUsEast2) == [a, b];
    assert !StringLeq(ZoneName(a), ZoneName(b));
    assert !Comparing(ZoneName)(a, b);
    assert [a, b][1..] == [b] && [b][1..] == [];
    assert InsertionSort([b], Comparing(ZoneName)) == [b];
    assert Insert(a, [], Comparing(ZoneName)) == [a];
    assert Insert(a, [b], Comparing(ZoneName)) == [b, a];
  }

  // ---------------------------------------------------------------------------
  // nameFromSelfLink

  /** Everything after the last '/', or the whole link when there is none;
      null or empty fails the argument check. */
  function NameFromSelfLink(selfLink: Option<string>): (r: Result<string>)
    ensures r.Err? <==> IsNullOrEmpty(selfLink)
    ensures r.Err? ==> r.error == IllegalArgument("")
    ensures r.Ok? ==> var s := selfLink.value;
      && '/' !in r.value
      && |r.value| <= |s|
      && s[|s| - |r.value|..] == r.value
      && (|r.value| < |s| ==> s[|s| - |r.value| - 1] == '/')
  {
    if IsNullOrEmpty(selfLink) then Err(IllegalArgument(""))
    else
      var s := selfLink.value;
      var k := LastIndexOf(s, '/');
      Ok(s[k + 1..])
  }

  /** The name of `parent/name` is `name`, whatever the parent. */
  lemma NameFromSelfLinkOfPath(parent: string, name: string)
    requires '/' !in name
    ensures NameFromSelfLink(Some(parent + "/" + name)) == Ok(name)
  {
    var s := parent + "/" + name;
    assert s[|parent|] == '/';
    assert s[|parent| + 1..] == name;
    var k := LastIndexOf(s, '/');
    assert forall j :: k < j < |s| ==> s[k + 1..][j - k - 1] == s[j];
    assert forall j :: |parent| < j < |s| ==> s[j] == name[j - |parent| - 1];
  }

  /** A link without '/' is already a name. */
  lemma NameFromSelfLinkOfName(name: string)
    requires name != [] && '/' !in name
    ensures NameFromSelfLink(Some(name)) == Ok(name)
  {
  }

  /** Taking the name of a non-empty name changes nothing. */
  lemma NameFromSelfLinkIdempotent(selfLink: Option<string>)
    requires NameFromSelfLink(selfLink).Ok? && NameFromSelfLink(selfLink).value != []
    ensures NameFromSelfLink(Some(NameFromSelfLink(selfLink).value)) == NameFromSelfLink(selfLink)
  {
    NameFromSelfLinkOfName(NameFromSelfLink(selfLink).value);
  }

  /** The zone self link of the client tests gives the zone's name. */
  lemma NameFromZoneSelfLinkExample()
    ensures NameFromSelfLink(Some("https://www.googleapis.com/compute/v1/projects/evandbrown17/zones/asia-east1-a"))
         == Ok("asia-east1-a")
  {
    var parent := "https://www.googleapis.com/compute/v1/projects/evandbrown17/zones";
    var link := "https://www.googleapis.com/compute/v1/projects/evandbrown17/zones/asia-east1-a";
    assert parent + "/" + "asia-east1-a" == link by {
      assert |parent + "/" + "asia-east1-a"| == |link|;
    }
    NameFromSelfLinkOfPath(parent, "asia-east1-a");
  }

  lemma NameFromSelfLinkExamples()
    ensures NameFromSelfLink(Some("asia-east1-a")) == Ok("asia-east1-a")
    ensures NameFromSelfLink(None).Err? && NameFromSelfLink(Some("")).Err?
  {
    NameFromSelfLinkOfName("asia-east1-a");
  }

  // ---------------------------------------------------------------------------
  // buildLabelsFilterString

  /** "(labels.key eq value)". */
  function LabelClause(entry: (string, string)): string {
    "(labels." + entry.0 + " eq " + entry.1 + ")"
  }

  /** The clauses of the labels, in iteration order, one space apart. */
  function LabelsFilter(labels: seq<(string, string)>): string {
    Join(seq(|labels|, i requires 0 <= i < |labels| => LabelClause(labels[i])), " ")
  }

  lemma LabelsFilterSnoc(labels: seq<(string, string)>, entry: (string, string))
    ensures LabelsFilter(labels + [entry])
         == if labels == [] then LabelClause(entry) else LabelsFilter(labels) + " " + LabelClause(entry)
  {
    var cs := seq(|labels|, i requires 0 <= i < |labels| => LabelClause(labels[i]));
    var ls := labels + [entry];
    assert seq(|ls|, i requires 0 <= i < |ls| => LabelClause(ls[i])) == cs + [LabelClause(entry)];
    JoinSnoc(cs, LabelClause(entry), " ");
  }

  /** A non-empty filter starts with '(' and ends with ')'. */
  lemma {:induction false} LabelsFilterBrackets(labels: seq<(string, string)>)
    requires labels != []
    ensures var f := LabelsFilter(labels); f != [] && f[0] == '(' && f[|f| - 1] == ')'
    decreases |labels|
  {
    if |labels| > 1 {
      var init := labels[..|labels| - 1];
      assert labels == init + [labels[|labels| - 1]];
      LabelsFilterSnoc(init, labels[|labels| - 1]);
      LabelsFilterBrackets(init);
    } else {
      assert labels == [] + [labels[0]];
      LabelsFilterSnoc([], labels[0]);
    }
  }

  /** One round of the builder: the text so far, then the clause and a space. */
  lemma LabelsBuilderStep(labels: seq<(string, string)>, i: nat, sb: string)
    requires i < |labels|
    requires sb == if i == 0 then "" else LabelsFilter(labels[..i]) + " "
    ensures sb + "(labels." + labels[i].0 + " eq " + labels[i].1 + ") " == LabelsFilter(labels[..i + 1]) + " "
  {
    assert sb + "(labels." + labels[i].0 + " eq " + labels[i].1 + ") " == sb + LabelClause(labels[i]) + " ";
    assert labels[..i + 1] == labels[..i] + [labels[i]];
    LabelsFilterSnoc(labels[..i], labels[i]);
  }

  /** `buildLabelsFilterString`: appends "(labels.k eq v) " per entry, then trims. */
  method BuildLabelsFilterString(labels: seq<(string, string)>) returns (r: string)
    ensures r == LabelsFilter(labels)
  {
    var sb := "";
    for i := 0 to |labels|
      invariant sb == if i == 0 then "" else LabelsFilter(labels[..i]) + " "
    {
      LabelsBuilderStep(labels, i, sb);
      sb := sb + "(labels." + labels[i].0 + " eq " + labels[i].1 + ") ";
    }
    assert labels[..|labels|] == labels;
    if labels != [] {
      LabelsFilterBrackets(labels);
      TrimOfSpaced(LabelsFilter(labels));
    }
    r := Trim(sb);
  }

  lemma LabelsFilterExample()
    ensures LabelClause(("key1", "value1")) == "(labels.key1 eq value1)"
    ensures LabelClause(("key2", "value2")) == "(labels.key2 eq value2)"
    ensures LabelsFilter([("key1", "value1"), ("key2", "value2")])
         == LabelClause(("key1", "value1")) + " " + LabelClause(("key2", "value2"))
  {
    LabelsFilterSnoc([("key1", "value1")], ("key2", "value2"));
    LabelsFilterSnoc([], ("key1", "value1"));
    assert [("key1", "value1")] + [("key2", "value2")] == [("key1", "value1"), ("key2", "value2")];
  }

  // ---------------------------------------------------------------------------
  // buildFilterString

  /** `key="value"`. */
  function FilterClause(filter: (string, string)): string {
    filter.0 + "=\"" + filter.1 + "\""
  }

  /** The clauses of the filters, in iteration order, joined with " AND ". */
  function FilterString(filters: seq<(string, string)>): string {
    Join(seq(|filters|, i requires 0 <= i < |filters| => FilterClause(filters[i])), " AND ")
  }

  lemma FilterStringSnoc(filters: seq<(string, string)>, filter: (string, string))
    ensures FilterString(filters + [filter])
         == if filters == [] then FilterClause(filter) else FilterString(filters) + " AND " + FilterClause(filter)
  {
    var cs := seq(|filters|, i requires 0 <= i < |filters| => FilterClause(filters[i]));
    var fs := filters + [filter];
    assert seq(|fs|, i requires 0 <= i < |fs| => FilterClause(fs[i])) == cs + [FilterClause(filter)];
    JoinSnoc(cs, FilterClause(filter), " AND ");
  }

  /** The filter string of the first `i` filters extends that of the first `i - 1`. */
  lemma FilterStringPrefix(filters: seq<(string, string)>, i: nat)
    requires 0 < i <= |filters|
    ensures FilterString(filters[..i])
         == if i == 1 then FilterClause(filters[0]) else FilterString(filters[..i - 1]) + " AND " + FilterClause(filters[i - 1])
    ensures i == |filters| ==> filters[..i] == filters
  {
    assert filters[..i] == filters[..i - 1] + [filters[i - 1]];
    FilterStringSnoc(filters[..i - 1], filters[i - 1]);
  }

  /** A non-empty filter string ends with the closing quote and starts with
      the first key (or, for an empty first key, with "="). */
  lemma {:induction false} FilterStringEnds(filters: seq<(string, string)>)
    requires filters != []
    ensures var f := FilterString(filters);
      && f != [] && f[|f| - 1] == '"'
      && StartsWith(f, FilterClause(filters[0]))
    decreases |filters|
  {
    var init := filters[..|filters| - 1];
    var last := filters[|filters| - 1];
    assert filters == init + [last];
    FilterStringSnoc(init, last);
    ClauseEndsWithQuote(last);
    if |filters| > 1 {
      FilterStringEnds(init);
      assert init[0] == filters[0];
      AppendKeepsPrefix(FilterString(init), " AND " + FilterClause(last), FilterClause(filters[0]));
    } else {
      AppendKeepsPrefix(FilterClause(last), [], FilterClause(last));
    }
  }

  lemma ClauseEndsWithQuote(filter: (string, string))
    ensures var c := FilterClause(filter); c != [] && c[|c| - 1] == '"'
  {
  }

  /** Appending keeps a prefix and puts the tail's last character at the end. */
  lemma AppendKeepsPrefix(f: string, tail: string, prefix: string)
    requires StartsWith(f, prefix) || f == prefix
    ensures StartsWith(f + tail, prefix)
    ensures tail != [] ==> (f + tail)[|f + tail| - 1] == tail[|tail| - 1]
    ensures tail == [] ==> f + tail == f
  {
    assert (f + tail)[..|prefix|] == f[..|prefix|];
  }

  /** What trimming does to the builder's final text. */
  lemma TrimFilterString(filters: seq<(string, string)>)
    requires filters != []
    ensures Trim(FilterString(filters) + " ") == TrimStart(FilterString(filters))
    ensures filters[0].0 == [] || !IsTrimmed(filters[0].0[0]) ==> TrimStart(FilterString(filters)) == FilterString(filters)
  {
    FilterStringEnds(filters);
    TrimOfSpaced(FilterString(filters));
    var f := FilterString(filters);
    if filters[0].0 == [] || !IsTrimmed(filters[0].0[0]) {
      assert f[0] == FilterClause(filters[0])[0];
    }
  }

  lemma AppendFilterClause(sb: string, f: (string, string))
    ensures sb + f.0 + "=\"" + f.1 + "\" " == sb + FilterClause(f) + " "
  {
  }

  /** One round of the builder: the text so far, the clause, a space, and
      "AND " while more entries follow. */
  lemma FilterBuilderStep(filters: seq<(string, string)>, i: nat, sb: string)
    requires i < |filters|
    requires 0 < i ==> sb == FilterString(filters[..i]) + " AND "
    requires i == 0 ==> sb == ""
    ensures var next := sb + filters[i].0 + "=\"" + filters[i].1 + "\" ";
      && (i + 1 < |filters| ==> next + "AND " == FilterString(filters[..i + 1]) + " AND ")
      && (i + 1 == |filters| ==> next == FilterString(filters) + " ")
  {
    var c := FilterClause(filters[i]);
    AppendFilterClause(sb, filters[i]);
    FilterStringPrefix(filters, i + 1);
    if 0 < i {
      assert sb + c == FilterString(filters[..i + 1]);
    }
    assert sb + c + " " + "AND " == sb + c + " AND ";
  }

  /** `buildFilterString`: per entry `key="value" `, then "AND " while more
      entries follow, then trims. */
  method BuildFilterString(filters: seq<(string, string)>) returns (r: string)
    ensures r == TrimStart(FilterString(filters))
    ensures filters == [] || filters[0].0 == [] || !IsTrimmed(filters[0].0[0]) ==> r == FilterString(filters)
  {
    var sb := "";
    var i := 0;
    while i < |filters|
      invariant 0 <= i <= |filters|
      invariant 0 < i < |filters| ==> sb == FilterString(filters[..i]) + " AND "
      invariant 0 < i == |filters| ==> sb == FilterString(filters) + " "
      invariant i == 0 ==> sb == ""
    {
      var f := filters[i];
      FilterBuilderStep(filters, i, sb);
      sb := sb + f.0 + "=\"" + f.1 + "\" ";
      i := i + 1;
      if i < |filters| {
        sb := sb + "AND ";
      }
    }
    if filters != [] {
      TrimFilterString(filters);
    }
    r := Trim(sb);
  }

  lemma FilterStringOfTwo(a: (string, string), b: (string, string))
    ensures FilterString([a, b]) == FilterClause(a) + " AND " + FilterClause(b)
  {
    FilterStringSnoc([], a);
    assert [a] + [b] == [a, b];
    FilterStringSnoc([a], b);
  }

  lemma FilterStringOfThree(a: (string, string), b: (string, string), c: (string, string))
    ensures FilterString([a, b, c]) == FilterClause(a) + " AND " + FilterClause(b) + " AND " + FilterClause(c)
  {
    FilterStringSnoc([], a);
    assert [a] + [b] == [a, b];
    FilterStringSnoc([a], b);
    assert [a, b] + [c] == [a, b, c];
    FilterStringSnoc([a, b], c);
  }

  lemma FilterStringExamples()
    ensures FilterString([]) == ""
    ensures FilterString([("key", "value")]) == "key=\"value\""
  {
  }

  lemma FilterStringOfTwoExample()
    ensures FilterString([("key1", "value1"), ("key2", "value2")]) == "key1=\"value1\" AND key2=\"value2\""
  {
    FilterStringSnoc([("key1", "value1")], ("key2", "value2"));
    assert [("key1", "value1")] + [("key2", "value2")] == [("key1", "value1"), ("key2", "value2")];
  }

  // ---------------------------------------------------------------------------
  // parseInstanceResourceData

  /** The fields captured from an instance self link. */
  datatype InstanceResourceData = InstanceResourceData(projectId: string, zone: string, name: string)

  /** `[0-9a-zA-Z\-]`, the class of the project and instance groups. */
  predicate IsNameChar(ch: char) {
    '0' <= ch <= '9' || 'a' <= ch <= 'z' || 'A' <= ch <= 'Z' || ch == '-'
  }

  /** `[a-z0-9\-]`, the class of the zone group. */
  predicate IsZoneChar(ch: char) {
    'a' <= ch <= 'z' || '0' <= ch <= '9' || ch == '-'
  }

  /** What an unescaped '.' matches without DOTALL: anything but a line terminator. */
  predicate IsDotChar(ch: char) {
    ch != '\n' && ch != '\r' && ch != '\U{0085}' && ch != '\U{2028}' && ch != '\U{2029}'
  }

  /** Every character of `s` is in `cls`. */
  predicate AllIn(s: string, cls: char -> bool) {
    forall i :: 0 <= i < |s| ==> cls(s[i])
  }

  /** The length of the longest run of `cls` characters from `pos` (what a
      greedy `+` first tries; since no class here holds '/', it is also the
      only length the rest of the pattern can follow). */
  function RunLength(s: string, pos: nat, cls: char -> bool): (n: nat)
    requires pos <= |s|
    ensures pos + n <= |s|
    ensures forall k :: pos <= k < pos + n ==> cls(s[k])
    ensures pos + n == |s| || !cls(s[pos + n])
    decreases |s| - pos
  {
    if pos < |s| && cls(s[pos]) then 1 + RunLength(s, pos + 1, cls) else 0
  }

  lemma RunLengthIs(s: string, pos: nat, cls: char -> bool, n: nat)
    requires pos + n <= |s|
    requires forall k :: pos <= k < pos + n ==> cls(s[k])
    requires pos + n == |s| || !cls(s[pos + n])
    ensures RunLength(s, pos, cls) == n
  {
  }

  predicate LiteralAt(s: string, pos: nat, lit: string) {
    pos + |lit| <= |s| && s[pos..pos + |lit|] == lit
  }

  /** The fixed text before the first group: "https://www", any dot
      character, "googleapis", any dot character, "com/compute/v1/projects/". */
  predicate HeadAt(t: string) {
    && LiteralAt(t, 0, "https://www")
    && 11 < |t| && IsDotChar(t[11])
    && LiteralAt(t, 12, "googleapis")
    && 22 < |t| && IsDotChar(t[22])
    && LiteralAt(t, 23, "com/compute/v1/projects/")
  }

  /** The three groups and the separators between them, at the start of `t`. */
  function GroupsAt(t: string): Option<InstanceResourceData> {
    var n1 := RunLength(t, 0, IsNameChar);
    var t1 := t[n1..];
    if n1 == 0 || !StartsWith(t1, "/zones/") then None
    else
      var u := t1[7..];
      var n2 := RunLength(u, 0, IsZoneChar);
      var u1 := u[n2..];
      if n2 == 0 || !StartsWith(u1, "/instances/") then None
      else
        var v := u1[11..];
        var n3 := RunLength(v, 0, IsNameChar);
        if n3 == 0 then None
        else Some(InstanceResourceData(t[..n1], u[..n2], v[..n3]))
  }

  /** The pattern anchored at `pos`, with the three groups it captures. */
  function MatchAt(s: string, pos: nat): Option<InstanceResourceData> {
    if pos <= |s| && HeadAt(s[pos..]) then GroupsAt(s[pos..][47..]) else None
  }

  /** `matcher.find()` from `from`: the first position up to `last` where
      `matches` holds. */
  function FindFrom(from: nat, last: nat, matches: nat -> bool): (r: Option<nat>)
    ensures r.Some? ==> from <= r.value <= last && matches(r.value)
    ensures r.Some? ==> forall j :: from <= j < r.value ==> !matches(j)
    ensures r.None? ==> forall j :: from <= j <= last ==> !matches(j)
    decreases last + 1 - from
  {
    if from > last then None
    else if matches(from) then Some(from)
    else FindFrom(from + 1, last, matches)
  }

  /** `parseInstanceResourceData`: the groups of the first match, empty when
      nothing matches; null or empty fails the argument check. */
  function ParseInstanceResourceData(selfLink: Option<string>): (r: Result<Option<InstanceResourceData>>)
    ensures r.Err? <==> IsNullOrEmpty(selfLink)
    ensures r.Err? ==> r.error == IllegalArgument("")
    ensures r.Ok? && r.value.None? ==> forall j :: 0 <= j <= |selfLink.value| ==> MatchAt(selfLink.value, j).None?
    ensures r.Ok? && r.value.Some? ==>
      exists i :: 0 <= i <= |selfLink.value| && MatchAt(selfLink.value, i) == r.value
               && forall j :: 0 <= j < i ==> MatchAt(selfLink.value, j).None?
  {
    if IsNullOrEmpty(selfLink) then Err(IllegalArgument(""))
    else
      var s := selfLink.value;
      var matches := (j: nat) => MatchAt(s, j).Some?;
      assert forall j: nat :: matches(j) == MatchAt(s, j).Some?;
      match FindFrom(0, |s|, matches)
      case None => Ok(None)
      case Some(i) => Ok(MatchAt(s, i))
  }

  /** The text before the project id, with `dot1` and `dot2` where the pattern
      has its unescaped dots. */
  function LinkHead(dot1: char, dot2: char): string {
    "https://www" + [dot1] + "googleapis" + [dot2] + "com/compute/v1/projects/"
  }

  /** A compute instance self link followed by `rest`. */
  function InstanceSelfLink(dot1: char, dot2: char, projectId: string, zone: string, name: string, rest: string): string {
    LinkHead(dot1, dot2) + (projectId + ("/zones/" + (zone + ("/instances/" + (name + rest)))))
  }

  lemma HeadAtLinkHead(dot1: char, dot2: char, rest: string)
    requires IsDotChar(dot1) && IsDotChar(dot2)
    ensures |LinkHead(dot1, dot2)| == 47
    ensures HeadAt(LinkHead(dot1, dot2) + rest)
    ensures (LinkHead(dot1, dot2) + rest)[47..] == rest
  {
    var s := LinkHead(dot1, dot2) + rest;
    assert s[0..11] == "https://www";
    assert s[12..22] == "googleapis";
    assert s[23..47] == "com/compute/v1/projects/";
  }

  /** A group of `cls` characters ended by a character outside `cls` (or by
      the end of the text) is what the greedy group captures. */
  lemma GroupThen(grp: string, tail: string, cls: char -> bool)
    requires AllIn(grp, cls)
    requires tail == [] || !cls(tail[0])
    ensures RunLength(grp + tail, 0, cls) == |grp|
    ensures (grp + tail)[..|grp|] == grp && (grp + tail)[|grp|..] == tail
  {
    var s := grp + tail;
    assert |grp| == |s| || s[|grp|] == tail[0];
    RunLengthIs(s, 0, cls, |grp|);
  }

  lemma LiteralThen(lit: string, tail: string)
    ensures StartsWith(lit + tail, lit) && (lit + tail)[|lit|..] == tail
  {
    assert (lit + tail)[..|lit|] == lit;
  }

  /** Parsing a self link built from valid parts gives the parts back, even
      with text after the name that cannot continue it. */
  lemma ParseInstanceSelfLink(dot1: char, dot2: char, projectId: string, zone: string, name: string, rest: string)
    requires IsDotChar(dot1) && IsDotChar(dot2)
    requires projectId != [] && AllIn(projectId, IsNameChar)
    requires zone != [] && AllIn(zone, IsZoneChar)
    requires name != [] && AllIn(name, IsNameChar)
    requires rest == [] || !IsNameChar(rest[0])
    ensures ParseInstanceResourceData(Some(InstanceSelfLink(dot1, dot2, projectId, zone, name, rest)))
         == Ok(Some(InstanceResourceData(projectId, zone, name)))
  {
    var v := name + rest;
    var u1 := "/instances/" + v;
    var u := zone + u1;
    var t1 := "/zones/" + u;
    var t := projectId + t1;
    var s := LinkHead(dot1, dot2) + t;
    HeadAtLinkHead(dot1, dot2, t);
    GroupThen(projectId, t1, IsNameChar);
    LiteralThen("/zones/", u);
    GroupThen(zone, u1, IsZoneChar);
    LiteralThen("/instances/", v);
    GroupThen(name, rest, IsNameChar);
    assert s[0..] == s;
    assert GroupsAt(t) == Some(InstanceResourceData(projectId, zone, name));
    assert MatchAt(s, 0) == Some(InstanceResourceData(projectId, zone, name));
  }

  /** The self link of instance "test-name" in zone "test-zone-1" of project
      "test-project-1" parses to those three names. */
  lemma ParseInstanceResourceDataExample()
    ensures ParseInstanceResourceData(Some(InstanceSelfLink('.', '.', "test-project-1", "test-zone-1", "test-name", "")))
         == Ok(Some(InstanceResourceData("test-project-1", "test-zone-1", "test-name")))
  {
    ParseInstanceSelfLink('.', '.', "test-project-1", "test-zone-1", "test-name", "");
  }

  /** Text shorter than the literal "https://www" never matches. */
  lemma ParseShortText(s: string)
    requires 0 < |s| < 11
    ensures ParseInstanceResourceData(Some(s)) == Ok(None)
  {
    assert forall j :: 0 <= j <= |s| ==> !HeadAt(s[j..]);
  }

  lemma ParseInvalidExample()
    ensures ParseInstanceResourceData(Some("fizz-buzz")) == Ok(None)
  {
    ParseShortText("fizz-buzz");
  }

  lemma ParseNullOrEmpty()
    ensures ParseInstanceResourceData(None) == Err(IllegalArgument(""))
    ensures ParseInstanceResourceData(Some("")) == Err(IllegalArgument(""))
  {
  }
}
