/** The tag ranker: the table of aggregates built in `rank_hash_tags` and the stable sort
    that orders its tags worst-first by (engagement_per_min, user_amount). */
module Ranker {
  import opened Results
  import opened Engagement

  /** One tag's fetched data, as the fetch step returns it. */
  datatype TagResult = TagResult(tag: string, data: TagData)

  /** One item of the aggregate table. */
  datatype Entry = Entry(tag: string, calcs: Calcs)

  /** Python's insertion-ordered dict from tag to aggregates, as its items in insertion order. */
  type Table = seq<Entry>

  /** What `rank_hash_tags` returns: the aggregate table and the tags ranked worst-first. */
  datatype Ranked = Ranked(allEngageCalcs: Table, rankList: seq<string>)

  function Keys(t: Table): (ks: seq<string>)
    ensures |ks| == |t| && forall i :: 0 <= i < |t| ==> ks[i] == t[i].tag
  {
    if t == [] then [] else [t[0].tag] + Keys(t[1..])
  }

  predicate DistinctTags(t: Table) {
    forall i, j :: 0 <= i < j < |t| ==> t[i].tag != t[j].tag
  }

  /** The table as a dictionary lookup. */
  function ToMap(t: Table): (m: map<string, Calcs>)
    ensures forall k :: k in m <==> k in Keys(t)
    ensures DistinctTags(t) ==> forall i :: 0 <= i < |t| ==> m[t[i].tag] == t[i].calcs
  {
    if t == [] then map[]
    else
      var rest := ToMap(t[1..]);
      assert forall i :: 1 <= i < |t| ==> t[i] == t[1..][i - 1];
      rest[t[0].tag := t[0].calcs]
  }

  /** `d[tag] = calcs` on an insertion-ordered dict: an existing key keeps its place and
      takes the new value; a new key goes at the end. */
  function Put(t: Table, tag: string, calcs: Calcs): (r: Table)
    requires DistinctTags(t)
    ensures DistinctTags(r)
    ensures Keys(r) == if tag in Keys(t) then Keys(t) else Keys(t) + [tag]
    ensures ToMap(r) == ToMap(t)[tag := calcs]
  {
    if t == [] then [Entry(tag, calcs)]
    else if t[0].tag == tag then
      PutHere(t, calcs);
      [Entry(tag, calcs)] + t[1..]
    else
      var rest := Put(t[1..], tag, calcs);
      var r := [t[0]] + rest;
      assert r[1..] == rest;
      PutFront(t, tag, calcs, rest);
      r
  }

  lemma {:induction false} PutHere(t: Table, calcs: Calcs)
    requires t != [] && DistinctTags(t)
    ensures var r := [Entry(t[0].tag, calcs)] + t[1..];
      && DistinctTags(r) && Keys(r) == Keys(t) && t[0].tag in Keys(t)
      && ToMap(r) == ToMap(t)[t[0].tag := calcs]
  {
    var r := [Entry(t[0].tag, calcs)] + t[1..];
    assert r[1..] == t[1..];
    assert Keys(t)[0] == t[0].tag;
    PutHereKeys(t, r);
    PutHereMap(t, r);
  }

  lemma {:induction false} PutHereKeys(t: Table, r: Table)
    requires t != [] && DistinctTags(t)
    requires |r| == |t| && r[0].tag == t[0].tag && r[1..] == t[1..]
    ensures DistinctTags(r) && Keys(r) == Keys(t)
  {
    assert Keys(r) == [t[0].tag] + Keys(t[1..]);
    assert Keys(t) == [t[0].tag] + Keys(t[1..]);
    assert forall i :: 0 < i < |r| ==> r[i] == t[1..][i - 1] == t[i];
  }

  lemma {:induction false} PutHereMap(t: Table, r: Table)
    requires t != [] && r != [] && r[0].tag == t[0].tag && r[1..] == t[1..]
    ensures ToMap(r) == ToMap(t)[t[0].tag := r[0].calcs]
  {
    var m := ToMap(t[1..]);
    assert ToMap(r) == m[t[0].tag := r[0].calcs];
    assert ToMap(t) == m[t[0].tag := t[0].calcs];
    UpdateTwice(m, t[0].tag, t[0].calcs, r[0].calcs);
  }

  lemma UpdateTwice(m: map<string, Calcs>, k: string, v1: Calcs, v2: Calcs)
    ensures m[k := v1][k := v2] == m[k := v2]
  {
  }

  lemma {:induction false} TagNotInRest(t: Table)
    requires t != [] && DistinctTags(t)
    ensures t[0].tag !in Keys(t[1..])
  {
    forall i | 0 <= i < |t[1..]| ensures Keys(t[1..])[i] != t[0].tag {
      assert t[1..][i] == t[i + 1];
    }
  }

  lemma {:induction false} PutFront(t: Table, tag: string, calcs: Calcs, rest: Table)
    requires t != [] && t[0].tag != tag && DistinctTags(t)
    requires DistinctTags(rest)
    requires Keys(rest) == if tag in Keys(t[1..]) then Keys(t[1..]) else Keys(t[1..]) + [tag]
    requires ToMap(rest) == ToMap(t[1..])[tag := calcs]
    ensures DistinctTags([t[0]] + rest)
    ensures Keys([t[0]] + rest) == if tag in Keys(t) then Keys(t) else Keys(t) + [tag]
    ensures ToMap([t[0]] + rest) == ToMap(t)[tag := calcs]
  {
    PutFrontKeys(t, tag, rest);
    PutFrontDistinct(t, tag, rest);
    PutFrontMap(t, tag, calcs, rest);
  }

  lemma {:induction false} PutFrontKeys(t: Table, tag: string, rest: Table)
    requires t != [] && t[0].tag != tag
    requires Keys(rest) == if tag in Keys(t[1..]) then Keys(t[1..]) else Keys(t[1..]) + [tag]
    ensures Keys([t[0]] + rest) == if tag in Keys(t) then Keys(t) else Keys(t) + [tag]
  {
  }

  lemma {:induction false} PutFrontMap(t: Table, tag: string, calcs: Calcs, rest: Table)
    requires t != [] && t[0].tag != tag
    requires ToMap(rest) == ToMap(t[1..])[tag := calcs]
    ensures ToMap([t[0]] + rest) == ToMap(t)[tag := calcs]
  {
    UpdatesCommute(ToMap(t[1..]), tag, calcs, t[0].tag, t[0].calcs);
  }

  lemma UpdatesCommute(m: map<string, Calcs>, k1: string, v1: Calcs, k2: string, v2: Calcs)
    requires k1 != k2
    ensures m[k1 := v1][k2 := v2] == m[k2 := v2][k1 := v1]
  {
  }

  lemma {:induction false} PutFrontDistinct(t: Table, tag: string, rest: Table)
    requires t != [] && t[0].tag != tag && DistinctTags(t)
    requires DistinctTags(rest)
    requires Keys(rest) == if tag in Keys(t[1..]) then Keys(t[1..]) else Keys(t[1..]) + [tag]
    ensures DistinctTags([t[0]] + rest)
  {
    var r := [t[0]] + rest;
    TagNotInRest(t);
    assert t[0].tag !in Keys(rest);
    forall i, j | 0 <= i < j < |r| ensures r[i].tag != r[j].tag {
      assert r[j].tag == Keys(rest)[j - 1];
      if i > 0 {
        assert r[i].tag == Keys(rest)[i - 1];
      }
    }
  }

  /** The values of the dict comprehension in `rank_hash_tags`: the aggregates of every
      fetched tag, in order; the first failing aggregate aborts the comprehension. */
  function AggregateAll(items: seq<TagResult>): (r: Result<seq<Entry>>)
    ensures r.Err? <==> exists i :: 0 <= i < |items| && EngagementCalculations(items[i].data).Err?
    ensures r.Err? ==> r.error == ZeroDivision
    ensures r.Ok? ==> |r.value| == |items| && forall i :: 0 <= i < |items| ==>
              r.value[i] == Entry(items[i].tag, EngagementCalculations(items[i].data).value)
  {
    if items == [] then Ok([])
    else
      FailsCons(items);
      var calcs :- EngagementCalculations(items[0].data);
      var rest :- AggregateAll(items[1..]);
      assert forall i :: 1 <= i < |items| ==> items[i] == items[1..][i - 1];
      Ok([Entry(items[0].tag, calcs)] + rest)
  }

  /** Some item's aggregate fails exactly when the first one or one of the rest does. */
  lemma FailsCons(items: seq<TagResult>)
    requires items != []
    ensures (exists i :: 0 <= i < |items| && EngagementCalculations(items[i].data).Err?)
        <==> (EngagementCalculations(items[0].data).Err?
              || exists i :: 0 <= i < |items[1..]| && EngagementCalculations(items[1..][i].data).Err?)
  {
    if i :| 0 <= i < |items| && EngagementCalculations(items[i].data).Err? {
      if i > 0 {
        assert items[1..][i - 1] == items[i];
      }
    }
  }

  /** The keys of the dict comprehension: entries put in order, so a repeated tag keeps the
      place of its first occurrence and the value of its last. */
  function FromEntries(entries: seq<Entry>): (t: Table)
    ensures DistinctTags(t)
    ensures forall k :: k in Keys(t) <==> k in Keys(entries)
    ensures forall i :: 0 <= i < |entries| && LastWithTag(entries, i) ==>
              ToMap(t)[entries[i].tag] == entries[i].calcs
  {
    if entries == [] then []
    else
      var init := entries[..|entries| - 1];
      var t := FromEntries(init);
      FromEntriesStep(entries, t);
      Put(t, entries[|entries| - 1].tag, entries[|entries| - 1].calcs)
  }

  /** Entry i carries the last occurrence of its tag. */
  predicate LastWithTag(entries: seq<Entry>, i: int)
    requires 0 <= i < |entries|
  {
    LastOf(Keys(entries), i)
  }

  lemma {:induction false} FromEntriesStep(entries: seq<Entry>, t: Table)
    requires entries != []
    requires DistinctTags(t)
    requires forall k :: k in Keys(t) <==> k in Keys(entries[..|entries| - 1])
    requires var init := entries[..|entries| - 1];
      forall i :: 0 <= i < |init| && LastWithTag(init, i) ==> ToMap(t)[init[i].tag] == init[i].calcs
    ensures var last := entries[|entries| - 1]; var r := Put(t, last.tag, last.calcs);
      && (forall k :: k in Keys(r) <==> k in Keys(entries))
      && (forall i :: 0 <= i < |entries| && LastWithTag(entries, i) ==> ToMap(r)[entries[i].tag] == entries[i].calcs)
  {
    var init := entries[..|entries| - 1];
    var last := entries[|entries| - 1];
    var r := Put(t, last.tag, last.calcs);
    KeysSnoc(entries);
    forall i | 0 <= i < |init| && LastWithTag(init, i) ensures init[i].tag in ToMap(t) {
      assert init[i].tag == Keys(init)[i];
    }
    LastValuesStep(entries, ToMap(t), ToMap(r));
  }

  /** Putting the last entry into a map that holds the last values of the earlier entries
      gives a map that holds the last values of all entries. */
  lemma {:induction false} LastValuesStep(entries: seq<Entry>, before: map<string, Calcs>, after: map<string, Calcs>)
    requires entries != []
    requires var init := entries[..|entries| - 1];
      forall i :: 0 <= i < |init| && LastWithTag(init, i) ==> init[i].tag in before && before[init[i].tag] == init[i].calcs
    requires after == before[entries[|entries| - 1].tag := entries[|entries| - 1].calcs]
    ensures forall i :: 0 <= i < |entries| && LastWithTag(entries, i) ==>
              entries[i].tag in after && after[entries[i].tag] == entries[i].calcs
  {
    var init := entries[..|entries| - 1];
    var last := entries[|entries| - 1];
    forall i | 0 <= i < |entries| && LastWithTag(entries, i)
      ensures entries[i].tag in after && after[entries[i].tag] == entries[i].calcs
    {
      if i < |init| {
        assert entries[i] == init[i];
        assert entries[i].tag != last.tag;
        assert LastWithTag(init, i);
      }
    }
  }

  lemma {:induction false} KeysSnoc(entries: seq<Entry>)
    requires entries != []
    ensures Keys(entries) == Keys(entries[..|entries| - 1]) + [entries[|entries| - 1].tag]
  {
    var init := entries[..|entries| - 1];
    var ks := Keys(init) + [entries[|entries| - 1].tag];
    forall i | 0 <= i < |entries| ensures Keys(entries)[i] == ks[i] {
      if i < |init| {
        assert entries[i] == init[i];
      }
    }
  }

  /** A new key goes at the end of the dict. */
  lemma {:induction false} PutNew(t: Table, tag: string, calcs: Calcs)
    requires DistinctTags(t) && tag !in Keys(t)
    ensures Put(t, tag, calcs) == t + [Entry(tag, calcs)]
  {
    if t != [] {
      var rest := t[1..];
      assert Keys(t) == [t[0].tag] + Keys(rest);
      DistinctRest(t);
      PutNew(rest, tag, calcs);
      assert Put(t, tag, calcs) == [t[0]] + (rest + [Entry(tag, calcs)]);
      ConsAppend(t, Entry(tag, calcs));
    }
  }

  lemma {:induction false} DistinctRest(t: Table)
    requires t != [] && DistinctTags(t)
    ensures DistinctTags(t[1..])
  {
    forall i, j | 0 <= i < j < |t[1..]| ensures t[1..][i].tag != t[1..][j].tag {
      assert t[1..][i] == t[i + 1] && t[1..][j] == t[j + 1];
    }
  }

  lemma ConsAppend<T>(s: seq<T>, x: T)
    requires s != []
    ensures [s[0]] + (s[1..] + [x]) == s + [x]
  {
  }

  lemma Snoc<T>(s: seq<T>)
    requires s != []
    ensures s[..|s| - 1] + [s[|s| - 1]] == s
  {
  }

  /** Without repeated tags the table holds the entries as they come, in order. */
  lemma {:induction false} FromDistinctEntries(entries: seq<Entry>)
    requires DistinctTags(entries)
    ensures FromEntries(entries) == entries
  {
    if entries != [] {
      var init := entries[..|entries| - 1];
      var last := entries[|entries| - 1];
      DistinctInit(entries);
      FromDistinctEntries(init);
      PutNew(init, last.tag, last.calcs);
      assert FromEntries(entries) == Put(FromEntries(init), last.tag, last.calcs);
      Snoc(entries);
    }
  }

  lemma {:induction false} DistinctInit(entries: seq<Entry>)
    requires entries != [] && DistinctTags(entries)
    ensures DistinctTags(entries[..|entries| - 1])
    ensures entries[|entries| - 1].tag !in Keys(entries[..|entries| - 1])
  {
    var init := entries[..|entries| - 1];
    forall i | 0 <= i < |init| ensures Keys(init)[i] != entries[|entries| - 1].tag {
      assert init[i] == entries[i];
    }
    forall i, j | 0 <= i < j < |init| ensures init[i].tag != init[j].tag {
      assert init[i] == entries[i] && init[j] == entries[j];
    }
  }


  /** Every tag of the entries has a last occurrence. */
  lemma {:induction false} LastOccurrence(entries: seq<Entry>, k: string)
    requires k in Keys(entries)
    ensures exists i :: 0 <= i < |entries| && entries[i].tag == k && LastWithTag(entries, i)
  {
    var n := |entries| - 1;
    if entries[n].tag == k {
      assert LastWithTag(entries, n);
    } else {
      var init := entries[..n];
      KeysSnoc(entries);
      assert k in Keys(init);
      LastOccurrence(init, k);
      var i :| 0 <= i < |init| && init[i].tag == k && LastWithTag(init, i);
      LastWithTagSnoc(entries, i);
    }
  }

  /** The last occurrence of a tag stays last when an entry with another tag is appended. */
  lemma LastWithTagSnoc(entries: seq<Entry>, i: int)
    requires 0 <= i < |entries| - 1 && LastWithTag(entries[..|entries| - 1], i)
    requires entries[|entries| - 1].tag != entries[i].tag
    ensures LastWithTag(entries, i)
  {
    var init := entries[..|entries| - 1];
    forall j | i < j < |entries| ensures Keys(entries)[j] != Keys(entries)[i] {
      if j < |entries| - 1 {
        assert Keys(init)[j] != Keys(init)[i];
      }
    }
  }

  /** A tag whose entries all carry the same aggregates has those aggregates in the table. */
  lemma ValueOfKey(entries: seq<Entry>, k: string, c: Calcs)
    requires k in Keys(entries)
    requires forall i :: 0 <= i < |entries| && entries[i].tag == k ==> entries[i].calcs == c
    ensures k in ToMap(FromEntries(entries)) && ToMap(FromEntries(entries))[k] == c
  {
    LastOccurrence(entries, k);
  }

  /** The tags in order of first occurrence: a tag is kept where it does not occur earlier. */
  function FirstOccurrences(tags: seq<string>): seq<string> {
    if tags == [] then []
    else
      var init := tags[..|tags| - 1];
      var d := FirstOccurrences(init);
      if tags[|tags| - 1] in init then d else d + [tags[|tags| - 1]]
  }

  /** The dict's keys come in the order in which the tags first occur. */
  lemma {:induction false} FromEntriesKeyOrder(entries: seq<Entry>)
    ensures Keys(FromEntries(entries)) == FirstOccurrences(Keys(entries))
  {
    if entries != [] {
      var init := entries[..|entries| - 1];
      var last := entries[|entries| - 1];
      FromEntriesKeyOrder(init);
      KeysSnoc(entries);
      var ks := Keys(entries);
      assert ks[..|ks| - 1] == Keys(init) && ks[|ks| - 1] == last.tag;
      assert FromEntries(entries) == Put(FromEntries(init), last.tag, last.calcs);
      assert last.tag in Keys(FromEntries(init)) <==> last.tag in Keys(init);
    }
  }

  /** The tags of the fetched items, in order. */
  function Tags(items: seq<TagResult>): (tags: seq<string>)
    ensures |tags| == |items| && forall i :: 0 <= i < |items| ==> tags[i] == items[i].tag
  {
    seq(|items|, i requires 0 <= i < |items| => items[i].tag)
  }

  /** Position i holds the last occurrence of its tag. */
  predicate LastOf(tags: seq<string>, i: int)
    requires 0 <= i < |tags|
  {
    forall j :: i < j < |tags| ==> tags[j] != tags[i]
  }

  /** The dict comprehension `{item.tag: engagement_calculations(item.data) ...}`: its keys
      are the tags in order of first occurrence, and each holds the statistics of the tag's
      last occurrence. */
  function BuildTable(items: seq<TagResult>): (r: Result<Table>)
    ensures r.Err? <==> exists i :: 0 <= i < |items| && EngagementCalculations(items[i].data).Err?
    ensures r.Err? ==> r.error == ZeroDivision
    ensures r.Ok? ==> DistinctTags(r.value)
    ensures r.Ok? ==> Keys(r.value) == FirstOccurrences(Tags(items))
    ensures r.Ok? ==> forall i :: 0 <= i < |items| && LastOf(Tags(items), i) ==>
              items[i].tag in ToMap(r.value) && ToMap(r.value)[items[i].tag] == EngagementCalculations(items[i].data).value
  {
    var entries :- AggregateAll(items);
    TableOfEntries(items, entries);
    Ok(FromEntries(entries))
  }

  lemma {:induction false} TableOfEntries(items: seq<TagResult>, entries: seq<Entry>)
    requires AggregateAll(items) == Ok(entries)
    ensures Keys(FromEntries(entries)) == FirstOccurrences(Tags(items))
    ensures forall i :: 0 <= i < |items| && LastOf(Tags(items), i) ==>
              items[i].tag in ToMap(FromEntries(entries))
              && ToMap(FromEntries(entries))[items[i].tag] == EngagementCalculations(items[i].data).value
  {
    assert Keys(entries) == Tags(items);
    FromEntriesKeyOrder(entries);
    forall i | 0 <= i < |items| && LastOf(Tags(items), i)
      ensures items[i].tag in ToMap(FromEntries(entries))
              && ToMap(FromEntries(entries))[items[i].tag] == EngagementCalculations(items[i].data).value
    {
      TableValueAt(items, entries, i);
    }
  }

  /** The last occurrence of a fetched tag gives its value in the dict. */
  lemma {:induction false} TableValueAt(items: seq<TagResult>, entries: seq<Entry>, i: int)
    requires AggregateAll(items) == Ok(entries)
    requires 0 <= i < |items| && LastOf(Tags(items), i)
    ensures items[i].tag in ToMap(FromEntries(entries))
            && ToMap(FromEntries(entries))[items[i].tag] == EngagementCalculations(items[i].data).value
  {
    assert LastWithTag(entries, i);
  }

  /** Python's tuple comparison of the sort keys (engagement_per_min, user_amount). */
  predicate KeyLe(a: Calcs, b: Calcs) {
    a.engagementPerMin < b.engagementPerMin
    || (a.engagementPerMin == b.engagementPerMin && a.userAmount <= b.userAmount)
  }

  /** The sort key of an entry. */
  function Key(e: Entry): (real, nat) {
    (e.calcs.engagementPerMin, e.calcs.userAmount)
  }

  predicate Sorted(t: Table) {
    forall i, j :: 0 <= i < j < |t| ==> KeyLe(t[i].calcs, t[j].calcs)
  }

  /** Insert e before the first entry whose key is not below e's key. */
  function Insert(e: Entry, t: Table): (r: Table)
    requires Sorted(t)
    ensures Sorted(r)
    ensures multiset(r) == multiset(t) + multiset{e}
  {
    if t == [] || KeyLe(e.calcs, t[0].calcs) then
      InsertHere(e, t);
      [e] + t
    else
      var rest := Insert(e, t[1..]);
      InsertFurther(e, t, rest);
      [t[0]] + rest
  }

  lemma {:induction false} InsertHere(e: Entry, t: Table)
    requires Sorted(t) && (t == [] || KeyLe(e.calcs, t[0].calcs))
    ensures Sorted([e] + t)
    ensures multiset([e] + t) == multiset(t) + multiset{e}
  {
    var r := [e] + t;
    forall i, j | 0 <= i < j < |r| ensures KeyLe(r[i].calcs, r[j].calcs) {
      if i == 0 && j > 1 {
        assert KeyLe(t[0].calcs, t[j - 1].calcs);
      }
    }
  }

  lemma {:induction false} InsertFurther(e: Entry, t: Table, rest: Table)
    requires Sorted(t) && t != [] && !KeyLe(e.calcs, t[0].calcs)
    requires Sorted(rest) && multiset(rest) == multiset(t[1..]) + multiset{e}
    ensures Sorted([t[0]] + rest)
    ensures multiset([t[0]] + rest) == multiset(t) + multiset{e}
  {
    assert t == [t[0]] + t[1..];
    var r := [t[0]] + rest;
    forall j | 0 <= j < |rest| ensures KeyLe(t[0].calcs, rest[j].calcs) {
      assert rest[j] in multiset(rest);
      if rest[j] != e {
        assert rest[j] in multiset(t[1..]);
        var k :| 0 <= k < |t[1..]| && t[1..][k] == rest[j];
        assert t[k + 1] == rest[j];
      }
    }
    forall i, j | 0 <= i < j < |r| ensures KeyLe(r[i].calcs, r[j].calcs) {
      if i > 0 {
        assert r[i] == rest[i - 1] && r[j] == rest[j - 1];
      } else {
        assert r[j] == rest[j - 1];
      }
    }
  }

  /** Python's `sorted` with key (engagement_per_min, user_amount): stable, ascending. */
  function SortByKey(t: Table): (r: Table)
    ensures Sorted(r)
    ensures multiset(r) == multiset(t)
  {
    if t == [] then []
    else
      assert t == [t[0]] + t[1..];
      Insert(t[0], SortByKey(t[1..]))
  }

  /** The entries of t with sort key k, in order. */
  function WithKey(t: Table, k: (real, nat)): seq<Entry> {
    if t == [] then []
    else if Key(t[0]) == k then [t[0]] + WithKey(t[1..], k)
    else WithKey(t[1..], k)
  }

  lemma {:induction false} InsertIsStable(e: Entry, t: Table, k: (real, nat))
    requires Sorted(t)
    ensures WithKey(Insert(e, t), k) == WithKey([e] + t, k)
  {
    if t == [] || KeyLe(e.calcs, t[0].calcs) {
    } else {
      assert ([e] + t)[1..] == t;
      assert ([t[0]] + Insert(e, t[1..]))[1..] == Insert(e, t[1..]);
      assert ([e] + t[1..])[1..] == t[1..];
      InsertIsStable(e, t[1..], k);
      assert Key(t[0]) != Key(e);
    }
  }

  /** Stability: entries with equal keys keep their relative insertion order. */
  lemma {:induction false} SortIsStable(t: Table, k: (real, nat))
    ensures WithKey(SortByKey(t), k) == WithKey(t, k)
  {
    if t != [] {
      SortIsStable(t[1..], k);
      InsertIsStable(t[0], SortByKey(t[1..]), k);
      assert ([t[0]] + SortByKey(t[1..]))[1..] == SortByKey(t[1..]);
    }
  }

  /** `rank_hash_tags` after the fetch: build the table, then list its tags worst-first. */
  function RankHashTags(items: seq<TagResult>): (r: Result<Ranked>)
    ensures r.Err? <==> exists i :: 0 <= i < |items| && EngagementCalculations(items[i].data).Err?
    ensures r.Err? ==> r.error == ZeroDivision
    ensures r.Ok? ==> BuildTable(items) == Ok(r.value.allEngageCalcs)
    ensures r.Ok? ==> r.value.rankList == Keys(SortByKey(r.value.allEngageCalcs))
    ensures r.Ok? ==> DistinctTags(r.value.allEngageCalcs)
    ensures r.Ok? ==> multiset(r.value.rankList) == multiset(Keys(r.value.allEngageCalcs))
    ensures r.Ok? ==> var m := ToMap(r.value.allEngageCalcs); var rank := r.value.rankList;
              && (forall t :: t in rank ==> t in m)
              && (forall i, j :: 0 <= i < j < |rank| ==> KeyLe(m[rank[i]], m[rank[j]]))
  {
    var table :- BuildTable(items);
    var sorted := SortByKey(table);
    var rank := Keys(sorted);
    SortedTagsRanked(table, sorted);
    Ok(Ranked(table, rank))
  }

  lemma {:induction false} SortedTagsRanked(table: Table, sorted: Table)
    requires DistinctTags(table) && sorted == SortByKey(table)
    ensures multiset(Keys(sorted)) == multiset(Keys(table))
    ensures var m := ToMap(table);
      && (forall t :: t in Keys(sorted) ==> t in m)
      && (forall i, j :: 0 <= i < j < |sorted| ==> KeyLe(m[Keys(sorted)[i]], m[Keys(sorted)[j]]))
  {
    SortKeys(table);
    var m := ToMap(table);
    forall i | 0 <= i < |sorted|
      ensures sorted[i].tag in m && m[sorted[i].tag] == sorted[i].calcs
    {
      assert sorted[i] in multiset(table);
      var j :| 0 <= j < |table| && table[j] == sorted[i];
    }
    forall t | t in Keys(sorted) ensures t in m {
      var i :| 0 <= i < |sorted| && Keys(sorted)[i] == t;
    }
  }

  lemma {:induction false} InsertKeys(e: Entry, t: Table)
    requires Sorted(t)
    ensures multiset(Keys(Insert(e, t))) == multiset(Keys(t)) + multiset{e.tag}
  {
    if t == [] || KeyLe(e.calcs, t[0].calcs) {
      assert Keys([e] + t) == [e.tag] + Keys(t);
    } else {
      var rest := Insert(e, t[1..]);
      InsertKeys(e, t[1..]);
      assert ([t[0]] + rest)[1..] == rest;
      assert Keys([t[0]] + rest) == [t[0].tag] + Keys(rest);
      assert Keys(t) == [t[0].tag] + Keys(t[1..]);
    }
  }

  /** The ranked tags are the table's tags, each as often as it occurs. */
  lemma {:induction false} SortKeys(t: Table)
    ensures multiset(Keys(SortByKey(t))) == multiset(Keys(t))
  {
    if t != [] {
      SortKeys(t[1..]);
      InsertKeys(t[0], SortByKey(t[1..]));
      assert Keys(t) == [t[0].tag] + Keys(t[1..]);
    }
  }

  /** Among items whose engagement per minute ties, the one with fewer posts comes first,
      whatever the order of the dict. */
  lemma {:induction false} TieBrokenByPostCount(t: Table, i: int, j: int)
    requires 0 <= i < |SortByKey(t)| && 0 <= j < |SortByKey(t)|
    requires SortByKey(t)[i].calcs.engagementPerMin == SortByKey(t)[j].calcs.engagementPerMin
    requires SortByKey(t)[j].calcs.userAmount < SortByKey(t)[i].calcs.userAmount
    ensures j < i
  {
    var s := SortByKey(t);
    assert i < j ==> KeyLe(s[i].calcs, s[j].calcs);
  }

  /** Python's tuple order on the sort keys is total and transitive, and two keys are each at
      most the other exactly when both components are equal. */
  lemma KeyOrder(a: Calcs, b: Calcs, c: Calcs)
    ensures KeyLe(a, b) || KeyLe(b, a)
    ensures KeyLe(a, b) && KeyLe(b, c) ==> KeyLe(a, c)
    ensures KeyLe(a, b) && KeyLe(b, a) <==>
              a.engagementPerMin == b.engagementPerMin && a.userAmount == b.userAmount
  {
  }
}
