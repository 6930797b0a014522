/** The program's `run` after its options are parsed: normalise the lines of the hashtag
    file, fetch each tag, rank the tags and render the report. Fetching (`get_tag_data`,
    which calls the network) is a parameter: a function from a tag to what the fetch returns. */
module Pipeline {
  import opened Results
  import opened Engagement
  import opened Ranker
  import opened Report
  import opened HashTags

  /** `[get_tag_data(api, tag) for tag in tags]`. */
  function FetchAll(tags: seq<string>, fetch: string -> TagData): (items: seq<TagResult>)
    ensures |items| == |tags|
    ensures forall i :: 0 <= i < |tags| ==> items[i].tag == tags[i] && items[i].data == fetch(tags[i])
  {
    seq(|tags|, i requires 0 <= i < |tags| => TagResult(tags[i], fetch(tags[i])))
  }

  /** The aggregates of a fetched tag. */
  function Stats(fetch: string -> TagData, tag: string): Result<Calcs> {
    EngagementCalculations(fetch(tag))
  }

  /** Ranking the fetched tags fails exactly when one of their aggregations fails. */
  lemma RankFails(tags: seq<string>, fetch: string -> TagData)
    ensures RankHashTags(FetchAll(tags, fetch)).Err? <==> exists i :: 0 <= i < |tags| && Stats(fetch, tags[i]).Err?
  {
    var items := FetchAll(tags, fetch);
    if RankHashTags(items).Err? {
      var i :| 0 <= i < |items| && EngagementCalculations(items[i].data).Err?;
      assert Stats(fetch, tags[i]).Err?;
    }
    if i :| 0 <= i < |tags| && Stats(fetch, tags[i]).Err? {
      assert EngagementCalculations(items[i].data).Err?;
    }
  }

  /** The aggregated entries of fetched tags: one per tag, in order, with its aggregates. */
  lemma EntriesFetched(tags: seq<string>, fetch: string -> TagData, entries: seq<Entry>)
    requires AggregateAll(FetchAll(tags, fetch)) == Ok(entries)
    ensures |entries| == |tags|
    ensures forall i :: 0 <= i < |tags| ==>
              entries[i].tag == tags[i] && Stats(fetch, tags[i]).Ok? && entries[i].calcs == Stats(fetch, tags[i]).value
  {
    var items := FetchAll(tags, fetch);
    forall i | 0 <= i < |tags|
      ensures entries[i].tag == tags[i] && Stats(fetch, tags[i]).Ok? && entries[i].calcs == Stats(fetch, tags[i]).value
    {
      assert items[i].data == fetch(tags[i]);
      assert !EngagementCalculations(items[i].data).Err?;
    }
  }

  /** The table built from fetched tags has exactly the fetched tags as keys, and each key
      holds the aggregates of its fetched data. */
  lemma TableFetched(tags: seq<string>, fetch: string -> TagData, table: Table)
    requires BuildTable(FetchAll(tags, fetch)) == Ok(table)
    ensures forall k :: k in Keys(table) <==> k in tags
    ensures forall k :: k in Keys(table) ==> Stats(fetch, k).Ok? && ToMap(table)[k] == Stats(fetch, k).value
  {
    var entries := AggregateAll(FetchAll(tags, fetch)).value;
    EntriesFetched(tags, fetch, entries);
    TableFromFetched(tags, fetch, entries);
  }

  lemma TableFromFetched(tags: seq<string>, fetch: string -> TagData, entries: seq<Entry>)
    requires |entries| == |tags|
    requires forall i :: 0 <= i < |tags| ==>
               entries[i].tag == tags[i] && Stats(fetch, tags[i]).Ok? && entries[i].calcs == Stats(fetch, tags[i]).value
    ensures forall k :: k in Keys(FromEntries(entries)) <==> k in tags
    ensures forall k :: k in Keys(FromEntries(entries)) ==>
              Stats(fetch, k).Ok? && ToMap(FromEntries(entries))[k] == Stats(fetch, k).value
  {
    assert Keys(entries) == tags;
    forall k | k in tags ensures Stats(fetch, k).Ok? && ToMap(FromEntries(entries))[k] == Stats(fetch, k).value {
      var i :| 0 <= i < |tags| && tags[i] == k;
      ValueOfKey(entries, k, Stats(fetch, k).value);
    }
  }

  /** The ranked list of fetched tags: each file tag is ranked, and each ranked tag's table
      entry holds its aggregates, which ascend along the list. */
  lemma RankedFetched(tags: seq<string>, fetch: string -> TagData, ranked: Ranked)
    requires RankHashTags(FetchAll(tags, fetch)) == Ok(ranked)
    ensures var rank := ranked.rankList; var m := ToMap(ranked.allEngageCalcs);
      && (forall t :: t in rank <==> t in tags)
      && (forall j :: 0 <= j < |rank| ==> rank[j] in m && Stats(fetch, rank[j]).Ok? && m[rank[j]] == Stats(fetch, rank[j]).value)
      && (forall i, j :: 0 <= i < j < |rank| ==> KeyLe(Stats(fetch, rank[i]).value, Stats(fetch, rank[j]).value))
  {
    var table := ranked.allEngageCalcs;
    assert BuildTable(FetchAll(tags, fetch)) == Ok(table);
    TableFetched(tags, fetch, table);
    RankOfTable(tags, fetch, table, ranked.rankList);
  }

  lemma RankOfTable(tags: seq<string>, fetch: string -> TagData, table: Table, rank: seq<string>)
    requires multiset(rank) == multiset(Keys(table))
    requires forall t :: t in rank ==> t in ToMap(table)
    requires forall i, j :: 0 <= i < j < |rank| ==> KeyLe(ToMap(table)[rank[i]], ToMap(table)[rank[j]])
    requires forall k :: k in Keys(table) <==> k in tags
    requires forall k :: k in Keys(table) ==> Stats(fetch, k).Ok? && ToMap(table)[k] == Stats(fetch, k).value
    ensures var m := ToMap(table);
      && (forall t :: t in rank <==> t in tags)
      && (forall j :: 0 <= j < |rank| ==> rank[j] in m && Stats(fetch, rank[j]).Ok? && m[rank[j]] == Stats(fetch, rank[j]).value)
      && (forall i, j :: 0 <= i < j < |rank| ==> KeyLe(Stats(fetch, rank[i]).value, Stats(fetch, rank[j]).value))
  {
    forall t ensures t in rank <==> t in Keys(table) {
      assert t in Keys(table) <==> t in multiset(Keys(table));
    }
  }

  lemma FileFails(lines: seq<string>, fetch: string -> TagData)
    ensures (exists i :: 0 <= i < |GetHashTags(lines)| && Stats(fetch, GetHashTags(lines)[i]).Err?)
        <==> (exists i :: 0 <= i < |lines| && Stats(fetch, NormalizeTag(lines[i])).Err?)
  {
    var tags := GetHashTags(lines);
    if i :| 0 <= i < |lines| && Stats(fetch, NormalizeTag(lines[i])).Err? {
      assert Stats(fetch, tags[i]).Err?;
    }
  }

  /** `run`: the report for the lines of a hashtag file. It fails with ZeroDivisionError
      exactly when some tag's aggregation does; it never fails with KeyError. Otherwise it
      has a row for every tag of the file, in rank order, each showing that tag's aggregates. */
  method Run(lines: seq<string>, fetch: string -> TagData, showReal: real -> string, showInt: int -> string)
    returns (r: Result<seq<string>>)
    ensures r.Err? <==> exists i :: 0 <= i < |lines| && Stats(fetch, NormalizeTag(lines[i])).Err?
    ensures r.Err? ==> r.error == ZeroDivision
    ensures r.Ok? ==> var rank := RankHashTags(FetchAll(GetHashTags(lines), fetch)).value.rankList;
      && |r.value| == 1 + |rank| && r.value[0] == Header
      && (forall t :: t in rank <==> t in GetHashTags(lines))
      && (forall j :: 0 <= j < |rank| ==>
            && Stats(fetch, rank[j]).Ok?
            && r.value[j + 1] == Row(rank[j], Stats(fetch, rank[j]).value, showReal, showInt))
      && (forall i, j :: 0 <= i < j < |rank| ==> KeyLe(Stats(fetch, rank[i]).value, Stats(fetch, rank[j]).value))
  {
    var tags := GetHashTags(lines);
    RankFails(tags, fetch);
    FileFails(lines, fetch);
    var ranked := RankHashTags(FetchAll(tags, fetch));
    if ranked.Err? {
      return Err(ranked.error);
    }
    RankedFetched(tags, fetch, ranked.value);
    r := GenerateOutput(ranked.value.rankList, ToMap(ranked.value.allEngageCalcs), showReal, showInt);
  }
}
