/** The forum sidebar's tag counts (`getTagCounts` in app/forum/layout.tsx):
    the per-tag totals the store's `$unwind`/`$group` aggregation returns,
    merged into a map seeded with every known tag at zero. */
module TagCounts {
  import opened Common
  import opened Seqs
  import opened ForumTopics

  /** One `{ _id, count }` row of the aggregation. */
  datatype AggRow = AggRow(tag: string, count: nat)

  datatype TagCount = TagCount(name: string, count: nat)

  /** Occurrences of `tag` across all topics' tag lists. */
  function Occurrences(tagLists: seq<seq<string>>, tag: string): nat {
    if tagLists == [] then 0 else Occurrences(tagLists[..|tagLists| - 1], tag) + Count(tagLists[|tagLists| - 1], tag)
  }

  /** `rows` is what `$unwind` then `$group` by tag produce from `tagLists`:
      one row per occurring tag, holding its number of occurrences, in any
      order. */
  ghost predicate GroupedFrom(rows: seq<AggRow>, tagLists: seq<seq<string>>) {
    (forall i :: 0 <= i < |rows| ==> rows[i].count == Occurrences(tagLists, rows[i].tag)) &&
    (forall i, j :: 0 <= i < j < |rows| ==> rows[i].tag != rows[j].tag) &&
    (forall tag :: Occurrences(tagLists, tag) > 0 ==> exists i :: 0 <= i < |rows| && rows[i].tag == tag)
  }

  /** The value a tag holds after `counts.set` has run over `rows` in order
      (0 when no row names it): the last row naming it wins. */
  function LastCount(rows: seq<AggRow>, tag: string): nat {
    if rows == [] then 0
    else if rows[|rows| - 1].tag == tag then rows[|rows| - 1].count
    else LastCount(rows[..|rows| - 1], tag)
  }

  /** `getTagCounts`: `rows` is None when the aggregation failed, in which
      case every tag is reported with count 0. */
  method GetTagCounts(rows: Option<seq<AggRow>>) returns (result: seq<TagCount>)
    ensures |result| == |FORUM_TAGS|
    ensures forall i :: 0 <= i < |result| ==> result[i].name == FORUM_TAGS[i]
    ensures rows.None? ==> forall i :: 0 <= i < |result| ==> result[i].count == 0
    ensures rows.Some? ==> forall i :: 0 <= i < |result| ==> result[i].count == LastCount(rows.value, FORUM_TAGS[i])
  {
    if rows.None? {
      return seq(|FORUM_TAGS|, i requires 0 <= i < |FORUM_TAGS| => TagCount(FORUM_TAGS[i], 0));
    }
    var aggregated := rows.value;
    var counts: map<string, nat> := map t | t in FORUM_TAGS :: 0;
    var k := 0;
    while k < |aggregated|
      invariant 0 <= k <= |aggregated|
      invariant counts.Keys == set t | t in FORUM_TAGS
      invariant forall t :: t in counts ==> counts[t] == LastCount(aggregated[..k], t)
    {
      var row := aggregated[k];
      assert aggregated[..k + 1][..k] == aggregated[..k];
      if row.tag in counts {
        counts := counts[row.tag := row.count];
      }
      k := k + 1;
    }
    assert aggregated[..k] == aggregated;
    result := seq(|FORUM_TAGS|, i requires 0 <= i < |FORUM_TAGS| => TagCount(FORUM_TAGS[i], counts[FORUM_TAGS[i]]));
  }

  lemma {:induction false} LastCountAbsent(rows: seq<AggRow>, tag: string)
    requires forall i :: 0 <= i < |rows| ==> rows[i].tag != tag
    ensures LastCount(rows, tag) == 0
  {
    if rows != [] {
      LastCountAbsent(rows[..|rows| - 1], tag);
    }
  }

  lemma {:induction false} LastCountUnique(rows: seq<AggRow>, tag: string, i: nat)
    requires i < |rows| && rows[i].tag == tag
    requires forall j :: i < j < |rows| ==> rows[j].tag != tag
    ensures LastCount(rows, tag) == rows[i].count
  {
    if i < |rows| - 1 {
      LastCountUnique(rows[..|rows| - 1], tag, i);
    }
  }

  /** With rows the aggregation produced, each known tag's count is the
      number of times it occurs across all topics, 0 for an unused tag; tags
      outside the known list never show. */
  lemma TagCountsAreOccurrences(rows: seq<AggRow>, tagLists: seq<seq<string>>, tag: string)
    requires GroupedFrom(rows, tagLists)
    ensures LastCount(rows, tag) == Occurrences(tagLists, tag)
  {
    if i :| 0 <= i < |rows| && rows[i].tag == tag {
      LastCountUnique(rows, tag, i);
    } else {
      LastCountAbsent(rows, tag);
    }
  }
}
