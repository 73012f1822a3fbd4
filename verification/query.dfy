/** The document-store query primitives the handlers chain together:
    `sort`, `skip`/`limit` and the `Math.ceil(total / limit)` page count,
    as operations on in-memory sequences. */
module Query {
  import opened Common

  /** `le` is a total preorder: the comparison a sort specification induces. */
  ghost predicate TotalPreorder<T(!new)>(le: (T, T) -> bool) {
    (forall a, b :: le(a, b) || le(b, a)) &&
    (forall a, b, c :: le(a, b) && le(b, c) ==> le(a, c))
  }

  predicate Sorted<T>(s: seq<T>, le: (T, T) -> bool) {
    forall i, j :: 0 <= i < j < |s| ==> le(s[i], s[j])
  }

  function Insert<T(==,!new)>(x: T, s: seq<T>, le: (T, T) -> bool): (r: seq<T>)
    requires TotalPreorder(le) && Sorted(s, le)
    ensures Sorted(r, le)
    ensures multiset(r) == multiset(s) + multiset{x}
  {
    if s == [] then [x]
    else if le(x, s[0]) then [x] + s
    else
      var rest := Insert(x, s[1..], le);
      InsertHead(x, s, rest, le);
      assert s == [s[0]] + s[1..];
      [s[0]] + rest
  }

  lemma InsertHead<T(!new)>(x: T, s: seq<T>, rest: seq<T>, le: (T, T) -> bool)
    requires TotalPreorder(le) && Sorted(s, le) && s != [] && !le(x, s[0])
    requires Sorted(rest, le) && multiset(rest) == multiset(s[1..]) + multiset{x}
    ensures Sorted([s[0]] + rest, le)
  {
    assert le(s[0], x);
    forall k | 0 <= k < |rest| ensures le(s[0], rest[k]) {
      assert rest[k] in multiset(rest);
      if rest[k] != x {
        assert rest[k] in multiset(s[1..]);
        var m :| 0 <= m < |s[1..]| && s[1..][m] == rest[k];
        assert s[m + 1] == rest[k];
      }
    }
    var r := [s[0]] + rest;
    forall i, j | 0 <= i < j < |r| ensures le(r[i], r[j]) {
      if i == 0 {
        assert r[j] == rest[j - 1];
      } else {
        assert r[i] == rest[i - 1] && r[j] == rest[j - 1];
      }
    }
  }

  /** A `sort` by the given comparison: the result is ordered and holds
      exactly the input documents. Ties come out in an order the store does
      not specify; this model picks one. */
  function SortBy<T(==,!new)>(s: seq<T>, le: (T, T) -> bool): (r: seq<T>)
    requires TotalPreorder(le)
    ensures Sorted(r, le)
    ensures multiset(r) == multiset(s)
  {
    if s == [] then []
    else
      assert s == [s[0]] + s[1..];
      Insert(s[0], SortBy(s[1..], le), le)
  }

  lemma NewestFirstIsPreorder<T(!new)>(key: T -> nat)
    ensures TotalPreorder((a: T, b: T) => key(a) >= key(b))
  {
  }

  /** `sort({ createdAt: -1 })`: newest first by the given timestamp. */
  function NewestFirst<T(==,!new)>(s: seq<T>, createdAt: T -> nat): (r: seq<T>)
    ensures forall i, j :: 0 <= i < j < |r| ==> createdAt(r[i]) >= createdAt(r[j])
    ensures multiset(r) == multiset(s)
  {
    NewestFirstIsPreorder(createdAt);
    SortBy(s, (a: T, b: T) => createdAt(a) >= createdAt(b))
  }

  /** `skip(skip).limit(limit)` on a result list; a limit of 0 means no limit. */
  function Window<T>(s: seq<T>, skip: nat, limit: nat): (r: seq<T>)
    ensures limit > 0 ==> |r| <= limit
    ensures skip >= |s| ==> r == []
    ensures skip < |s| && (limit == 0 || skip + limit >= |s|) ==> |r| == |s| - skip
    ensures skip < |s| && limit > 0 && skip + limit < |s| ==> |r| == limit
    ensures forall i :: 0 <= i < |r| ==> skip + i < |s| && r[i] == s[skip + i]
  {
    if skip >= |s| then []
    else if limit == 0 || skip + limit >= |s| then s[skip..]
    else s[skip..skip + limit]
  }

  /** `sort({ createdAt: -1 }).skip(skip).limit(limit)`: the page of `s`
      that starts at position `skip` of the newest-first order. */
  function NewestPage<T(==,!new)>(s: seq<T>, createdAt: T -> nat, skip: nat, limit: nat): (r: seq<T>)
    ensures forall i :: 0 <= i < |r| ==> r[i] in s
    ensures forall i, j :: 0 <= i < j < |r| ==> createdAt(r[i]) >= createdAt(r[j])
    ensures limit > 0 ==> |r| <= limit
    ensures var sorted := NewestFirst(s, createdAt);
      forall i :: 0 <= i < |r| ==> skip + i < |sorted| && r[i] == sorted[skip + i]
  {
    var sorted := NewestFirst(s, createdAt);
    var r := Window(sorted, skip, limit);
    assert forall i :: 0 <= i < |r| ==> r[i] in multiset(sorted);
    r
  }

  lemma NewestPageIsWindow<T(!new)>(s: seq<T>, createdAt: T -> nat, skip: nat, limit: nat)
    ensures NewestPage(s, createdAt, skip, limit) == Window(NewestFirst(s, createdAt), skip, limit)
  {
  }

  /** The offset `(page - 1) * limit` is negative exactly on page 0 with a
      positive limit. */
  lemma OffsetSign(page: nat, limit: nat)
    ensures (page - 1) * limit < 0 <==> page == 0 && limit > 0
  {
    if page >= 1 {
      assert (page - 1) * limit >= 0;
    }
  }

  /** The skip of page `page`, `(page - 1) * limit`; pages follow each other
      `limit` apart. */
  function PageOffset(page: nat, limit: nat): (k: int)
    ensures k < 0 <==> page == 0 && limit > 0
    ensures page == 1 ==> k == 0
  {
    OffsetSign(page, limit);
    (page - 1) * limit
  }

  lemma PageOffsetNext(page: nat, limit: nat)
    ensures PageOffset(page + 1, limit) == PageOffset(page, limit) + limit
  {
  }

  /** `Math.ceil(n / d)` for a positive divisor: the least q with q * d >= n. */
  function CeilDiv(n: nat, d: nat): (q: nat)
    requires d > 0
    ensures q * d >= n
    ensures q > 0 ==> (q - 1) * d < n
  {
    if n % d == 0 then n / d else n / d + 1
  }

  /** `Math.ceil(total / limit)` as it reaches the JSON reply: dividing by a
      zero limit yields Infinity or NaN, which serialise as null (None). */
  function TotalPages(total: nat, limit: nat): (r: Option<nat>)
    ensures r.None? <==> limit == 0
    ensures r.Some? ==> r.value * limit >= total
    ensures r.Some? && r.value > 0 ==> (r.value - 1) * limit < total
  {
    if limit == 0 then None else Some(CeilDiv(total, limit))
  }
}
