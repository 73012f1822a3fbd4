/** The moderator's content listing (GET /api/admin/moderation): the
    status and search filters, assembled the way the handler assembles its
    two query objects, and the per-type paging windows. */
module ModerationListing {
  import opened Common
  import opened Text
  import opened Seqs
  import opened Query
  import opened ForumModel

  /** Words whose presence (in any letter case) flags an item. */
  const FLAGGED_WORDS: seq<string> := [
    "inappropriate", "offensive", "spam", "scam", "abuse", "hate", "violent", "explicit"]

  datatype ContentType = AllTypes | TopicsOnly | RepliesOnly
  datatype Status = AnyStatus | Flagged | Reported

  /** The parsed query string; `search` is "" when absent. */
  datatype ModQuery = ModQuery(page: nat, limit: nat, contentType: ContentType, status: Status, search: string)

  /** The text condition of a query object: the alternation of the flagged
      words, or the moderator's search term. */
  datatype Pattern = FlaggedWords | Term(term: string)

  /** A query object: `reportCount > 0` when `reported`, and the text
      condition on the `$or` of title and content (topics) or on `content`
      (replies). */
  datatype ContentFilter = ContentFilter(reported: bool, pattern: Option<Pattern>)

  predicate PatternMatches(p: Pattern, text: string) {
    match p
    case FlaggedWords => exists i :: 0 <= i < |FLAGGED_WORDS| && ContainsCI(text, FLAGGED_WORDS[i])
    case Term(s) => ContainsCI(text, s)
  }

  /** The status clause, then the search clause written over the same key,
      so a search replaces the flagged-word condition. */
  function BuildFilter(status: Status, search: string): (f: ContentFilter)
    ensures f.reported <==> status == Reported
    ensures search != "" ==> f.pattern == Some(Term(search))
    ensures search == "" ==> (f.pattern == Some(FlaggedWords) <==> status == Flagged)
    ensures search == "" && status != Flagged ==> f.pattern == None
  {
    var base := match status
      case AnyStatus => ContentFilter(false, None)
      case Flagged => ContentFilter(false, Some(FlaggedWords))
      case Reported => ContentFilter(true, None);
    if search != "" then base.(pattern := Some(Term(search))) else base
  }

  predicate TopicFilterMatches(f: ContentFilter, t: Topic) {
    (f.reported ==> t.moderation.reportCount > 0) &&
    (f.pattern.Some? ==> PatternMatches(f.pattern.value, t.title) || PatternMatches(f.pattern.value, t.content))
  }

  predicate ReplyFilterMatches(f: ContentFilter, r: Reply) {
    (f.reported ==> r.moderation.reportCount > 0) &&
    (f.pattern.Some? ==> PatternMatches(f.pattern.value, r.content))
  }

  /** Whether a topic is listed, stated per status and search. */
  function SelectTopic(status: Status, search: string, t: Topic): (b: bool)
    ensures search == "" && status == AnyStatus ==> b
    ensures search == "" && status == Flagged ==>
      (b <==> exists i :: 0 <= i < |FLAGGED_WORDS| &&
                (ContainsCI(t.title, FLAGGED_WORDS[i]) || ContainsCI(t.content, FLAGGED_WORDS[i])))
    ensures search == "" && status == Reported ==> (b <==> t.moderation.reportCount > 0)
    ensures search != "" && status != Reported ==>
      (b <==> ContainsCI(t.title, search) || ContainsCI(t.content, search))
    ensures search != "" && status == Reported ==>
      (b <==> t.moderation.reportCount > 0 && (ContainsCI(t.title, search) || ContainsCI(t.content, search)))
  {
    TopicFilterMatches(BuildFilter(status, search), t)
  }

  /** Whether a reply is listed, stated per status and search. */
  function SelectReply(status: Status, search: string, r: Reply): (b: bool)
    ensures search == "" && status == AnyStatus ==> b
    ensures search == "" && status == Flagged ==>
      (b <==> exists i :: 0 <= i < |FLAGGED_WORDS| && ContainsCI(r.content, FLAGGED_WORDS[i]))
    ensures search == "" && status == Reported ==> (b <==> r.moderation.reportCount > 0)
    ensures search != "" && status != Reported ==> (b <==> ContainsCI(r.content, search))
    ensures search != "" && status == Reported ==>
      (b <==> r.moderation.reportCount > 0 && ContainsCI(r.content, search))
  {
    ReplyFilterMatches(BuildFilter(status, search), r)
  }

  /** With a search term, "flagged" lists exactly what "all" lists. */
  lemma FlaggedSearchIsSearch(search: string, t: Topic, r: Reply)
    requires search != ""
    ensures SelectTopic(Flagged, search, t) == SelectTopic(AnyStatus, search, t)
    ensures SelectReply(Flagged, search, r) == SelectReply(AnyStatus, search, r)
  {
  }

  datatype ModerationPage = ModerationPage(
    topics: seq<Topic>,
    replies: seq<Reply>,
    currentPage: nat,
    totalPages: Option<nat>,
    totalTopics: nat,
    totalReplies: nat,
    totalItems: nat)

  function TopicCreated(t: Topic): nat { t.createdAt }
  function ReplyCreated(r: Reply): nat { r.createdAt }

  /** The topic query's `skip`: the page offset for "all", 0 for "topics". */
  function TopicSkip(q: ModQuery): int {
    if q.contentType == AllTypes then (q.page - 1) * q.limit else 0
  }

  /** The topic query's `limit`: `limit` for "all", `limit / 2` for "topics". */
  function TopicLimit(q: ModQuery): nat {
    if q.contentType == AllTypes then q.limit else q.limit / 2
  }

  /** The reply query's `skip`: 0 for "all", the page offset for "replies". */
  function ReplySkip(q: ModQuery): int {
    if q.contentType == AllTypes then 0 else (q.page - 1) * q.limit
  }

  /** The reply query's `limit`: `limit / 2` for "all", `limit` for "replies". */
  function ReplyLimit(q: ModQuery): nat {
    if q.contentType == AllTypes then q.limit / 2 else q.limit
  }

  function MatchedTopics(topics: seq<Topic>, q: ModQuery): seq<Topic> {
    Filter(topics, (t: Topic) => SelectTopic(q.status, q.search, t))
  }

  function MatchedReplies(replies: seq<Reply>, q: ModQuery): seq<Reply> {
    Filter(replies, (x: Reply) => SelectReply(q.status, q.search, x))
  }

  /** The page the handler assembles once both queries have run. */
  function PageOf(topics: seq<Topic>, replies: seq<Reply>, q: ModQuery): (p: ModerationPage)
    requires q.contentType != RepliesOnly ==> TopicSkip(q) >= 0
    requires q.contentType != TopicsOnly ==> ReplySkip(q) >= 0
    ensures p.currentPage == q.page
    ensures p.totalItems == p.totalTopics + p.totalReplies
    ensures p.totalPages == TotalPages(p.totalItems, q.limit)
    ensures q.contentType == RepliesOnly ==> p.topics == [] && p.totalTopics == 0
    ensures q.contentType == TopicsOnly ==> p.replies == [] && p.totalReplies == 0
    ensures q.contentType != RepliesOnly ==>
      p.totalTopics == |MatchedTopics(topics, q)| &&
      p.topics == NewestPage(MatchedTopics(topics, q), TopicCreated, TopicSkip(q), TopicLimit(q))
    ensures q.contentType != TopicsOnly ==>
      p.totalReplies == |MatchedReplies(replies, q)| &&
      p.replies == NewestPage(MatchedReplies(replies, q), ReplyCreated, ReplySkip(q), ReplyLimit(q))
  {
    var shownTopics := if q.contentType != RepliesOnly then NewestPage(MatchedTopics(topics, q), TopicCreated, TopicSkip(q), TopicLimit(q)) else [];
    var shownReplies := if q.contentType != TopicsOnly then NewestPage(MatchedReplies(replies, q), ReplyCreated, ReplySkip(q), ReplyLimit(q)) else [];
    var totalTopics := if q.contentType != RepliesOnly then |MatchedTopics(topics, q)| else 0;
    var totalReplies := if q.contentType != TopicsOnly then |MatchedReplies(replies, q)| else 0;
    ModerationPage(shownTopics, shownReplies, q.page, TotalPages(totalTopics + totalReplies, q.limit),
                   totalTopics, totalReplies, totalTopics + totalReplies)
  }

  /** The GET handler over the two collections. A negative skip (page 0
      with a positive limit) is refused by the store wherever it is used,
      which the handler answers with 500. */
  function ListModeration(session: Option<Session>, topics: seq<Topic>, replies: seq<Reply>, q: ModQuery)
    : (r: Response<ModerationPage>)
    ensures !IsAdmin(session) <==> r == Fail(401, "Unauthorized")
    ensures IsAdmin(session) ==> (r.Fail? <==> q.page == 0 && q.limit > 0 && q.contentType != TopicsOnly)
    ensures IsAdmin(session) && r.Fail? ==> r == Fail(500, "Internal server error")
    ensures r.Ok? ==> r.status == 200 && (q.page >= 1 || q.limit == 0 || q.contentType == TopicsOnly)
    ensures r.Ok? ==> r.body == PageOf(topics, replies, q)
  {
    OffsetSign(q.page, q.limit);
    if !IsAdmin(session) then Fail(401, "Unauthorized")
    else if (q.contentType != RepliesOnly && TopicSkip(q) < 0) || (q.contentType != TopicsOnly && ReplySkip(q) < 0) then
      Fail(500, "Internal server error")
    else Ok(200, PageOf(topics, replies, q))
  }

  /** Every listed item comes from its collection and satisfies the
      selection for the query's status and search. */
  lemma ListedAreSelected(session: Option<Session>, topics: seq<Topic>, replies: seq<Reply>, q: ModQuery)
    requires ListModeration(session, topics, replies, q).Ok?
    ensures var page := ListModeration(session, topics, replies, q).body;
      (forall i :: 0 <= i < |page.topics| ==> page.topics[i] in topics && SelectTopic(q.status, q.search, page.topics[i])) &&
      (forall i :: 0 <= i < |page.replies| ==> page.replies[i] in replies && SelectReply(q.status, q.search, page.replies[i]))
  {
    var page := ListModeration(session, topics, replies, q).body;
    forall i | 0 <= i < |page.topics|
      ensures page.topics[i] in topics && SelectTopic(q.status, q.search, page.topics[i])
    {
      assert page.topics[i] in MatchedTopics(topics, q);
    }
    forall i | 0 <= i < |page.replies|
      ensures page.replies[i] in replies && SelectReply(q.status, q.search, page.replies[i])
    {
      assert page.replies[i] in MatchedReplies(replies, q);
    }
  }

  /** For type "all" the page holds at most `limit` topics and `limit / 2`
      replies, the replies always taken from the newest. */
  lemma AllTypesWindows(session: Option<Session>, topics: seq<Topic>, replies: seq<Reply>, q: ModQuery)
    requires IsAdmin(session) && q.contentType == AllTypes && q.page >= 1 && q.limit >= 2
    ensures var r := ListModeration(session, topics, replies, q);
      r.Ok? && |r.body.topics| <= q.limit && |r.body.replies| <= q.limit / 2 &&
      forall i :: 0 <= i < |r.body.replies| ==>
        r.body.replies[i] == NewestFirst(MatchedReplies(replies, q), ReplyCreated)[i]
  {
  }

  /** Type "topics" ignores the page: every page shows the same topics. */
  lemma TopicsOnlyIgnoresPage(session: Option<Session>, topics: seq<Topic>, replies: seq<Reply>, q: ModQuery, p: nat)
    requires IsAdmin(session) && q.contentType == TopicsOnly
    ensures ListModeration(session, topics, replies, q).Ok?
    ensures ListModeration(session, topics, replies, q.(page := p)).body.topics ==
            ListModeration(session, topics, replies, q).body.topics
  {
  }
}
