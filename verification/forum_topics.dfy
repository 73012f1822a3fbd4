/** The topic collection endpoint: the `createTopicSchema` check and the
    listing's search/spot filter and paging (app/api/forum/route.ts). The
    insertion of a new topic is `ForumStore.Forum.CreateTopic`. */
module ForumTopics {
  import opened Common
  import opened Text
  import opened Seqs
  import opened Query
  import opened ForumModel

  /** The fixed tag enumeration of the topic schema. */
  const FORUM_TAGS: seq<string> := [
    "Beginners", "Advanced", "Surf Spots", "Gear Talk", "Safety",
    "Weather", "Events", "Technique", "Local Tips", "Meet Ups"]

  /** The body of a create request. `author` is whatever the client sent:
      the schema strips it and the handler never reads it. A missing string
      field is modelled as "" and a missing tag list as [], which fail the
      same length checks. */
  datatype TopicRequest = TopicRequest(
    title: string,
    content: string,
    tags: seq<string>,
    linkedSpot: Option<Id>,
    author: Option<UserId>)

  datatype TopicField = TitleField | ContentField | TagsField

  /** The fields `createTopicSchema` rejects. */
  function TopicFieldErrors(req: TopicRequest): (errs: set<TopicField>)
    ensures errs == {} <==>
      5 <= |req.title| <= 100 && 10 <= |req.content| <= 5000 && 1 <= |req.tags| <= 5
    ensures errs <= {TitleField, ContentField, TagsField}
  {
    (if 5 <= |req.title| <= 100 then {} else {TitleField}) +
    (if 10 <= |req.content| <= 5000 then {} else {ContentField}) +
    (if 1 <= |req.tags| <= 5 then {} else {TagsField})
  }

  /** The schema does not restrict tag values; the document model's enum
      does, when the topic is saved. */
  predicate KnownTags(tags: seq<string>) {
    forall i :: 0 <= i < |tags| ==> tags[i] in FORUM_TAGS
  }

  /** The document a valid request creates: authored by the session user,
      with schema defaults for everything the request does not set. */
  function NewTopic(req: TopicRequest, author: UserId, now: nat): (t: Topic)
    ensures t.author == author && t.title == req.title && t.content == req.content
    ensures t.tags == req.tags && t.linkedSpot == req.linkedSpot && t.replies == []
    ensures t.moderation == Unmoderated && t.votes == NoVotes && t.createdAt == now
  {
    Topic(req.title, req.content, author, req.tags, [], req.linkedSpot, Unmoderated, NoVotes, now)
  }

  /** The author of a new topic never depends on the body's `author` field. */
  lemma NewTopicIgnoresBodyAuthor(req: TopicRequest, other: Option<UserId>, author: UserId, now: nat)
    ensures NewTopic(req.(author := other), author, now) == NewTopic(req, author, now)
  {
  }

  // -------------------------------------------------------------- listing

  /** Query parameters of the listing; None where the URL lacks one. */
  datatype ListQuery = ListQuery(page: Option<nat>, limit: Option<nat>, search: string, spot: Option<Id>)

  /** The listing filter: a non-empty `search` must occur (ignoring case)
      in the title or in one of the tags; a `spot` must equal the linked
      spot; both conditions apply together. */
  predicate TopicMatches(t: Topic, search: string, spot: Option<Id>) {
    (search != "" ==> ContainsCI(t.title, search) || exists tag :: tag in t.tags && ContainsCI(tag, search)) &&
    (spot.Some? ==> t.linkedSpot == spot)
  }

  function Newest(t: Topic): nat { t.createdAt }

  /** The topics the listing's query object selects, in store order. */
  function Matching(all: seq<Topic>, search: string, spot: Option<Id>): seq<Topic> {
    Filter(all, (t: Topic) => TopicMatches(t, search, spot))
  }

  datatype TopicPage = TopicPage(topics: seq<Topic>, currentPage: nat, totalPages: Option<nat>, totalTopics: nat)

  /** The GET handler: filter, newest first, `skip((page - 1) * limit)`,
      `limit(limit)`, with the page count of all matches. A page of 0 makes
      the skip negative, which the store refuses: the handler answers 500. */
  function ListTopics(all: seq<Topic>, q: ListQuery): (r: Response<TopicPage>)
    ensures r.Fail? <==> q.page == Some(0) && q.limit.GetOr(10) > 0
    ensures r.Fail? ==> r.status == 500
    ensures r.Ok? ==> r.status == 200 && r.body.currentPage == q.page.GetOr(1)
    ensures r.Ok? ==> forall i :: 0 <= i < |r.body.topics| ==>
      r.body.topics[i] in all && TopicMatches(r.body.topics[i], q.search, q.spot)
    ensures r.Ok? ==> forall i, j :: 0 <= i < j < |r.body.topics| ==>
      r.body.topics[i].createdAt >= r.body.topics[j].createdAt
    ensures r.Ok? && q.limit.GetOr(10) > 0 ==> |r.body.topics| <= q.limit.GetOr(10)
    ensures r.Ok? ==> r.body.totalTopics == |Matching(all, q.search, q.spot)| <= |all|
    ensures r.Ok? ==> r.body.totalPages == TotalPages(r.body.totalTopics, q.limit.GetOr(10))
  {
    var page := q.page.GetOr(1);
    var limit := q.limit.GetOr(10);
    var matching := Matching(all, q.search, q.spot);
    if page == 0 && limit > 0 then Fail(500, "Internal server error")
    else Ok(200, TopicPage(NewestPage(matching, Newest, PageOffset(page, limit), limit), page,
                           TotalPages(|matching|, limit), |matching|))
  }

  /** Without paging parameters the listing shows the ten newest matches. */
  lemma ListTopicsDefaults(all: seq<Topic>, search: string, spot: Option<Id>)
    ensures var r := ListTopics(all, ListQuery(None, None, search, spot));
      r.Ok? && r.body.currentPage == 1 &&
      r.body.topics == Window(NewestFirst(Matching(all, search, spot), Newest), 0, 10)
  {
  }

  /** A page from 1 on is the window of the newest-first matches that
      starts `PageOffset(page, limit)` in. */
  lemma ListTopicsPage(all: seq<Topic>, search: string, spot: Option<Id>, page: nat, limit: nat)
    requires page >= 1 && limit > 0
    ensures var r := ListTopics(all, ListQuery(Some(page), Some(limit), search, spot));
      r.Ok? && r.body.topics == Window(NewestFirst(Matching(all, search, spot), Newest), PageOffset(page, limit), limit)
  {
    NewestPageIsWindow(Matching(all, search, spot), Newest, PageOffset(page, limit), limit);
  }
}
