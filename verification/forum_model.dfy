/** The forum's documents (topics and replies) and the per-item rules that
    the vote, report and moderation handlers apply to them. */
module ForumModel {
  import opened Common
  import opened Seqs

  /** One `{ user, reason, createdAt }` element of an item's `reports` list. */
  datatype ReportEntry = ReportEntry(user: UserId, reason: string, createdAt: nat)

  /** The moderation fields a topic and a reply both carry. */
  datatype Moderation = Moderation(
    reportCount: nat,
    reportedBy: seq<UserId>,
    reports: seq<ReportEntry>,
    isReviewed: bool,
    reviewedBy: Option<UserId>,
    reviewedAt: Option<nat>)

  /** Schema defaults of a freshly created item. */
  const Unmoderated := Moderation(0, [], [], false, None, None)

  /** The two vote lists; each entry is the `user` of a `{ user }` element. */
  datatype Votes = Votes(upvotes: seq<UserId>, downvotes: seq<UserId>)

  const NoVotes := Votes([], [])

  datatype Topic = Topic(
    title: string,
    content: string,
    author: UserId,
    tags: seq<string>,
    replies: seq<Id>,
    linkedSpot: Option<Id>,
    moderation: Moderation,
    votes: Votes,
    createdAt: nat)

  datatype Reply = Reply(
    content: string,
    author: UserId,
    topic: Id,
    moderation: Moderation,
    votes: Votes,
    createdAt: nat)

  /** The `action` field of a vote request as JSON delivers it: absent,
      null (or any other non-string value), or a string. */
  datatype RawAction = Undefined | Null | Text(s: string)

  datatype VoteKind = Upvote | Downvote

  // ---------------------------------------------------------------- votes

  /** Every user holds at most one vote on an item, across both lists. */
  ghost predicate OneVoteEach(v: Votes) {
    forall u :: Count(v.upvotes, u) + Count(v.downvotes, u) <= 1
  }

  /** The vote ledger's update: drop the caller from both lists, then append
      the caller to the list the action names ("upvote" or "downvote");
      any other action leaves the vote cleared. */
  function CastVote(v: Votes, user: UserId, action: RawAction): Votes {
    var up := Without(v.upvotes, user);
    var down := Without(v.downvotes, user);
    if action == Text("upvote") then Votes(up + [user], down)
    else if action == Text("downvote") then Votes(up, down + [user])
    else Votes(up, down)
  }

  /** The vote an action asks for. */
  function Requested(action: RawAction): Option<VoteKind> {
    if action == Text("upvote") then Some(Upvote)
    else if action == Text("downvote") then Some(Downvote)
    else None
  }

  /** `userVote` of the reply: found by scanning the up list, then the down list. */
  function UserVote(v: Votes, user: UserId): (r: Option<VoteKind>)
    ensures r == Some(Upvote) <==> user in v.upvotes
    ensures r == Some(Downvote) <==> user !in v.upvotes && user in v.downvotes
    ensures r == None <==> user !in v.upvotes && user !in v.downvotes
  {
    if user in v.upvotes then Some(Upvote)
    else if user in v.downvotes then Some(Downvote)
    else None
  }

  /** After "upvote" the caller is in the up list exactly once and not in the down list. */
  lemma CastUpvote(v: Votes, user: UserId)
    ensures Count(CastVote(v, user, Text("upvote")).upvotes, user) == 1
    ensures user !in CastVote(v, user, Text("upvote")).downvotes
  {
    CountAppend(Without(v.upvotes, user), [user], user);
    CountWithout(v.upvotes, user, user);
  }

  /** After "downvote" the caller is in the down list exactly once and not in the up list. */
  lemma CastDownvote(v: Votes, user: UserId)
    ensures Count(CastVote(v, user, Text("downvote")).downvotes, user) == 1
    ensures user !in CastVote(v, user, Text("downvote")).upvotes
  {
    CountAppend(Without(v.downvotes, user), [user], user);
    CountWithout(v.downvotes, user, user);
  }

  /** Any other action (null included) leaves the caller in neither list. */
  lemma CastOther(v: Votes, user: UserId, action: RawAction)
    requires Requested(action) == None
    ensures user !in CastVote(v, user, action).upvotes
    ensures user !in CastVote(v, user, action).downvotes
  {
  }

  /** Removing the caller from the updated lists gives back the other
      users' entries exactly as they were, in their original order; a new
      vote goes at the end of its list. */
  lemma {:induction false} CastVoteKeepsOthers(v: Votes, user: UserId, action: RawAction)
    ensures Without(CastVote(v, user, action).upvotes, user) == Without(v.upvotes, user)
    ensures Without(CastVote(v, user, action).downvotes, user) == Without(v.downvotes, user)
    ensures Requested(action) == Some(Upvote) ==>
      var up := CastVote(v, user, action).upvotes; |up| > 0 && up[|up| - 1] == user
    ensures Requested(action) == Some(Downvote) ==>
      var down := CastVote(v, user, action).downvotes; |down| > 0 && down[|down| - 1] == user
  {
    var up := Without(v.upvotes, user);
    var down := Without(v.downvotes, user);
    WithoutTwice(v.upvotes, user);
    WithoutTwice(v.downvotes, user);
    WithoutAppend(up, [user], user);
    WithoutAppend(down, [user], user);
    assert Without([user], user) == [];
    assert up + [] == up && down + [] == down;
  }

  /** Voting twice with the same action gives the lists of voting once. */
  lemma {:induction false} CastVoteIdempotent(v: Votes, user: UserId, action: RawAction)
    ensures CastVote(CastVote(v, user, action), user, action) == CastVote(v, user, action)
  {
    CastVoteKeepsOthers(v, user, action);
  }

  /** The `userVote` the handler reports is the vote the action asked for. */
  lemma CastVoteUserVote(v: Votes, user: UserId, action: RawAction)
    ensures UserVote(CastVote(v, user, action), user) == Requested(action)
  {
    if action == Text("upvote") {
      CastUpvote(v, user);
      CountZero(CastVote(v, user, action).upvotes, user);
    } else if action == Text("downvote") {
      CastDownvote(v, user);
      CountZero(CastVote(v, user, action).downvotes, user);
    }
  }

  /** Upvoting and then downvoting leaves the caller only in the down list. */
  lemma UpvoteThenDownvote(v: Votes, user: UserId)
    ensures var w := CastVote(CastVote(v, user, Text("upvote")), user, Text("downvote"));
      user !in w.upvotes && Count(w.downvotes, user) == 1
  {
    CastDownvote(CastVote(v, user, Text("upvote")), user);
  }

  /** The ledger keeps "at most one vote per user" across both lists. */
  lemma {:induction false} CastVoteKeepsOneVoteEach(v: Votes, user: UserId, action: RawAction)
    requires OneVoteEach(v)
    ensures OneVoteEach(CastVote(v, user, action))
  {
    var r := CastVote(v, user, action);
    var up := Without(v.upvotes, user);
    var down := Without(v.downvotes, user);
    forall u ensures Count(r.upvotes, u) + Count(r.downvotes, u) <= 1 {
      CountWithout(v.upvotes, user, u);
      CountWithout(v.downvotes, user, u);
      CountAppend(up, [user], u);
      CountAppend(down, [user], u);
      assert Count(v.upvotes, u) + Count(v.downvotes, u) <= 1;
    }
  }

  // -------------------------------------------------------------- reports

  /** `reportedBy` has no repeats, `reportCount` is its length, and the
      `reports` list runs in step with it. */
  ghost predicate ReportsConsistent(m: Moderation) {
    NoDup(m.reportedBy) &&
    m.reportCount == |m.reportedBy| &&
    |m.reports| == |m.reportedBy| &&
    forall i :: 0 <= i < |m.reports| ==> m.reports[i].user == m.reportedBy[i]
  }

  /** The report recorder's check and update (`$inc` the counter, `$push`
      onto both lists); None is the "already reported" rejection. */
  function TryReport(m: Moderation, user: UserId, reason: string, now: nat): (r: Option<Moderation>)
    ensures r.None? <==> user in m.reportedBy
  {
    if user in m.reportedBy then None
    else Some(m.(reportCount := m.reportCount + 1,
                 reportedBy := m.reportedBy + [user],
                 reports := m.reports + [ReportEntry(user, reason, now)]))
  }

  /** A successful report raises the count by one, records exactly one entry
      for the caller, keeps the lists consistent and leaves the review
      fields alone. */
  lemma TryReportEffect(m: Moderation, user: UserId, reason: string, now: nat)
    requires ReportsConsistent(m)
    requires user !in m.reportedBy
    ensures var r := TryReport(m, user, reason, now);
      r.Some? && ReportsConsistent(r.value) &&
      r.value.reportCount == m.reportCount + 1 &&
      Count(r.value.reportedBy, user) == 1 &&
      r.value.reports == m.reports + [ReportEntry(user, reason, now)] &&
      r.value.isReviewed == m.isReviewed && r.value.reviewedBy == m.reviewedBy &&
      r.value.reviewedAt == m.reviewedAt
  {
    AppendFreshNoDup(m.reportedBy, user);
    CountZero(m.reportedBy, user);
    CountAppend(m.reportedBy, [user], user);
  }

  /** Reporting the same item twice: the second attempt is rejected, so the
      count rises by exactly one. */
  lemma ReportTwice(m: Moderation, user: UserId, r1: string, r2: string, t1: nat, t2: nat)
    requires TryReport(m, user, r1, t1).Some?
    ensures TryReport(TryReport(m, user, r1, t1).value, user, r2, t2).None?
    ensures TryReport(m, user, r1, t1).value.reportCount == m.reportCount + 1
  {
    assert user in TryReport(m, user, r1, t1).value.reportedBy;
  }

  // ------------------------------------------------------------- approval

  /** Approval marks the item reviewed by the caller at `now`. */
  function Approve(m: Moderation, admin: UserId, now: nat): (r: Moderation)
    ensures r.isReviewed && r.reviewedBy == Some(admin) && r.reviewedAt == Some(now)
    ensures r.reportCount == m.reportCount && r.reportedBy == m.reportedBy && r.reports == m.reports
  {
    m.(isReviewed := true, reviewedBy := Some(admin), reviewedAt := Some(now))
  }

  /** Approval keeps the report bookkeeping consistent. */
  lemma ApproveKeepsReports(m: Moderation, admin: UserId, now: nat)
    requires ReportsConsistent(m)
    ensures ReportsConsistent(Approve(m, admin, now))
  {
  }

  // ------------------------------------------------------ document health

  ghost predicate ItemOk(m: Moderation, v: Votes) {
    ReportsConsistent(m) && OneVoteEach(v)
  }

  lemma FreshItemOk()
    ensures ItemOk(Unmoderated, NoVotes)
  {
    assert forall u :: Count(NoVotes.upvotes, u) == 0;
  }
}
