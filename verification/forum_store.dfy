/** The forum's two collections and the handlers that change them: the vote
    ledger, the report recorder, reply and topic creation, and the
    moderator's delete and approve actions. Each handler runs to completion
    before the next one starts. */
module ForumStore {
  import opened Common
  import opened Seqs
  import opened ForumModel
  import opened ForumTopics

  datatype VoteResult = VoteResult(upvotes: seq<UserId>, downvotes: seq<UserId>, userVote: Option<VoteKind>)

  /** The reply handler's view of the session: the user id may be missing,
      in which case the user is looked up by email. */
  datatype ReplySession = ReplySession(id: Option<UserId>, email: string)

  class Forum {
    var topics: map<Id, Topic>
    var replies: map<Id, Reply>
    /** The next document id the store hands out; ids are never reused. */
    var nextId: Id

    /** Every item keeps one vote per user and consistent report
        bookkeeping; every reply's topic exists and lists the reply. A
        topic's `replies` may also hold ids of replies deleted without being
        detached. */
    ghost predicate Valid()
      reads this
    {
      (forall id :: id in topics ==> id < nextId && ItemOk(topics[id].moderation, topics[id].votes)) &&
      (forall id :: id in replies ==>
        id < nextId && ItemOk(replies[id].moderation, replies[id].votes) &&
        replies[id].topic in topics && id in topics[replies[id].topic].replies)
    }

    constructor ()
      ensures Valid()
      ensures topics == map[] && replies == map[]
    {
      topics := map[];
      replies := map[];
      nextId := 0;
    }

    /** POST /api/forum/vote. Any `kind` other than "topic" addresses the
        reply collection. */
    method Vote(caller: Option<UserId>, id: Option<Id>, kind: string, action: RawAction)
      returns (r: Response<VoteResult>)
      requires Valid()
      modifies this
      ensures Valid() && nextId == old(nextId)
      ensures caller.None? ==> r == Fail(401, "Unauthorized")
      ensures caller.Some? && (id.None? || kind == "" || action.Undefined?) ==>
        r == Fail(400, "Missing required fields")
      ensures r.Fail? ==> topics == old(topics) && replies == old(replies)
      ensures caller.Some? && id.Some? && kind != "" && !action.Undefined? ==>
        var user, key := caller.value, id.value;
        if kind == "topic" then
          if key !in old(topics) then r == Fail(404, "Item not found")
          else
            var v := CastVote(old(topics)[key].votes, user, action);
            topics == old(topics)[key := old(topics)[key].(votes := v)] && replies == old(replies) &&
            r == Ok(200, VoteResult(v.upvotes, v.downvotes, UserVote(v, user)))
        else
          if key !in old(replies) then r == Fail(404, "Item not found")
          else
            var v := CastVote(old(replies)[key].votes, user, action);
            replies == old(replies)[key := old(replies)[key].(votes := v)] && topics == old(topics) &&
            r == Ok(200, VoteResult(v.upvotes, v.downvotes, UserVote(v, user)))
    {
      if caller.None? {
        return Fail(401, "Unauthorized");
      }
      if id.None? || kind == "" || action.Undefined? {
        return Fail(400, "Missing required fields");
      }
      var user, key := caller.value, id.value;
      var votes: Votes;
      if kind == "topic" {
        if key !in topics {
          return Fail(404, "Item not found");
        }
        votes := topics[key].votes;
      } else {
        if key !in replies {
          return Fail(404, "Item not found");
        }
        votes := replies[key].votes;
      }
      // remove the caller from both lists, then append per action
      var up := Without(votes.upvotes, user);
      var down := Without(votes.downvotes, user);
      if action == Text("upvote") {
        up := up + [user];
      } else if action == Text("downvote") {
        down := down + [user];
      }
      var updated := Votes(up, down);
      assert updated == CastVote(votes, user, action);
      CastVoteKeepsOneVoteEach(votes, user, action);
      if kind == "topic" {
        topics := topics[key := topics[key].(votes := updated)];
      } else {
        replies := replies[key := replies[key].(votes := updated)];
      }
      r := Ok(200, VoteResult(up, down, UserVote(updated, user)));
    }

    /** POST /api/forum/report. */
    method Report(caller: Option<UserId>, id: Option<Id>, kind: string, reason: Option<string>, now: nat)
      returns (r: Response<string>)
      requires Valid()
      modifies this
      ensures Valid() && nextId == old(nextId)
      ensures caller.None? ==> r == Fail(401, "Unauthorized")
      ensures caller.Some? && !ReportBodyOk(id, kind, reason) ==> r == Fail(400, "Invalid input")
      ensures r.Fail? ==> topics == old(topics) && replies == old(replies)
      ensures caller.Some? && ReportBodyOk(id, kind, reason) ==>
        var user, key := caller.value, id.value;
        if kind == "topic" then
          if key !in old(topics) then r == Fail(404, kind + " not found")
          else if user in old(topics)[key].moderation.reportedBy then
            r == Fail(400, "You have already reported this content")
          else
            var m := TryReport(old(topics)[key].moderation, user, reason.value, now).value;
            topics == old(topics)[key := old(topics)[key].(moderation := m)] && replies == old(replies) &&
            r == Ok(200, kind + " reported successfully")
        else
          if key !in old(replies) then r == Fail(404, kind + " not found")
          else if user in old(replies)[key].moderation.reportedBy then
            r == Fail(400, "You have already reported this content")
          else
            var m := TryReport(old(replies)[key].moderation, user, reason.value, now).value;
            replies == old(replies)[key := old(replies)[key].(moderation := m)] && topics == old(topics) &&
            r == Ok(200, kind + " reported successfully")
    {
      if caller.None? {
        return Fail(401, "Unauthorized");
      }
      if !ReportBodyOk(id, kind, reason) {
        return Fail(400, "Invalid input");
      }
      var user, key := caller.value, id.value;
      var m: Moderation;
      if kind == "topic" {
        if key !in topics {
          return Fail(404, kind + " not found");
        }
        m := topics[key].moderation;
      } else {
        if key !in replies {
          return Fail(404, kind + " not found");
        }
        m := replies[key].moderation;
      }
      var reported := TryReport(m, user, reason.value, now);
      if reported.None? {
        return Fail(400, "You have already reported this content");
      }
      TryReportEffect(m, user, reason.value, now);
      if kind == "topic" {
        topics := topics[key := topics[key].(moderation := reported.value)];
      } else {
        replies := replies[key := replies[key].(moderation := reported.value)];
      }
      r := Ok(200, kind + " reported successfully");
    }

    /** POST /api/forum/reply. `emails` is the user collection's email
        index, consulted when the session carries no user id. */
    method CreateReply(session: Option<ReplySession>, emails: map<string, UserId>,
                       topicId: Option<Id>, content: string, now: nat)
      returns (r: Response<Id>)
      requires Valid()
      modifies this
      ensures Valid()
      ensures session.None? ==> r == Fail(401, "Unauthorized")
      ensures session.Some? && session.value.id.None? && session.value.email !in emails ==>
        r == Fail(404, "User not found")
      ensures r.Fail? ==> topics == old(topics) && replies == old(replies) && nextId == old(nextId)
      ensures session.Some? && (session.value.id.Some? || session.value.email in emails) ==>
        var author := if session.value.id.Some? then session.value.id.value else emails[session.value.email];
        if topicId.None? || content == "" then r == Fail(400, "Missing required fields")
        else if topicId.value !in old(topics) then r == Fail(404, "Topic not found")
        else
          var t, newId := topicId.value, old(nextId);
          newId !in old(replies) && newId !in old(topics) &&
          replies == old(replies)[newId := Reply(content, author, t, Unmoderated, NoVotes, now)] &&
          topics == old(topics)[t := old(topics)[t].(replies := old(topics)[t].replies + [newId])] &&
          nextId == newId + 1 && r == Ok(201, newId)
    {
      if session.None? {
        return Fail(401, "Unauthorized");
      }
      var author: UserId;
      if session.value.id.Some? {
        author := session.value.id.value;
      } else if session.value.email in emails {
        author := emails[session.value.email];
      } else {
        return Fail(404, "User not found");
      }
      if topicId.None? || content == "" {
        return Fail(400, "Missing required fields");
      }
      var t := topicId.value;
      if t !in topics {
        return Fail(404, "Topic not found");
      }
      var newId := nextId;
      FreshItemOk();
      replies := replies[newId := Reply(content, author, t, Unmoderated, NoVotes, now)];
      topics := topics[t := topics[t].(replies := topics[t].replies + [newId])];
      nextId := nextId + 1;
      r := Ok(201, newId);
    }

    /** POST /api/forum. On a schema failure `errors` names the offending
        fields; tags outside the enumeration pass the schema and are refused
        when the document is saved. */
    method CreateTopic(caller: Option<UserId>, req: TopicRequest, now: nat)
      returns (r: Response<Id>, errors: set<TopicField>)
      requires Valid()
      modifies this
      ensures Valid() && replies == old(replies)
      ensures caller.None? ==> r == Fail(401, "Unauthorized") && errors == {}
      ensures caller.Some? && TopicFieldErrors(req) != {} ==>
        r == Fail(400, "Invalid input") && errors == TopicFieldErrors(req)
      ensures caller.Some? && TopicFieldErrors(req) == {} && !KnownTags(req.tags) ==>
        r == Fail(500, "Internal server error") && errors == {}
      ensures r.Fail? ==> topics == old(topics) && nextId == old(nextId)
      ensures caller.Some? && TopicFieldErrors(req) == {} && KnownTags(req.tags) ==>
        var newId := old(nextId);
        newId !in old(topics) &&
        topics == old(topics)[newId := NewTopic(req, caller.value, now)] &&
        nextId == newId + 1 && r == Ok(201, newId) && errors == {}
    {
      errors := {};
      if caller.None? {
        return Fail(401, "Unauthorized"), errors;
      }
      if TopicFieldErrors(req) != {} {
        return Fail(400, "Invalid input"), TopicFieldErrors(req);
      }
      if !KnownTags(req.tags) {
        return Fail(500, "Internal server error"), errors;
      }
      var newId := nextId;
      FreshItemOk();
      topics := topics[newId := NewTopic(req, caller.value, now)];
      nextId := nextId + 1;
      r := Ok(201, newId);
    }

    /** POST /api/admin/moderation: "delete" (a topic takes its listed
        replies with it; a reply is first pulled from its topic's list) or
        "approve". A `kind` other than "topic" addresses the reply
        collection; a kind that is neither "topic" nor "reply" deletes the
        reply without detaching it. Deleting or approving an id that does
        not exist changes nothing and still reports success. */
    method Moderate(session: Option<Session>, id: Option<Id>, kind: string, action: string, now: nat)
      returns (r: Response<string>)
      requires Valid()
      modifies this
      ensures Valid() && nextId == old(nextId)
      ensures !IsAdmin(session) ==> r == Fail(401, "Unauthorized")
      ensures IsAdmin(session) && (id.None? || kind == "" || action == "") ==>
        r == Fail(400, "Missing required fields")
      ensures IsAdmin(session) && id.Some? && kind != "" && action != "" &&
              action != "delete" && action != "approve" ==>
        r == Fail(400, "Invalid action")
      ensures r.Fail? ==> topics == old(topics) && replies == old(replies)
      ensures IsAdmin(session) && id.Some? && kind != "" && action == "delete" ==>
        var key := id.value;
        r == Ok(200, kind + " deleted successfully") &&
        if kind == "topic" then
          if key in old(topics) then
            topics == old(topics) - {key} &&
            replies == old(replies) - (set x | x in old(topics)[key].replies)
          else topics == old(topics) && replies == old(replies)
        else if kind == "reply" && key in old(replies) && old(replies)[key].topic in old(topics) then
          var t := old(replies)[key].topic;
          topics == old(topics)[t := old(topics)[t].(replies := Without(old(topics)[t].replies, key))] &&
          replies == old(replies) - {key}
        else
          topics == old(topics) && replies == old(replies) - {key}
      ensures IsAdmin(session) && id.Some? && kind != "" && action == "approve" ==>
        var key, admin := id.value, session.value.id;
        r == Ok(200, kind + " approved") &&
        if kind == "topic" then
          replies == old(replies) &&
          topics == if key in old(topics)
                    then old(topics)[key := old(topics)[key].(moderation := Approve(old(topics)[key].moderation, admin, now))]
                    else old(topics)
        else
          topics == old(topics) &&
          replies == if key in old(replies)
                     then old(replies)[key := old(replies)[key].(moderation := Approve(old(replies)[key].moderation, admin, now))]
                     else old(replies)
    {
      if !IsAdmin(session) {
        return Fail(401, "Unauthorized");
      }
      if id.None? || kind == "" || action == "" {
        return Fail(400, "Missing required fields");
      }
      var key := id.value;
      if action == "delete" {
        if kind == "topic" {
          if key in topics {
            replies := replies - (set x | x in topics[key].replies);
          }
          topics := topics - {key};
        } else {
          if kind == "reply" && key in replies {
            var t := replies[key].topic;
            topics := topics[t := topics[t].(replies := Without(topics[t].replies, key))];
          }
          replies := replies - {key};
        }
        return Ok(200, kind + " deleted successfully");
      }
      if action == "approve" {
        var admin := session.value.id;
        if kind == "topic" {
          if key in topics {
            ApproveKeepsReports(topics[key].moderation, admin, now);
            topics := topics[key := topics[key].(moderation := Approve(topics[key].moderation, admin, now))];
          }
        } else {
          if key in replies {
            ApproveKeepsReports(replies[key].moderation, admin, now);
            replies := replies[key := replies[key].(moderation := Approve(replies[key].moderation, admin, now))];
          }
        }
        return Ok(200, kind + " approved");
      }
      return Fail(400, "Invalid action");
    }

    /** After a topic is deleted no remaining reply refers to it. */
    lemma DeletedTopicLeavesNoReplies(key: Id)
      requires Valid() && key in topics
      ensures forall x :: x in replies - (set y | y in topics[key].replies) ==> replies[x].topic != key
    {
    }
  }

  /** What `reportSchema` accepts: an id, a type of "topic" or "reply", and a
      reason of 1 to 500 characters. */
  predicate ReportBodyOk(id: Option<Id>, kind: string, reason: Option<string>) {
    id.Some? && (kind == "topic" || kind == "reply") && reason.Some? && 1 <= |reason.value| <= 500
  }
}
