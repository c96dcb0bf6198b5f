/** The posts handlers that carry rules: the owner-or-admin check of `deletePost` and
    `updatePost`, the content fallback of `updatePost`, the vote validation and upsert of
    `handleVote`, and the report de-duplication of `reportPost`. The listing of `getAllPosts` is
    `Listing.ListPage` with `ITEMS_PER_PAGE` as the limit. */
module PostsController {
  import opened Js
  import opened Http
  import opened Access
  import PostsModel
  import Reports
  import opened Validation

  // ---------------------------------------------------------------------------------------------
  // Votes

  /** What the two checks of `handleVote` decide about `req.body.vote`. */
  datatype VoteCheck = VoteAccepted | NotAString | OutOfRange

  /** `typeof vote === 'number'` answers 422 first; then `!vote || vote != '-1' || vote > 1` answers
      422 again. */
  function CheckVote(vote: Value): (c: VoteCheck)
    ensures c == NotAString <==> vote.Num?
    ensures c == VoteAccepted ==> vote.Str?
  {
    if vote.Num? then NotAString
    else if !Truthy(vote) || !LooseEqualsString(vote, "-1") || GreaterThan(vote, 1) then OutOfRange
    else VoteAccepted
  }

  /** The answer to a refused vote. */
  function VoteRefusal(c: VoteCheck): (step: Step)
    requires c != VoteAccepted
    ensures step.Respond? && step.status == 422
  {
    if c == NotAString then Respond(422, Message("The vote value must be a string"))
    else Respond(422, Message("The vote value must be -1, 0 or 1"))
  }

  /** Whatever the documented range (-1, 0 or 1), the only value the checks let through is the
      string '-1'. */
  lemma OnlyMinusOneAccepted(vote: Value)
    ensures CheckVote(vote) == VoteAccepted <==> vote == Str("-1")
  {
    if vote == Str("-1") {
      assert ToNumber(vote) == Some(-1) by {
        assert "-1"[0] == '-';
        assert "-1"[1..] == "1";
        assert DigitsValue("1") == DigitsValue("") * 10 + 1;
      }
    }
  }

  /** The documented votes: the strings '0' and '1' are out of range, every number is refused as not
      a string. */
  lemma DocumentedVotesRefused(n: int)
    ensures CheckVote(Str("0")) == OutOfRange && CheckVote(Str("1")) == OutOfRange
    ensures CheckVote(Num(n)) == NotAString
  {
    OnlyMinusOneAccepted(Str("0"));
    OnlyMinusOneAccepted(Str("1"));
  }

  /** A row of the votes table. */
  datatype Vote = Vote(userId: Value, postId: string, vote: Value)

  /** `Votes.findOne({ where: { userId, postId } })`: the position of the first vote of the pair. */
  function FindVote(votes: seq<Vote>, userId: Value, postId: string): (i: Option<nat>)
    ensures i.None? <==> forall k :: 0 <= k < |votes| ==> !(votes[k].userId == userId && votes[k].postId == postId)
    ensures i.Some? ==> i.value < |votes| && votes[i.value].userId == userId && votes[i.value].postId == postId
  {
    if votes == [] then None
    else if votes[0].userId == userId && votes[0].postId == postId then Some(0)
    else match FindVote(votes[1..], userId, postId)
      case None => None
      case Some(k) => Some(k + 1)
  }

  /** No user has two votes on one post. */
  ghost predicate OneVotePerPair(votes: seq<Vote>) {
    forall i, j :: 0 <= i < j < |votes| ==> !(votes[i].userId == votes[j].userId && votes[i].postId == votes[j].postId)
  }

  datatype VoteReply = VoteCreated(created: Vote) | VoteUpdated(updated: Vote)

  /** The upsert: a new row (answered 201) when the pair has no vote, else the existing row with its
      value overwritten (answered 200). */
  function Upsert(votes: seq<Vote>, userId: Value, postId: string, vote: Value): (res: (seq<Vote>, VoteReply))
    ensures FindVote(votes, userId, postId).None? ==>
      res == (votes + [Vote(userId, postId, vote)], VoteCreated(Vote(userId, postId, vote)))
    ensures FindVote(votes, userId, postId).Some? ==>
      var i := FindVote(votes, userId, postId).value;
      res == (votes[i := Vote(userId, postId, vote)], VoteUpdated(Vote(userId, postId, vote)))
  {
    match FindVote(votes, userId, postId)
    case None => (votes + [Vote(userId, postId, vote)], VoteCreated(Vote(userId, postId, vote)))
    case Some(i) => (votes[i := votes[i].(vote := vote)], VoteUpdated(votes[i].(vote := vote)))
  }

  /** After an upsert the pair has exactly one vote, holding the new value, and every other vote is
      as it was. */
  lemma {:induction false} UpsertKeepsOneVotePerPair(votes: seq<Vote>, userId: Value, postId: string, vote: Value)
    requires OneVotePerPair(votes)
    ensures var out := Upsert(votes, userId, postId, vote).0;
      && OneVotePerPair(out)
      && FindVote(out, userId, postId).Some?
      && out[FindVote(out, userId, postId).value].vote == vote
      && forall k :: 0 <= k < |votes| && !(votes[k].userId == userId && votes[k].postId == postId) ==> out[k] == votes[k]
  {
    var out := Upsert(votes, userId, postId, vote).0;
    match FindVote(votes, userId, postId)
    case None =>
      forall i, j | 0 <= i < j < |out|
        ensures !(out[i].userId == out[j].userId && out[i].postId == out[j].postId)
      {
        if j == |votes| {
          assert out[i] == votes[i];
        }
      }
      assert out[|votes|].userId == userId && out[|votes|].postId == postId;
    case Some(i) =>
      assert forall k :: 0 <= k < |out| ==> out[k].userId == votes[k].userId && out[k].postId == votes[k].postId;
      var f := FindVote(out, userId, postId).value;
      assert f == i;
  }

  // ---------------------------------------------------------------------------------------------
  // Content fallback of `updatePost`

  /** `content || post.username`, as written: a posts row has no `username` attribute. */
  function MergedContentAsWritten(post: Record, content: Value): (merged: Value)
    ensures Truthy(content) ==> merged == content
    ensures !Truthy(content) ==> merged == Get(post, "username")
  {
    Or(content, Get(post, "username"))
  }

  /** Without new content the statement writes undefined into `content`: the value changed, the
      `notNull` validator fails on save, and the request is answered 500 instead of leaving the
      post as it was. */
  lemma OmittedContentFailsAsWritten(post: Record, content: Value)
    requires PostsModel.ValidPost(post) && "username" !in post && !Truthy(content)
    ensures MergedContentAsWritten(post, content) == Undefined
    ensures MergedContentAsWritten(post, content) != Get(post, "content")
    ensures !PostsModel.ContentOk(MergedContentAsWritten(post, content))
  {
  }

  /** `content || post.content`: the new content when one is given, else the stored one. */
  function MergedContent(post: Record, content: Value): (merged: Value)
    ensures Truthy(content) ==> merged == content
    ensures !Truthy(content) ==> merged == Get(post, "content")
    ensures PostsModel.ContentOk(Get(post, "content")) ==> Truthy(merged)
  {
    Or(content, Get(post, "content"))
  }

  /** `post.save()` after the assignment. */
  function SavedPost(post: Record, merged: Value): Option<Record> {
    SaveColumn(post, "content", merged, PostsModel.ContentOk(merged))
  }

  /** With the fallback on the stored content an update keeps a valid post valid, and an update that
      gives no content leaves the post untouched. */
  lemma UpdateKeepsValidPost(post: Record, content: Value)
    requires PostsModel.ValidPost(post)
    ensures SavedPost(post, MergedContent(post, content)).Some? ==>
      PostsModel.ValidPost(SavedPost(post, MergedContent(post, content)).value)
    ensures !Truthy(content) ==> SavedPost(post, MergedContent(post, content)) == Some(post)
  {
  }

  // ---------------------------------------------------------------------------------------------
  // The handlers

  /** The posts, votes and post reports tables, posts keyed by their id. */
  class PostsService {
    var posts: map<string, Record>
    var votes: seq<Vote>
    var reports: seq<Reports.Report>

    ghost predicate Valid()
      reads this
    {
      OneVotePerPair(votes) && Reports.NoDuplicates(reports)
    }

    constructor ()
      ensures posts == map[] && votes == [] && reports == [] && Valid()
    {
      posts := map[];
      votes := [];
      reports := [];
    }

    /** `deletePost` */
    method DeletePost(requester: Requester, target: Target) returns (step: Step)
      modifies this
      ensures target.Malformed? ==> step == Continue && posts == old(posts)
      ensures target.Id? ==>
        var verdict := Authorize(Lookup(old(posts), target.value), requester, "userId");
        && (verdict == Allowed ==> step == Respond(204, Undefined) && posts == old(posts) - {target.value})
        && (verdict != Allowed ==> step == Refusal(verdict, "Post not found") && posts == old(posts))
      ensures votes == old(votes) && reports == old(reports)
    {
      if target.Malformed? {
        return Continue;
      }
      var id := target.value;
      var verdict := Authorize(Lookup(posts, id), requester, "userId");
      if verdict != Allowed {
        return Refusal(verdict, "Post not found");
      }
      posts := posts - {id};
      step := Respond(204, Undefined);
    }

    /** `updatePost`, with the content falling back on the stored content. */
    method UpdatePost(requester: Requester, target: Target, content: Value) returns (step: Step)
      modifies this
      ensures target.Malformed? ==> step == Continue && posts == old(posts)
      ensures target.Id? ==>
        var verdict := Authorize(Lookup(old(posts), target.value), requester, "userId");
        && (verdict != Allowed ==> step == Refusal(verdict, "Post not found") && posts == old(posts))
        && (verdict == Allowed ==>
              var saved := SavedPost(old(posts)[target.value], MergedContent(old(posts)[target.value], content));
              && (saved.None? ==> step == Respond(500, Undefined) && posts == old(posts))
              && (saved.Some? ==> step == Respond(200, Obj(Stringified(saved.value)))
                                  && posts == old(posts)[target.value := saved.value]))
      ensures votes == old(votes) && reports == old(reports)
    {
      if target.Malformed? {
        return Continue;
      }
      var id := target.value;
      var verdict := Authorize(Lookup(posts, id), requester, "userId");
      if verdict != Allowed {
        return Refusal(verdict, "Post not found");
      }
      var post := posts[id];
      var saved := SavedPost(post, Or(content, Get(post, "content")));
      if saved.None? {
        return Respond(500, Undefined);
      }
      posts := posts[id := saved.value];
      step := Respond(200, Obj(Stringified(saved.value)));
    }

    /** `handleVote`: the vote is checked before the post is looked up. */
    method HandleVote(requester: Requester, target: Target, vote: Value) returns (step: Step)
      requires Valid()
      modifies this
      ensures Valid()
      ensures target.Malformed? ==> step == Continue && votes == old(votes)
      ensures target.Id? && CheckVote(vote) != VoteAccepted ==> step == VoteRefusal(CheckVote(vote)) && votes == old(votes)
      ensures target.Id? && CheckVote(vote) == VoteAccepted && target.value !in posts ==>
        step == Respond(404, Message("Post not found")) && votes == old(votes)
      ensures target.Id? && CheckVote(vote) == VoteAccepted && target.value in posts ==>
        var (out, reply) := Upsert(old(votes), requester.id, target.value, vote);
        && votes == out
        && (reply.VoteCreated? ==> step == Respond(201, VoteBody(reply.created)))
        && (reply.VoteUpdated? ==> step == Respond(200, VoteBody(reply.updated)))
      ensures posts == old(posts) && reports == old(reports)
    {
      if target.Malformed? {
        return Continue;
      }
      var id := target.value;
      var check := CheckVote(vote);
      if check != VoteAccepted {
        return VoteRefusal(check);
      }
      if id !in posts {
        return Respond(404, Message("Post not found"));
      }
      UpsertKeepsOneVotePerPair(votes, requester.id, id, vote);
      var found := FindVote(votes, requester.id, id);
      if found.None? {
        var created := Vote(requester.id, id, vote);
        votes := votes + [created];
        return Respond(201, VoteBody(created));
      }
      var updated := votes[found.value].(vote := vote);
      votes := votes[found.value := updated];
      step := Respond(200, VoteBody(updated));
    }

    /** `reportPost` */
    method ReportPost(requester: Requester, target: Target) returns (step: Step)
      requires Valid()
      modifies this
      ensures Valid()
      ensures target.Malformed? ==> step == Continue && reports == old(reports)
      ensures target.Id? && target.value !in posts ==>
        step == Respond(404, Message("Post not found")) && reports == old(reports)
      ensures target.Id? && target.value in posts ==>
        var (out, reply) := Reports.Reporting(old(reports), requester.id, target.value);
        && reports == out
        && (reply.AlreadyReported? ==> step == Respond(200, Message("You have already reported this post")))
        && (reply.Reported? ==> step == Respond(201, Reports.Body(reply.report, "postId")))
      ensures posts == old(posts) && votes == old(votes)
    {
      if target.Malformed? {
        return Continue;
      }
      var id := target.value;
      if id !in posts {
        return Respond(404, Message("Post not found"));
      }
      Reports.ReportingKeepsNoDuplicates(reports, requester.id, id);
      if Reports.CountReports(reports, requester.id, id) > 0 {
        return Respond(200, Message("You have already reported this post"));
      }
      var report := Reports.Report(requester.id, id);
      reports := reports + [report];
      step := Respond(201, Reports.Body(report, "postId"));
    }
  }

  /** The JSON of a vote row. */
  function VoteBody(v: Vote): Value {
    Obj(map["userId" := v.userId, "postId" := Str(v.postId), "vote" := v.vote])
  }
}
