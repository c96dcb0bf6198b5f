/** The comments handlers that carry rules: `addComment`, the owner-or-admin check and content
    merge of `updateComment`, `deleteComment`, and the report de-duplication of `reportComment`.
    The listing of `getAllComments` is `Listing.ListPage` with `ITEMS_PER_PAGE` as the limit. */
module CommentsController {
  import opened Js
  import opened Http
  import opened Access
  import opened Validation
  import opened CommentsModel
  import Reports

  /** The row `post.createComment({ content, userId })` builds: the post's id as `postId`, a fresh
      v4 `uuid` by default. */
  function NewComment(postId: Value, content: Value, userId: Value, uuid: string): (r: Record)
    ensures Get(r, "postId") == postId && Get(r, "content") == content && Get(r, "userId") == userId
    ensures Get(r, "uuid") == Str(uuid)
  {
    map["uuid" := Str(uuid), "content" := content, "userId" := userId, "postId" := postId]
  }

  /** A created comment passes the validators exactly when its content does and the post's id is an
      integer (the author may be absent). */
  lemma NewCommentValid(postId: Value, content: Value, userId: Value, uuid: string)
    requires userId.Num? || Absent(userId)
    ensures ValidComment(NewComment(postId, content, userId, uuid)) <==>
      ContentOk(content) && postId.Num? && NotEmpty(uuid)
  {
  }

  /** Every stored comment passes the validators. */
  ghost predicate AllValid(comments: map<string, Record>) {
    forall k :: k in comments ==> ValidComment(comments[k])
  }

  /** An update through the merged content keeps every stored comment valid. */
  lemma {:induction false} UpdateKeepsAllValid(comments: map<string, Record>, id: string, content: Value)
    requires AllValid(comments) && id in comments
    requires SaveColumn(comments[id], "content", Or(content, Get(comments[id], "content")),
                        ContentOk(Or(content, Get(comments[id], "content")))).Some?
    ensures AllValid(comments[id := SaveColumn(comments[id], "content", Or(content, Get(comments[id], "content")),
                                               ContentOk(Or(content, Get(comments[id], "content")))).value])
  {
    var comment := comments[id];
    var merged := Or(content, Get(comment, "content"));
    var saved := SaveColumn(comment, "content", merged, ContentOk(merged)).value;
    assert ValidComment(comment);
    if merged != Get(comment, "content") {
      assert Get(saved, "content") == merged;
      assert forall k :: k != "content" ==> Get(saved, k) == Get(comment, k);
    }
    assert ValidComment(saved);
  }

  /** The comments, the ids of the posts, and the comment reports. Comments are keyed by their id. */
  class CommentsService {
    var comments: map<string, Record>
    var postIds: set<Value>
    var reports: seq<Reports.Report>

    ghost predicate Valid()
      reads this
    {
      AllValid(comments) && Reports.NoDuplicates(reports)
    }

    constructor (postIds: set<Value>)
      ensures comments == map[] && this.postIds == postIds && reports == [] && Valid()
    {
      comments := map[];
      this.postIds := postIds;
      reports := [];
    }

    /** `addComment`: an undefined `postId` cannot be looked up (500); an unknown post answers 404;
        otherwise one comment by the requester is created on that post, or the validators refuse it
        (500). `key` and `uuid` are the ids the database and the ORM give the new row. */
    method AddComment(requester: Requester, postId: Value, content: Value, key: string, uuid: string) returns (step: Step)
      requires Valid() && key !in comments
      modifies this
      ensures Valid()
      ensures postId == Undefined ==> step == Respond(500, Undefined) && comments == old(comments)
      ensures postId != Undefined && postId !in postIds ==>
        step == Respond(404, Message("Post not found")) && comments == old(comments)
      ensures postId != Undefined && postId in postIds ==>
        var row := NewComment(postId, content, requester.id, uuid);
        && (ValidComment(row) ==> step == Respond(200, Obj(CommentJson(row))) && comments == old(comments)[key := row])
        && (!ValidComment(row) ==> step == Respond(500, Undefined) && comments == old(comments))
      ensures postIds == old(postIds) && reports == old(reports)
    {
      if postId == Undefined {
        return Respond(500, Undefined);
      }
      if postId !in postIds {
        return Respond(404, Message("Post not found"));
      }
      var row := NewComment(postId, content, requester.id, uuid);
      if !ValidComment(row) {
        return Respond(500, Undefined);
      }
      comments := comments[key := row];
      step := Respond(200, Obj(CommentJson(row)));
    }

    /** `updateComment`: 404, then 403 unless owner or admin, then the content merged with `||`. */
    method UpdateComment(requester: Requester, target: Target, content: Value) returns (step: Step)
      requires Valid()
      modifies this
      ensures Valid()
      ensures target.Malformed? ==> step == Continue && comments == old(comments)
      ensures target.Id? ==>
        var verdict := Authorize(Lookup(old(comments), target.value), requester, "userId");
        && (verdict != Allowed ==> step == Refusal(verdict, "Comment not found") && comments == old(comments))
        && (verdict == Allowed ==>
              var comment := old(comments)[target.value];
              var merged := Or(content, Get(comment, "content"));
              var saved := SaveColumn(comment, "content", merged, ContentOk(merged));
              && (saved.None? ==> step == Respond(500, Undefined) && comments == old(comments))
              && (saved.Some? ==> step == Respond(200, Obj(Stringified(saved.value)))
                                  && comments == old(comments)[target.value := saved.value]))
      ensures postIds == old(postIds) && reports == old(reports)
    {
      if target.Malformed? {
        return Continue;
      }
      var id := target.value;
      var verdict := Authorize(Lookup(comments, id), requester, "userId");
      if verdict != Allowed {
        return Refusal(verdict, "Comment not found");
      }
      var comment := comments[id];
      var merged := Or(content, Get(comment, "content"));
      var saved := SaveColumn(comment, "content", merged, ContentOk(merged));
      if saved.None? {
        return Respond(500, Undefined);
      }
      UpdateKeepsAllValid(comments, id, content);
      comments := comments[id := saved.value];
      step := Respond(200, Obj(Stringified(saved.value)));
    }

    /** `deleteComment`: 404, then 403 unless owner or admin, then the row is destroyed (204). */
    method DeleteComment(requester: Requester, target: Target) returns (step: Step)
      requires Valid()
      modifies this
      ensures Valid()
      ensures target.Malformed? ==> step == Continue && comments == old(comments)
      ensures target.Id? ==>
        var verdict := Authorize(Lookup(old(comments), target.value), requester, "userId");
        && (verdict == Allowed ==> step == Respond(204, Undefined) && comments == old(comments) - {target.value})
        && (verdict != Allowed ==> step == Refusal(verdict, "Comment not found") && comments == old(comments))
      ensures postIds == old(postIds) && reports == old(reports)
    {
      if target.Malformed? {
        return Continue;
      }
      var id := target.value;
      var verdict := Authorize(Lookup(comments, id), requester, "userId");
      if verdict != Allowed {
        return Refusal(verdict, "Comment not found");
      }
      comments := comments - {id};
      step := Respond(204, Undefined);
    }

    /** `reportComment` */
    method ReportComment(requester: Requester, target: Target) returns (step: Step)
      requires Valid()
      modifies this
      ensures Valid()
      ensures target.Malformed? ==> step == Continue && reports == old(reports)
      ensures target.Id? && target.value !in comments ==>
        step == Respond(404, Message("Comment not found")) && reports == old(reports)
      ensures target.Id? && target.value in comments ==>
        var (out, reply) := Reports.Reporting(old(reports), requester.id, target.value);
        && reports == out
        && (reply.AlreadyReported? ==> step == Respond(200, Message("You have already reported this comment")))
        && (reply.Reported? ==> step == Respond(201, Reports.Body(reply.report, "commentId")))
      ensures comments == old(comments) && postIds == old(postIds)
    {
      if target.Malformed? {
        return Continue;
      }
      var id := target.value;
      if id !in comments {
        return Respond(404, Message("Comment not found"));
      }
      Reports.ReportingKeepsNoDuplicates(reports, requester.id, id);
      if Reports.CountReports(reports, requester.id, id) > 0 {
        return Respond(200, Message("You have already reported this comment"));
      }
      var report := Reports.Report(requester.id, id);
      reports := reports + [report];
      step := Respond(201, Reports.Body(report, "commentId"));
    }
  }
}
