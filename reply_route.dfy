/** The reply API: POST validates a reply, finds its parent by id and nests the
    reply inside the parent's `replies` list, then rewrites the comments document. */
module ReplyRoute {
  import opened Common
  import opened Records
  import CommentsRoute
  import Seqs

  /** The body fields of a POST; a field the body does not carry is `None`. */
  datatype ReplyRequest = ReplyRequest(
    contentType: Option<string>, contentId: Option<string>, commentId: Option<string>,
    author: Option<string>, content: Option<string>)

  predicate Complete(r: ReplyRequest) {
    Truthy(r.contentType) && Truthy(r.contentId) && Truthy(r.commentId) && Truthy(r.author) && Truthy(r.content)
  }

  /** The first validation rule a request breaks. Only the content length is checked:
      replies accept an author name of any length. */
  function Rejection(r: ReplyRequest): (e: Option<string>)
    ensures e == None <==> Complete(r) && 3 <= |Trim(r.content.value)| <= 500
    ensures !Complete(r) ==> e == Some("Missing required fields")
  {
    if !Complete(r) then Some("Missing required fields")
    else if |Trim(r.content.value)| < 3 then Some("Reply must be at least 3 characters")
    else if |Trim(r.content.value)| > 500 then Some("Reply is too long (max 500 characters)")
    else None
  }

  /** The author's name takes no part in the validation: any non-empty name is
      accepted, however short. */
  lemma RejectionIgnoresAuthor(r: ReplyRequest, author: string)
    requires author != ""
    ensures Truthy(r.author) ==> Rejection(r.(author := Some(author))) == Rejection(r)
  {
  }

  /** The reply record: its parent is `commentId`; it has neither `authorLiked`
      nor `replies`. */
  function NewReply(r: ReplyRequest, newId: string, now: int): (c: Comment)
    requires Complete(r)
    ensures c.id == newId && c.date == now && c.parentId == Some(r.commentId.value)
    ensures c.author == Trim(r.author.value) && c.content == Trim(r.content.value)
    ensures c.contentType == r.contentType.value && c.contentId == r.contentId.value
    ensures c.authorLiked == None && c.replies == None
  {
    Comment(newId, Trim(r.author.value), Trim(r.content.value), now,
            r.contentType.value, r.contentId.value, Some(r.commentId.value), None, None)
  }

  /** Some stored comment has the id. */
  predicate HasComment(all: seq<Comment>, id: string) {
    exists i | 0 <= i < |all| :: all[i].id == id
  }

  /** `all.find(c => c.id === id)`: the index of the first comment with that id. */
  function FindById(all: seq<Comment>, id: string): (k: Option<nat>)
    ensures k.Some? <==> HasComment(all, id)
    ensures k.Some? ==> k.value < |all| && all[k.value].id == id
    ensures k.Some? ==> forall j :: 0 <= j < k.value ==> all[j].id != id
  {
    if all == [] then None
    else if all[0].id == id then Some(0)
    else
      var rest := FindById(all[1..], id);
      assert HasComment(all, id) ==> HasComment(all[1..], id) by {
        if HasComment(all, id) {
          var i :| 0 <= i < |all| && all[i].id == id;
          assert all[1..][i - 1] == all[i];
        }
      }
      if rest.Some? then Some(rest.value + 1) else None
  }

  /** The parent after `replies.push(reply)`, a missing list counting as empty. */
  function Nested(parent: Comment, reply: Comment): (p: Comment)
    ensures p == parent.(replies := p.replies)
    ensures p.replies.Some? && |p.replies.value| >= 1 && p.replies.value[|p.replies.value| - 1] == reply
    ensures parent.replies.Some? ==> p.replies.value == parent.replies.value + [reply]
    ensures parent.replies.None? ==> p.replies.value == [reply]
  {
    parent.(replies := Some((if parent.replies.Some? then parent.replies.value else []) + [reply]))
  }

  /** The list the route saves: every entry with the parent's id is replaced by the
      first such entry with the reply nested into it. */
  function Attach(all: seq<Comment>, commentId: string, reply: Comment): (r: seq<Comment>)
    requires HasComment(all, commentId)
    ensures |r| == |all|
    ensures forall i :: 0 <= i < |all| ==> r[i].id == all[i].id
    ensures forall i :: 0 <= i < |all| && all[i].id != commentId ==> r[i] == all[i]
    ensures forall i :: 0 <= i < |all| && all[i].id == commentId ==>
      r[i] == Nested(all[FindById(all, commentId).value], reply)
  {
    var parent := Nested(all[FindById(all, commentId).value], reply);
    seq(|all|, i requires 0 <= i < |all| => if all[i].id == commentId then parent else all[i])
  }

  /** The reply is never stored as a flat entry: when its id is fresh, no entry of
      the saved list carries it. */
  lemma ReplyNotFlat(all: seq<Comment>, commentId: string, reply: Comment)
    requires HasComment(all, commentId) && !HasComment(all, reply.id)
    ensures !HasComment(Attach(all, commentId, reply), reply.id)
  {
  }

  /** One entry of the listing built from a list without the reply's id: neither
      the entry nor any of its rebuilt replies is the reply. */
  lemma EntryIsNotReply(after: seq<Comment>, reply: Comment, c: Comment, contentType: string, id: string)
    requires !HasComment(after, reply.id) && c in after
    ensures var x := CommentsRoute.WithReplies(after, c, contentType, id);
      x.id != reply.id && x.replies.Some? && reply !in x.replies.value
  {
    var x := CommentsRoute.WithReplies(after, c, contentType, id);
    var i :| 0 <= i < |after| && after[i] == c;
    CommentsRoute.RepliesCharacterised(after, c.id, contentType, id);
  }

  /** A reply posted through this route is never listed as a thread or as a direct
      reply of one: the listing rebuilds `replies` from flat entries only, and
      overwrites the nested list. (Nested under a flat reply, it would be carried
      one level deeper inside that reply's own `replies`.) */
  lemma NestedReplyNeverListed(all: seq<Comment>, commentId: string, reply: Comment, contentType: string, id: string)
    requires HasComment(all, commentId) && !HasComment(all, reply.id)
    ensures var threads := CommentsRoute.Threads(Attach(all, commentId, reply), contentType, id);
      forall x :: x in threads ==>
        x.id != reply.id && x.replies.Some? && reply !in x.replies.value
  {
    var after := Attach(all, commentId, reply);
    ReplyNotFlat(all, commentId, reply);
    CommentsRoute.ThreadsCharacterised(after, contentType, id);
    forall x | x in CommentsRoute.Threads(after, contentType, id)
      ensures x.id != reply.id && x.replies.Some? && reply !in x.replies.value
    {
      var c :| c in after && CommentsRoute.IsTopLevel(c, contentType, id) &&
        x == CommentsRoute.WithReplies(after, c, contentType, id);
      EntryIsNotReply(after, reply, c, contentType, id);
    }
  }

  /** POST: the saved list has the length and the ids of the stored one; the reply
      is nested into its parent and answered with 201, without type, content id and
      parent id. */
  method Post(doc: Document<seq<Comment>>, body: Option<ReplyRequest>, newId: string, now: int)
    returns (resp: Response<PublicComment>)
    requires doc.empty == []
    modifies doc`file
    ensures body.None? ==> resp == Error(500, "Failed to create reply") && doc.file == old(doc.file)
    ensures body.Some? && Rejection(body.value).Some? ==>
      resp == Error(400, Rejection(body.value).value) && doc.file == old(doc.file)
    ensures body.Some? && Rejection(body.value).None? && old(doc.file).Absent? && !doc.writable ==>
      resp == Error(500, "Failed to create reply") && doc.file == old(doc.file)
    ensures body.Some? && Rejection(body.value).None? && !(old(doc.file).Absent? && !doc.writable) ==>
      var all := ReadOr(old(doc.file), []);
      var commentId := body.value.commentId.value;
      var reply := NewReply(body.value, newId, now);
      if !HasComment(all, commentId) then
        resp == Error(404, "Parent comment not found") &&
        doc.file == (if old(doc.file).Absent? then Stored([]) else old(doc.file))
      else if doc.writable then
        resp == Json(201, Public(reply)) && doc.file == Stored(Attach(all, commentId, reply))
      else
        resp == Error(500, "Failed to create reply") && doc.file == old(doc.file)
  {
    if body.None? {
      return Error(500, "Failed to create reply");
    }
    var request := body.value;
    var rejection := Rejection(request);
    if rejection.Some? {
      return Error(400, rejection.value);
    }
    var loaded := doc.Load();
    if loaded.Err? {
      return Error(500, "Failed to create reply");
    }
    var all := loaded.value;
    var commentId := request.commentId.value;
    var found := FindById(all, commentId);
    if found.None? {
      return Error(404, "Parent comment not found");
    }
    var reply := NewReply(request, newId, now);
    var updated := Attach(all, commentId, reply);
    var saved := doc.Save(updated);
    if saved.Threw? {
      return Error(500, "Failed to create reply");
    }
    resp := Json(201, Public(reply));
  }
}
