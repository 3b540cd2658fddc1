/** The public comments API: GET assembles the two-level thread of one piece of
    content, POST validates and appends a top-level comment. Comments live in one
    JSON document holding a flat list. */
module CommentsRoute {
  import opened Common
  import opened Records
  import Seqs

  // ---------------------------------------------------------------------------
  // Thread assembly (GET)

  /** The comment belongs to the given piece of content. */
  predicate SamePlace(c: Comment, contentType: string, id: string) {
    c.contentType == contentType && c.contentId == id
  }

  /** A top-level comment of the content: its `parentId` is missing or empty. */
  predicate IsTopLevel(c: Comment, contentType: string, id: string) {
    SamePlace(c, contentType, id) && !Truthy(c.parentId)
  }

  /** A flat reply to the comment `parentId` on the same content. */
  predicate IsReplyTo(c: Comment, parentId: string, contentType: string, id: string) {
    c.parentId == Some(parentId) && SamePlace(c, contentType, id)
  }

  function TopLevel(all: seq<Comment>, contentType: string, id: string): (r: seq<Comment>)
    ensures forall c :: c in r <==> c in all && IsTopLevel(c, contentType, id)
  {
    Seqs.Filter(all, c => IsTopLevel(c, contentType, id))
  }

  /** The flat replies to `parentId`, oldest first. */
  function RepliesOf(all: seq<Comment>, parentId: string, contentType: string, id: string): seq<Comment> {
    Seqs.SortBy(Seqs.Filter(all, c => IsReplyTo(c, parentId, contentType, id)), DateOf)
  }

  /** `{ ...comment, replies }`: the stored `replies` field is overwritten. */
  function WithReplies(all: seq<Comment>, c: Comment, contentType: string, id: string): Comment {
    c.(replies := Some(RepliesOf(all, c.id, contentType, id)))
  }

  function Assembled(all: seq<Comment>, contentType: string, id: string): (r: seq<Comment>)
    ensures |r| == |TopLevel(all, contentType, id)|
    ensures forall i :: 0 <= i < |r| ==> r[i] == WithReplies(all, TopLevel(all, contentType, id)[i], contentType, id)
  {
    var tops := TopLevel(all, contentType, id);
    seq(|tops|, i requires 0 <= i < |tops| => WithReplies(all, tops[i], contentType, id))
  }

  /** The top-level entries with their replies, newest first. */
  function Threads(all: seq<Comment>, contentType: string, id: string): seq<Comment> {
    Seqs.SortBy(Assembled(all, contentType, id), NewestFirst)
  }

  /** The body of a GET answer: the threads without type, content id and parent id. */
  function Listing(all: seq<Comment>, contentType: string, id: string): (r: seq<PublicComment>)
    ensures |r| == |Threads(all, contentType, id)|
  {
    var threads := Threads(all, contentType, id);
    seq(|threads|, i requires 0 <= i < |threads| => Public(threads[i]))
  }

  /** Before sorting, every stored top-level comment has its entry ... */
  lemma AssembledComplete(all: seq<Comment>, contentType: string, id: string)
    ensures forall c :: c in all && IsTopLevel(c, contentType, id) ==>
      WithReplies(all, c, contentType, id) in Assembled(all, contentType, id)
  {
    var tops := TopLevel(all, contentType, id);
    var assembled := Assembled(all, contentType, id);
    forall c | c in all && IsTopLevel(c, contentType, id)
      ensures WithReplies(all, c, contentType, id) in assembled
    {
      var i :| 0 <= i < |tops| && tops[i] == c;
      assert assembled[i] == WithReplies(all, c, contentType, id);
    }
  }

  /** ... and every entry comes from a stored top-level comment. */
  lemma AssembledSound(all: seq<Comment>, contentType: string, id: string)
    ensures forall x :: x in Assembled(all, contentType, id) ==>
      exists c :: c in all && IsTopLevel(c, contentType, id) && x == WithReplies(all, c, contentType, id)
  {
    var tops := TopLevel(all, contentType, id);
    var assembled := Assembled(all, contentType, id);
    forall x | x in assembled
      ensures exists c :: c in all && IsTopLevel(c, contentType, id) && x == WithReplies(all, c, contentType, id)
    {
      var i :| 0 <= i < |assembled| && assembled[i] == x;
      assert tops[i] in tops;
    }
  }

  /** The top-level entries are exactly the stored top-level comments of the content,
      each with its `replies` rebuilt, one entry per stored comment, newest first. */
  lemma ThreadsCharacterised(all: seq<Comment>, contentType: string, id: string)
    ensures |Threads(all, contentType, id)| == |TopLevel(all, contentType, id)|
    ensures Seqs.SortedBy(Threads(all, contentType, id), NewestFirst)
    ensures forall c :: c in all && IsTopLevel(c, contentType, id) ==>
      WithReplies(all, c, contentType, id) in Threads(all, contentType, id)
    ensures forall x :: x in Threads(all, contentType, id) ==>
      exists c :: c in all && IsTopLevel(c, contentType, id) && x == WithReplies(all, c, contentType, id)
  {
    Seqs.SameMembers(Threads(all, contentType, id), Assembled(all, contentType, id));
    AssembledComplete(all, contentType, id);
    AssembledSound(all, contentType, id);
  }

  /** The replies of an entry are exactly the stored flat replies to it on the same
      content, oldest first. */
  lemma RepliesCharacterised(all: seq<Comment>, parentId: string, contentType: string, id: string)
    ensures forall r :: r in RepliesOf(all, parentId, contentType, id) <==> r in all && IsReplyTo(r, parentId, contentType, id)
    ensures Seqs.SortedBy(RepliesOf(all, parentId, contentType, id), DateOf)
  {
    var flat := Seqs.Filter(all, c => IsReplyTo(c, parentId, contentType, id));
    Seqs.SameMembers(RepliesOf(all, parentId, contentType, id), flat);
  }

  /** Every entry of the answer is the public view of a thread, in the same order;
      the nested replies keep all of their fields. */
  lemma ListingIsPublicThreads(all: seq<Comment>, contentType: string, id: string)
    ensures forall i :: 0 <= i < |Listing(all, contentType, id)| ==>
      var x := Threads(all, contentType, id)[i];
      Listing(all, contentType, id)[i] == PublicComment(x.id, x.author, x.content, x.date, x.authorLiked, x.replies)
  {
  }

  // ---------------------------------------------------------------------------
  // Posting (POST)

  /** The body fields of a POST; a field the body does not carry is `None`. */
  datatype CommentRequest = CommentRequest(
    contentType: Option<string>, id: Option<string>, author: Option<string>, content: Option<string>)

  predicate Complete(r: CommentRequest) {
    Truthy(r.contentType) && Truthy(r.id) && Truthy(r.author) && Truthy(r.content)
  }

  /** The first validation rule a request breaks, in the order the route checks them. */
  function Rejection(r: CommentRequest): (e: Option<string>)
    ensures e == None <==>
      Complete(r) && |Trim(r.author.value)| >= 2 && 3 <= |Trim(r.content.value)| <= 1000
    ensures !Complete(r) ==> e == Some("Missing required fields")
  {
    if !Complete(r) then Some("Missing required fields")
    else if |Trim(r.author.value)| < 2 then Some("Name must be at least 2 characters")
    else if |Trim(r.content.value)| < 3 then Some("Comment must be at least 3 characters")
    else if |Trim(r.content.value)| > 1000 then Some("Comment is too long (max 1000 characters)")
    else None
  }

  /** The record a valid request creates, with the id and timestamp the server draws. */
  function NewComment(r: CommentRequest, newId: string, now: int): (c: Comment)
    requires Complete(r)
    ensures c.id == newId && c.date == now
    ensures c.author == Trim(r.author.value) && c.content == Trim(r.content.value)
    ensures IsTopLevel(c, r.contentType.value, r.id.value)
    ensures c.authorLiked == Some(false) && c.replies == Some([])
  {
    Comment(newId, Trim(r.author.value), Trim(r.content.value), now,
            r.contentType.value, r.id.value, None, Some(false), Some([]))
  }

  /** A newly posted comment is a top-level entry of the next listing of its content. */
  lemma PostedCommentListed(all: seq<Comment>, r: CommentRequest, newId: string, now: int)
    requires Complete(r)
    ensures var c := NewComment(r, newId, now);
      var after := all + [c];
      WithReplies(after, c, r.contentType.value, r.id.value) in Threads(after, r.contentType.value, r.id.value)
  {
    var c := NewComment(r, newId, now);
    ThreadsCharacterised(all + [c], r.contentType.value, r.id.value);
  }

  /** GET: the thread listing of `type`/`id`; a missing file is created holding `[]`. */
  method Get(doc: Document<seq<Comment>>, contentType: Option<string>, id: Option<string>)
    returns (resp: Response<seq<PublicComment>>)
    requires doc.empty == []
    modifies doc`file
    ensures !Truthy(contentType) || !Truthy(id) ==>
      resp == Error(400, "Missing type or id") && doc.file == old(doc.file)
    ensures Truthy(contentType) && Truthy(id) && old(doc.file).Absent? && !doc.writable ==>
      resp == Error(500, Unhandled) && doc.file == old(doc.file)
    ensures Truthy(contentType) && Truthy(id) && !(old(doc.file).Absent? && !doc.writable) ==>
      resp == Json(200, Listing(ReadOr(old(doc.file), []), contentType.value, id.value)) &&
      doc.file == if old(doc.file).Absent? then Stored([]) else old(doc.file)
  {
    if !Truthy(contentType) || !Truthy(id) {
      return Error(400, "Missing type or id");
    }
    var loaded := doc.Load();
    if loaded.Err? {
      return Error(500, Unhandled);
    }
    resp := Json(200, Listing(loaded.value, contentType.value, id.value));
  }

  /** POST: a valid request appends exactly one record at the end of the stored list
      and answers 201 with it, without type and content id. */
  method Post(doc: Document<seq<Comment>>, body: Option<CommentRequest>, newId: string, now: int)
    returns (resp: Response<PublicComment>)
    requires doc.empty == []
    modifies doc`file
    ensures body.None? ==> resp == Error(500, "Failed to create comment") && doc.file == old(doc.file)
    ensures body.Some? && Rejection(body.value).Some? ==>
      resp == Error(400, Rejection(body.value).value) && doc.file == old(doc.file)
    ensures body.Some? && Rejection(body.value).None? ==>
      var c := NewComment(body.value, newId, now);
      if doc.writable then
        resp == Json(201, Public(c)) && doc.file == Stored(ReadOr(old(doc.file), []) + [c])
      else
        resp == Error(500, "Failed to create comment") && doc.file == old(doc.file)
  {
    if body.None? {
      return Error(500, "Failed to create comment");
    }
    var request := body.value;
    var rejection := Rejection(request);
    if rejection.Some? {
      return Error(400, rejection.value);
    }
    var loaded := doc.Load();
    if loaded.Err? {
      return Error(500, "Failed to create comment");
    }
    var comments := loaded.value;
    var c := NewComment(request, newId, now);
    comments := comments + [c];
    var saved := doc.Save(comments);
    if saved.Threw? {
      return Error(500, "Failed to create comment");
    }
    resp := Json(201, Public(c));
  }
}
