/** The comments block under an article, video or book: the threads fetched from
    the comments API, the form for a new comment, and the local updates made when
    a reply is posted or the author's heart is toggled. Each local update is
    followed by a fresh fetch, which is a separate call to `Fetch` here. */
module CommentsSection {
  import opened Common
  import opened Records
  import CommentsRoute

  /** A reply as the browser shows it: only one level of replies is drawn, with
      its author, date and text. */
  datatype Reply = Reply(id: string, author: string, content: string, date: int)

  /** A comment as the browser holds it, parsed from the API's JSON. */
  datatype Entry = Entry(
    id: string,
    author: string,
    content: string,
    date: int,
    replies: Option<seq<Reply>>,
    authorLiked: Option<bool>)

  /** The browser's view of a stored reply record sent inside `replies`. */
  function ReplyOf(c: Comment): Reply {
    Reply(c.id, c.author, c.content, c.date)
  }

  /** The browser's view of a reply the reply API sends. */
  function ReplyOfPublic(p: PublicComment): Reply {
    Reply(p.id, p.author, p.content, p.date)
  }

  /** The browser's view of a comment the API sends: its replies, when present,
      one for one. */
  function FromPublic(p: PublicComment): (e: Entry)
    ensures e.id == p.id && e.author == p.author && e.content == p.content && e.date == p.date
    ensures e.authorLiked == p.authorLiked && e.replies.Some? == p.replies.Some?
    ensures p.replies.Some? ==> (|e.replies.value| == |p.replies.value| &&
      forall i :: 0 <= i < |p.replies.value| ==> e.replies.value[i] == ReplyOf(p.replies.value[i]))
  {
    Entry(p.id, p.author, p.content, p.date,
      if p.replies.None? then None
      else Some(seq(|p.replies.value|, i requires 0 <= i < |p.replies.value| => ReplyOf(p.replies.value[i]))),
      p.authorLiked)
  }

  /** `comment.replies || []`. */
  function RepliesOf(e: Entry): seq<Reply> {
    if e.replies.Some? then e.replies.value else []
  }

  /** The `handleReply` map: the reply goes at the end of the replies of every
      entry with the id, the list being created when absent. */
  function AddReply(comments: seq<Entry>, commentId: string, reply: Reply): (r: seq<Entry>)
    ensures |r| == |comments|
    ensures forall i :: 0 <= i < |r| && comments[i].id != commentId ==> r[i] == comments[i]
    ensures forall i :: 0 <= i < |r| && comments[i].id == commentId ==>
      r[i] == comments[i].(replies := Some(RepliesOf(comments[i]) + [reply]))
  {
    seq(|comments|, i requires 0 <= i < |comments| =>
      if comments[i].id == commentId then comments[i].(replies := Some(RepliesOf(comments[i]) + [reply]))
      else comments[i])
  }

  /** The `handleAuthorLike` map: `authorLiked: !comment.authorLiked` on every entry
      with the id; an absent flag counts as false. */
  function ToggleLiked(comments: seq<Entry>, commentId: string): (r: seq<Entry>)
    ensures |r| == |comments|
    ensures forall i :: 0 <= i < |r| && comments[i].id != commentId ==> r[i] == comments[i]
    ensures forall i :: 0 <= i < |r| && comments[i].id == commentId ==>
      r[i] == comments[i].(authorLiked := Some(!Liked(comments[i])))
  {
    seq(|comments|, i requires 0 <= i < |comments| =>
      if comments[i].id == commentId then comments[i].(authorLiked := Some(!Liked(comments[i])))
      else comments[i])
  }

  /** The truthiness of `authorLiked`. */
  predicate Liked(e: Entry) {
    e.authorLiked == Some(true)
  }

  /** A reply never changes which comments there are: the ids and the number of
      top-level comments stay, and a matching comment gains exactly one reply, the
      new one, at the end. */
  lemma ReplyAppends(comments: seq<Entry>, commentId: string, reply: Reply)
    ensures var r := AddReply(comments, commentId, reply);
      (forall i :: 0 <= i < |r| ==> r[i].id == comments[i].id) &&
      (forall i :: 0 <= i < |r| && comments[i].id == commentId ==>
        |RepliesOf(r[i])| == |RepliesOf(comments[i])| + 1 &&
        RepliesOf(r[i])[..|RepliesOf(comments[i])|] == RepliesOf(comments[i]) &&
        RepliesOf(r[i])[|RepliesOf(comments[i])|] == reply)
  {
    var r := AddReply(comments, commentId, reply);
    forall i | 0 <= i < |r| && comments[i].id == commentId
      ensures RepliesOf(r[i])[..|RepliesOf(comments[i])|] == RepliesOf(comments[i])
    {
      assert RepliesOf(r[i]) == RepliesOf(comments[i]) + [reply];
    }
  }

  /** Toggling twice restores every flag's truthiness; a flag that was present comes
      back exactly, an absent one comes back as `false`. */
  lemma {:induction false} ToggleTwice(comments: seq<Entry>, commentId: string)
    ensures var r := ToggleLiked(ToggleLiked(comments, commentId), commentId);
      |r| == |comments| &&
      (forall i :: 0 <= i < |r| ==> (Liked(r[i]) <==> Liked(comments[i]))) &&
      (forall i :: 0 <= i < |r| && (comments[i].id != commentId || comments[i].authorLiked.Some?) ==>
        r[i] == comments[i]) &&
      (forall i :: 0 <= i < |r| && comments[i].id == commentId && comments[i].authorLiked.None? ==>
        r[i] == comments[i].(authorLiked := Some(false)))
  {
    var once := ToggleLiked(comments, commentId);
    var r := ToggleLiked(once, commentId);
    forall i | 0 <= i < |r| && comments[i].id == commentId
      ensures r[i] == comments[i].(authorLiked := Some(Liked(comments[i])))
    {
      assert once[i].id == commentId;
    }
    forall i | 0 <= i < |r| && comments[i].id == commentId && comments[i].authorLiked.Some?
      ensures r[i] == comments[i]
    {
      if comments[i].authorLiked.value {
        assert Liked(comments[i]);
      } else {
        assert !Liked(comments[i]);
      }
    }
  }

  /** `response.ok` with a JSON payload. */
  predicate Created<T>(answer: Option<Response<T>>) {
    answer.Some? && answer.value.Json? && 200 <= answer.value.status < 300
  }

  class Section {
    const contentType: string
    const contentId: string
    var comments: seq<Entry>
    var isLoading: bool
    var isSubmitting: bool
    var showForm: bool
    /** The two form fields. */
    var author: string
    var content: string

    constructor (contentType: string, contentId: string)
      ensures this.contentType == contentType && this.contentId == contentId
      ensures comments == [] && isLoading && !isSubmitting && !showForm && author == "" && content == ""
    {
      this.contentType := contentType;
      this.contentId := contentId;
      comments := [];
      isLoading := true;
      isSubmitting := false;
      showForm := false;
      author := "";
      content := "";
    }

    /** The number in the "Comments (n)" heading: top-level comments only. */
    function HeaderCount(): (n: nat)
      reads this
      ensures n == |comments|
    {
      |comments|
    }

    /** `fetchComments` with the answer of the GET request (`None` when it throws):
        a JSON answer sets `data.comments || []`, an unhandled error page cannot be
        parsed and leaves the list alone. */
    method Fetch(answer: Option<Response<seq<PublicComment>>>)
      modifies this`comments, this`isLoading
      ensures answer.Some? && answer.value.Json? ==>
        |comments| == |answer.value.value| &&
        forall i :: 0 <= i < |comments| ==> comments[i] == FromPublic(answer.value.value[i])
      ensures answer.Some? && answer.value.Error? && answer.value.error != Unhandled ==> comments == []
      ensures answer.None? || (answer.value.Error? && answer.value.error == Unhandled) ==>
        comments == old(comments)
      ensures !isLoading
    {
      match answer {
        case None =>
        case Some(Json(_, list)) =>
          comments := seq(|list|, i requires 0 <= i < |list| => FromPublic(list[i]));
        case Some(Error(_, e)) =>
          if e != Unhandled {
            comments := [];
          }
      }
      isLoading := false;
    }

    /** The request `handleSubmit` sends: the trimmed fields, or nothing when either
        trims to "". */
    function Outgoing(): (sent: Option<CommentsRoute.CommentRequest>)
      reads this
      ensures sent.None? <==> Trim(author) == "" || Trim(content) == ""
      ensures sent.Some? ==> sent.value.author == Some(Trim(author)) && sent.value.content == Some(Trim(content))
      ensures sent.Some? ==> sent.value.contentType == Some(contentType) && sent.value.id == Some(contentId)
    {
      if Trim(author) == "" || Trim(content) == "" then None
      else Some(CommentsRoute.CommentRequest(Some(contentType), Some(contentId), Some(Trim(author)), Some(Trim(content))))
    }

    /** `handleSubmit`, with `answer` the answer of the POST (`None` when it
        throws). On an ok answer the new comment is put first and the form is reset
        and closed; otherwise nothing but the submitting flag changes. `alerted`
        says the failure alert was shown: exactly when the request threw. */
    method HandleSubmit(answer: Option<Response<PublicComment>>)
      returns (sent: Option<CommentsRoute.CommentRequest>, alerted: bool)
      modifies this`comments, this`isSubmitting, this`showForm, this`author, this`content
      ensures sent == old(Outgoing())
      ensures alerted <==> sent.Some? && answer.None?
      ensures sent.Some? && Created(answer) ==>
        comments == [FromPublic(answer.value.value)] + old(comments) &&
        author == "" && content == "" && !showForm && !isSubmitting
      ensures sent.None? ==>
        comments == old(comments) && author == old(author) && content == old(content) &&
        showForm == old(showForm) && isSubmitting == old(isSubmitting)
      ensures sent.Some? && !Created(answer) ==>
        comments == old(comments) && author == old(author) && content == old(content) &&
        showForm == old(showForm) && !isSubmitting
    {
      sent := Outgoing();
      if sent.None? {
        return sent, false;
      }
      isSubmitting := true;
      alerted := answer.None?;
      if Created(answer) {
        comments := [FromPublic(answer.value.value)] + comments;
        author, content := "", "";
        showForm := false;
      }
      isSubmitting := false;
    }

    /** `handleReply`: the local update before the refresh. */
    method HandleReply(commentId: string, reply: Reply)
      modifies this`comments
      ensures comments == AddReply(old(comments), commentId, reply)
    {
      comments := AddReply(comments, commentId, reply);
    }

    /** `handleAuthorLike`: the local update before the refresh. */
    method HandleAuthorLike(commentId: string)
      modifies this`comments
      ensures comments == ToggleLiked(old(comments), commentId)
    {
      comments := ToggleLiked(comments, commentId);
    }
  }

  /** The form only refuses blank fields; the server also wants an author of two
      characters, so a one-letter name is sent and then refused. */
  lemma {:induction false} ServerStricterThanForm(contentType: string, id: string, letter: char, text: string)
    requires contentType != "" && id != "" && !IsSpace(letter) && Trim(text) != ""
    ensures Trim([letter]) != ""
    ensures CommentsRoute.Rejection(CommentsRoute.CommentRequest(Some(contentType), Some(id), Some([letter]), Some(text))) ==
      Some("Name must be at least 2 characters")
  {
    var request := CommentsRoute.CommentRequest(Some(contentType), Some(id), Some([letter]), Some(text));
    assert [letter][0] == letter;
    assert Trim([letter]) == [letter];
    assert CommentsRoute.Complete(request);
    assert |Trim(request.author.value)| < 2;
  }
}
