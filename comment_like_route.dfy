/** The author-heart API: POST flips `authorLiked` on the comment with the given id,
    type and content id, and rewrites the comments document. */
module CommentLikeRoute {
  import opened Common
  import opened Records

  /** The body fields of a POST; a field the body does not carry is `None`. */
  datatype ToggleRequest = ToggleRequest(contentType: Option<string>, contentId: Option<string>, commentId: Option<string>)

  predicate Complete(r: ToggleRequest) {
    Truthy(r.contentType) && Truthy(r.contentId) && Truthy(r.commentId)
  }

  /** The entry the request targets: all three of id, type and content id match. */
  predicate Targets(c: Comment, commentId: string, contentType: string, contentId: string) {
    c.id == commentId && c.contentType == contentType && c.contentId == contentId
  }

  /** `!!c.authorLiked`: a missing flag reads as false. */
  predicate Liked(c: Comment) {
    c.authorLiked == Some(true)
  }

  /** `{ ...c, authorLiked: !c.authorLiked }`. */
  function Flip(c: Comment): (d: Comment)
    ensures d == c.(authorLiked := d.authorLiked) && d.authorLiked.Some?
    ensures Liked(d) <==> !Liked(c)
  {
    c.(authorLiked := Some(!Liked(c)))
  }

  /** The saved list: the targeted entries flipped, every other entry unchanged. */
  function Toggled(all: seq<Comment>, commentId: string, contentType: string, contentId: string): (r: seq<Comment>)
    ensures |r| == |all|
    ensures forall i :: 0 <= i < |all| && Targets(all[i], commentId, contentType, contentId) ==> r[i] == Flip(all[i])
    ensures forall i :: 0 <= i < |all| && !Targets(all[i], commentId, contentType, contentId) ==> r[i] == all[i]
  {
    seq(|all|, i requires 0 <= i < |all| =>
      if Targets(all[i], commentId, contentType, contentId) then Flip(all[i]) else all[i])
  }

  /** Toggling twice gives back every flag, a missing one as false; a list whose
      targeted entries all carry a flag comes back unchanged. */
  lemma ToggleTwice(all: seq<Comment>, commentId: string, contentType: string, contentId: string)
    ensures var twice := Toggled(Toggled(all, commentId, contentType, contentId), commentId, contentType, contentId);
      |twice| == |all| &&
      (forall i :: 0 <= i < |all| ==> Liked(twice[i]) == Liked(all[i]) && twice[i] == all[i].(authorLiked := twice[i].authorLiked)) &&
      ((forall i :: 0 <= i < |all| && Targets(all[i], commentId, contentType, contentId) ==> all[i].authorLiked.Some?) ==> twice == all)
  {
    var once := Toggled(all, commentId, contentType, contentId);
    var twice := Toggled(once, commentId, contentType, contentId);
    forall i | 0 <= i < |all|
      ensures Liked(twice[i]) == Liked(all[i]) && twice[i] == all[i].(authorLiked := twice[i].authorLiked)
    {
      if Targets(all[i], commentId, contentType, contentId) {
        assert Targets(once[i], commentId, contentType, contentId);
      }
    }
    if forall i :: 0 <= i < |all| && Targets(all[i], commentId, contentType, contentId) ==> all[i].authorLiked.Some? {
      forall i | 0 <= i < |all|
        ensures twice[i] == all[i]
      {
        if Targets(all[i], commentId, contentType, contentId) {
          assert Targets(once[i], commentId, contentType, contentId);
          assert twice[i] == Flip(Flip(all[i]));
          if all[i].authorLiked.value {
            assert Flip(Flip(all[i])).authorLiked == Some(true);
          } else {
            assert Flip(Flip(all[i])).authorLiked == Some(false);
          }
        }
      }
    }
  }

  /** `i` is the first entry the request targets. */
  predicate FirstTarget(all: seq<Comment>, i: int, commentId: string, contentType: string, contentId: string) {
    0 <= i < |all| && Targets(all[i], commentId, contentType, contentId) &&
    forall j :: 0 <= j < i ==> !Targets(all[j], commentId, contentType, contentId)
  }

  /** `updatedComment?.authorLiked || false`: the new flag of the first targeted
      entry, and false when no entry is targeted. */
  function Answer(updated: seq<Comment>, commentId: string, contentType: string, contentId: string): (liked: bool)
    ensures liked <==> exists i :: FirstTarget(updated, i, commentId, contentType, contentId) && Liked(updated[i])
    ensures (forall i :: 0 <= i < |updated| ==> !Targets(updated[i], commentId, contentType, contentId)) ==> !liked
  {
    if updated == [] then false
    else if Targets(updated[0], commentId, contentType, contentId) then
      assert FirstTarget(updated, 0, commentId, contentType, contentId);
      assert forall i :: FirstTarget(updated, i, commentId, contentType, contentId) ==> i == 0;
      Liked(updated[0])
    else
      var tail := updated[1..];
      var rest := Answer(tail, commentId, contentType, contentId);
      assert forall i :: FirstTarget(updated, i, commentId, contentType, contentId) <==>
        i >= 1 && FirstTarget(tail, i - 1, commentId, contentType, contentId) by {
        forall i ensures FirstTarget(updated, i, commentId, contentType, contentId) <==>
          i >= 1 && FirstTarget(tail, i - 1, commentId, contentType, contentId) {
          if i >= 1 && i - 1 < |tail| {
            assert forall j :: 0 <= j < i - 1 ==> tail[j] == updated[j + 1];
            assert tail[i - 1] == updated[i];
          }
        }
      }
      assert rest <==> exists i :: FirstTarget(updated, i, commentId, contentType, contentId) && Liked(updated[i]) by {
        if rest {
          var k :| FirstTarget(tail, k, commentId, contentType, contentId) && Liked(tail[k]);
          assert FirstTarget(updated, k + 1, commentId, contentType, contentId) && updated[k + 1] == tail[k];
        }
        if i :| FirstTarget(updated, i, commentId, contentType, contentId) && Liked(updated[i]) {
          assert FirstTarget(tail, i - 1, commentId, contentType, contentId) && tail[i - 1] == updated[i];
        }
      }
      rest
  }

  /** The route's answer is the negation of the first targeted entry's old flag:
      the new value of the comment it reports. */
  lemma AnswerIsFirstFlipped(all: seq<Comment>, commentId: string, contentType: string, contentId: string)
    ensures Answer(Toggled(all, commentId, contentType, contentId), commentId, contentType, contentId) <==>
      exists i :: FirstTarget(all, i, commentId, contentType, contentId) && !Liked(all[i])
  {
    var updated := Toggled(all, commentId, contentType, contentId);
    forall i ensures FirstTarget(updated, i, commentId, contentType, contentId) <==> FirstTarget(all, i, commentId, contentType, contentId) {
      if 0 <= i < |all| {
        assert forall j :: 0 <= j < |all| ==> (Targets(updated[j], commentId, contentType, contentId) <==> Targets(all[j], commentId, contentType, contentId));
      }
    }
    forall i | FirstTarget(all, i, commentId, contentType, contentId) ensures Liked(updated[i]) <==> !Liked(all[i]) {
      assert updated[i] == Flip(all[i]);
    }
  }

  /** When nothing matches, the list is saved unchanged and the answer is false. */
  lemma NoMatchChangesNothing(all: seq<Comment>, commentId: string, contentType: string, contentId: string)
    requires forall i :: 0 <= i < |all| ==> !Targets(all[i], commentId, contentType, contentId)
    ensures Toggled(all, commentId, contentType, contentId) == all
    ensures !Answer(Toggled(all, commentId, contentType, contentId), commentId, contentType, contentId)
  {
  }

  /** POST: flips the targeted entries, saves the whole list (changed or not) and
      answers with the first target's new flag. */
  method Post(doc: Document<seq<Comment>>, body: Option<ToggleRequest>)
    returns (resp: Response<bool>)
    requires doc.empty == []
    modifies doc`file
    ensures body.None? ==> resp == Error(500, "Failed to toggle like") && doc.file == old(doc.file)
    ensures body.Some? && !Complete(body.value) ==>
      resp == Error(400, "Missing required fields") && doc.file == old(doc.file)
    ensures body.Some? && Complete(body.value) ==>
      var r := body.value;
      var updated := Toggled(ReadOr(old(doc.file), []), r.commentId.value, r.contentType.value, r.contentId.value);
      if doc.writable then
        resp == Json(200, Answer(updated, r.commentId.value, r.contentType.value, r.contentId.value)) &&
        doc.file == Stored(updated)
      else
        resp == Error(500, "Failed to toggle like") && doc.file == old(doc.file)
  {
    if body.None? {
      return Error(500, "Failed to toggle like");
    }
    var r := body.value;
    if !Complete(r) {
      return Error(400, "Missing required fields");
    }
    var loaded := doc.Load();
    if loaded.Err? {
      return Error(500, "Failed to toggle like");
    }
    var updated := Toggled(loaded.value, r.commentId.value, r.contentType.value, r.contentId.value);
    var saved := doc.Save(updated);
    if saved.Threw? {
      return Error(500, "Failed to toggle like");
    }
    resp := Json(200, Answer(updated, r.commentId.value, r.contentType.value, r.contentId.value));
  }
}
