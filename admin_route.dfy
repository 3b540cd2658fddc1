/** The admin comments API over the storage manager: GET lists every stored
    comment, DELETE removes a comment together with its direct replies. Both answer
    401 to a caller without the admin session. */
module AdminCommentsRoute {
  import opened Common
  import opened Records
  import opened Storage
  import Seqs

  /** The comment is kept by a delete of `commentId`. */
  predicate Survives(c: Comment, commentId: string) {
    c.id != commentId && c.parentId != Some(commentId)
  }

  /** The list without the comment and its direct replies. */
  function DeleteCascade(all: seq<Comment>, commentId: string): (r: seq<Comment>)
    ensures forall c :: c in r ==> c in all && c.id != commentId && c.parentId != Some(commentId)
    ensures forall c :: c in all && Survives(c, commentId) ==> c in r
    ensures Seqs.IsSubsequence(r, all)
    ensures forall c :: multiset(r)[c] == if Survives(c, commentId) then multiset(all)[c] else 0
  {
    Seqs.FilterCount(all, c => Survives(c, commentId));
    Seqs.Filter(all, c => Survives(c, commentId))
  }

  /** Deleting the same id twice deletes nothing more. */
  lemma DeleteIdempotent(all: seq<Comment>, commentId: string)
    ensures DeleteCascade(DeleteCascade(all, commentId), commentId) == DeleteCascade(all, commentId)
  {
    var once := DeleteCascade(all, commentId);
    Seqs.FilterAll(once, c => Survives(c, commentId));
  }

  /** Deleting an id that no comment has, or replies to, saves the list unchanged. */
  lemma DeleteUnknown(all: seq<Comment>, commentId: string)
    requires forall i :: 0 <= i < |all| ==> Survives(all[i], commentId)
    ensures DeleteCascade(all, commentId) == all
  {
    Seqs.FilterAll(all, c => Survives(c, commentId));
  }

  /** The cascade is one level deep: a reply to a deleted reply is kept. */
  lemma OnlyDirectReplies(all: seq<Comment>, commentId: string, child: Comment, grandchild: Comment)
    requires child in all && child.parentId == Some(commentId) && child.id != commentId
    requires grandchild in all && grandchild.parentId == Some(child.id) && grandchild.id != commentId
    ensures child !in DeleteCascade(all, commentId)
    ensures grandchild in DeleteCascade(all, commentId)
  {
  }

  /** The list the manager reads, as its contract fixes it. */
  function ReadView(table: seq<Row>, file: JsonFile<seq<Comment>>, reachable: bool, answered: nat): seq<Comment> {
    if reachable && answered > 0 then DbListing(table) else ReadOr(file, [])
  }

  /** GET: every stored comment, from whichever store the manager reads. */
  method Get(manager: StorageManager, authenticated: bool, answered: nat)
    returns (resp: Response<seq<Comment>>)
    requires manager.Valid()
    modifies manager`useDatabase, manager.dbStorage`db, manager.dbStorage`initialized
    modifies manager.dbStorage`initStarted, manager.dbStorage`initRuns
    ensures manager.Valid()
    ensures !authenticated ==>
      resp == Error(401, "Unauthorized") &&
      manager.useDatabase == old(manager.useDatabase) &&
      manager.dbStorage.initStarted == old(manager.dbStorage.initStarted)
    ensures authenticated ==> resp == Json(200, ReadView(manager.dbStorage.commentsTable,
      manager.fileStorage.commentsFile, manager.dbStorage.Reachable(), answered))
  {
    if !authenticated {
      return Error(401, "Unauthorized");
    }
    var all := manager.GetComments(answered);
    resp := Json(200, all);
  }

  /** DELETE: reads the list, removes the comment and its direct replies, and saves
      the rest through the manager; only a failure of the fallback file write
      answers 500. */
  method Delete(manager: StorageManager, authenticated: bool, commentId: Option<string>,
                readAnswered: nat, writeAnswered: nat)
    returns (resp: Response<bool>)
    requires manager.Valid()
    modifies manager`useDatabase, manager.dbStorage`db, manager.dbStorage`initialized
    modifies manager.dbStorage`initStarted, manager.dbStorage`initRuns
    modifies manager.dbStorage`commentsTable, manager.fileStorage`commentsFile
    ensures manager.Valid()
    ensures !authenticated ==>
      resp == Error(401, "Unauthorized") &&
      manager.useDatabase == old(manager.useDatabase) &&
      manager.dbStorage.initStarted == old(manager.dbStorage.initStarted) &&
      manager.dbStorage.commentsTable == old(manager.dbStorage.commentsTable) &&
      manager.fileStorage.commentsFile == old(manager.fileStorage.commentsFile)
    ensures authenticated && !Truthy(commentId) ==>
      resp == Error(400, "Comment ID is required") &&
      manager.dbStorage.commentsTable == old(manager.dbStorage.commentsTable) &&
      manager.fileStorage.commentsFile == old(manager.fileStorage.commentsFile)
    ensures authenticated && Truthy(commentId) ==>
      var kept := DeleteCascade(ReadView(old(manager.dbStorage.commentsTable),
        old(manager.fileStorage.commentsFile), manager.dbStorage.Reachable(), readAnswered), commentId.value);
      if manager.dbStorage.Reachable() && writeAnswered > |kept| && UniqueIds(kept) then
        resp == Json(200, true) && manager.dbStorage.commentsTable == RowsOf(kept) &&
        manager.fileStorage.commentsFile == old(manager.fileStorage.commentsFile)
      else
        (if manager.dbStorage.Reachable() && writeAnswered > 0
         then manager.dbStorage.commentsTable == RowsOf(kept[..InsertedCount(kept, writeAnswered)])
         else manager.dbStorage.commentsTable == old(manager.dbStorage.commentsTable)) &&
        if manager.fileStorage.writable then
          resp == Json(200, true) && manager.fileStorage.commentsFile == Stored(kept)
        else
          resp == Error(500, "Failed to delete comment") &&
          manager.fileStorage.commentsFile == old(manager.fileStorage.commentsFile)
  {
    if !authenticated {
      return Error(401, "Unauthorized");
    }
    if !Truthy(commentId) {
      return Error(400, "Comment ID is required");
    }
    var all := manager.GetComments(readAnswered);
    var kept := DeleteCascade(all, commentId.value);
    var saved := manager.SaveComments(kept, writeAnswered);
    if saved.Threw? {
      return Error(500, "Failed to delete comment");
    }
    resp := Json(200, true);
  }
}
