/** The admin dashboard: the list of every stored comment, newest first, with a
    delete button per comment and a link to the page it was written on. */
module AdminDashboard {
  import opened Common
  import opened Records
  import Mdx
  import Seqs
  import AdminCommentsRoute
  import RssFeed
  import Sitemap

  /** `getContentLink`: an article is linked in the esoteriment section, a video
      under /videos; anything else, books included, gets "#". */
  function ContentLink(contentType: string, contentId: string): (link: string)
    ensures contentType == "article" ==> link == "/esoteriment/" + contentId
    ensures contentType == "video" ==> link == "/videos/" + contentId
    ensures contentType != "article" && contentType != "video" ==> link == "#"
  {
    if contentType == "article" then "/esoteriment/" + contentId
    else if contentType == "video" then "/videos/" + contentId
    else "#"
  }

  /** A video's link is its page's address under the site URL. */
  lemma VideoLinkIsPage(base: string, v: Mdx.Video)
    ensures base + ContentLink("video", v.slug) == Sitemap.VideoUrl(base, v)
  {
  }

  /** An esoteriment article's link is its page; a lifeward article's link points
      at the esoteriment section instead of its own page. */
  lemma ArticleLinks(base: string, a: Mdx.Article)
    ensures a.section == "esoteriment" ==> base + ContentLink("article", a.slug) == RssFeed.ArticleUrl(base, a)
    ensures a.section == "lifeward" ==> base + ContentLink("article", a.slug) != RssFeed.ArticleUrl(base, a)
  {
    if a.section == "lifeward" {
      var link, url := base + ContentLink("article", a.slug), RssFeed.ArticleUrl(base, a);
      assert link[|base| + 1] == 'e' && url[|base| + 1] == 'l';
    }
  }

  /** The filter of `handleDelete`: `c.id !== commentId && c.parentId !== commentId`. */
  function LocalDelete(comments: seq<Comment>, commentId: string): (r: seq<Comment>)
    ensures r == AdminCommentsRoute.DeleteCascade(comments, commentId)
  {
    Seqs.FilterAgree(comments, (c: Comment) => c.id != commentId && c.parentId != Some(commentId),
      c => AdminCommentsRoute.Survives(c, commentId));
    Seqs.Filter(comments, (c: Comment) => c.id != commentId && c.parentId != Some(commentId))
  }

  /** `response.ok`. */
  predicate IsOk<T>(r: Response<T>) {
    200 <= r.status < 300
  }

  class Dashboard {
    var comments: seq<Comment>
    var isLoading: bool
    /** The id being deleted, if any. */
    var isDeleting: Option<string>

    constructor ()
      ensures comments == [] && isLoading && isDeleting.None?
    {
      comments := [];
      isLoading := true;
      isDeleting := None;
    }

    /** `fetchComments` with the answer of GET /api/admin/comments (`None` when
        the request throws). A 401 sends the browser to the login page and leaves
        the list alone; a JSON answer sets `data.comments || []`; an unhandled
        error page cannot be parsed and also leaves the list alone. Loading ends
        in every case. */
    method Fetch(answer: Option<Response<seq<Comment>>>) returns (redirect: bool)
      modifies this`comments, this`isLoading
      ensures redirect <==> answer.Some? && answer.value.status == 401
      ensures redirect || answer.None? || answer == Some(Error(answer.value.status, Unhandled)) ==>
        comments == old(comments)
      ensures !redirect && answer.Some? && answer.value.Json? ==> comments == answer.value.value
      ensures !redirect && answer.Some? && answer.value.Error? && answer.value.error != Unhandled ==>
        comments == []
      ensures !isLoading
    {
      redirect := false;
      match answer {
        case None =>
        case Some(resp) =>
          if resp.status == 401 {
            redirect := true;
          } else if resp.Json? {
            comments := resp.value;
          } else if resp.error != Unhandled {
            comments := [];
          }
      }
      isLoading := false;
    }

    /** `handleDelete`: after confirmation, the DELETE request; on an ok answer the
        comment and its direct replies leave the list, exactly as the server removes
        them; otherwise, or when the request throws (`None`), the list stays and an
        alert is shown. */
    method HandleDelete(commentId: string, confirmed: bool, answer: Option<Response<bool>>)
      returns (alerted: bool)
      modifies this`comments, this`isDeleting
      ensures !confirmed ==> comments == old(comments) && !alerted && isDeleting == old(isDeleting)
      ensures confirmed && answer.Some? && IsOk(answer.value) ==>
        comments == AdminCommentsRoute.DeleteCascade(old(comments), commentId) && !alerted
      ensures confirmed && !(answer.Some? && IsOk(answer.value)) ==> comments == old(comments) && alerted
      ensures confirmed ==> isDeleting.None?
    {
      if !confirmed {
        return false;
      }
      isDeleting := Some(commentId);
      if answer.Some? && IsOk(answer.value) {
        comments := LocalDelete(comments, commentId);
        alerted := false;
      } else {
        alerted := true;
      }
      isDeleting := None;
    }

    /** The render: `comments.sort(...)` reorders the state list itself, newest
        first, and the sorted list is what is shown. */
    method Display() returns (shown: seq<Comment>)
      modifies this`comments
      ensures shown == comments
      ensures multiset(comments) == multiset(old(comments))
      ensures forall i, j :: 0 <= i < j < |comments| ==> comments[i].date >= comments[j].date
    {
      comments := Seqs.SortBy(comments, NewestFirst);
      forall i, j | 0 <= i < j < |comments| ensures comments[i].date >= comments[j].date {
        assert NewestFirst(comments[i]) <= NewestFirst(comments[j]);
      }
      shown := comments;
    }
  }
}
