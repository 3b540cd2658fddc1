/** The search API: the articles whose title, description, a tag or the category
    contains the query, ignoring case, at most five of them. */
module SearchRoute {
  import opened Common
  import opened Mdx
  import Seqs

  /** The most results one search returns. */
  const Limit := 5

  /** `a.some(tag => tag.toLowerCase().includes(q))` over optional tags. */
  predicate SomeTagIncludes(tags: Option<seq<string>>, q: string) {
    tags.Some? && exists t :: t in tags.value && Includes(ToLower(t), q)
  }

  /** The search predicate, with `q` the lowercased query. */
  predicate Matches(a: Article, q: string) {
    Includes(ToLower(a.title), q) || Includes(ToLower(a.description), q) ||
    SomeTagIncludes(a.tags, q) ||
    (a.category.Some? && Includes(ToLower(a.category.value), q))
  }

  function MatchesQuery(query: string): Article -> bool {
    a => Matches(a, ToLower(query))
  }

  /** GET `?q=`: no articles for a missing or empty query; otherwise the first five
      matching articles of `all` (what `getAllArticles()` returns), in its order.
      The query is not trimmed. */
  function Search(all: seq<Article>, q: Option<string>): (r: seq<Article>)
    ensures !Truthy(q) ==> r == []
    ensures |r| <= Limit
    ensures Truthy(q) ==> forall a :: a in r ==> a in all && Matches(a, ToLower(q.value))
    ensures Seqs.IsSubsequence(r, all)
  {
    if !Truthy(q) then []
    else
      Seqs.TakeFilterSubsequence(all, MatchesQuery(q.value), Limit);
      Seqs.Take(Seqs.Filter(all, MatchesQuery(q.value)), Limit)
  }

  /** The results are the leading matches: fewer than five matches are all returned,
      otherwise the first five. */
  lemma FirstMatches(all: seq<Article>, query: string)
    requires query != ""
    ensures var matches := Seqs.Filter(all, MatchesQuery(query));
      var r := Search(all, Some(query));
      r == matches[..|r|] &&
      (|matches| < Limit ==> r == matches) &&
      (|matches| >= Limit ==> |r| == Limit)
  {
  }

  /** A query of blanks is searched like any other: an article whose title holds a
      space is found by " ". */
  lemma BlankQuerySearched(a: Article)
    requires a.title == "a b"
    ensures Search([a], Some(" ")) == [a]
  {
    assert ToLower(" ") == " ";
    assert InfixAt(ToLower(a.title), " ", 1);
    assert Matches(a, ToLower(" "));
    assert Seqs.Filter([a], MatchesQuery(" ")) == [a] by {
      assert [a][1..] == [];
    }
  }
}
