/** The category filter of the Esoteriment and Lifeward section pages: both pages
    run the same `useMemo` over their articles and the selected category. */
module ArticleFilters {
  import opened Common
  import opened Mdx
  import Seqs

  /** `article => article.category === selectedCategory`. */
  function InCategory(selected: Option<string>): Article -> bool {
    (a: Article) => a.category == selected
  }

  /** `filteredArticles`: every article while no category is selected (`null` or
      ""), otherwise the articles whose category is the selected one, in order. */
  function Filtered(articles: seq<Article>, selected: Option<string>): (r: seq<Article>)
    ensures !Truthy(selected) ==> r == articles
    ensures Truthy(selected) ==> forall a :: a in r <==> a in articles && a.category == selected
    ensures Seqs.IsSubsequence(r, articles)
  {
    if !Truthy(selected) then
      Seqs.SubsequenceOfItself(articles);
      articles
    else Seqs.Filter(articles, InCategory(selected))
  }

  /** An empty selection is no selection. */
  lemma EmptySelectionShowsAll(articles: seq<Article>)
    ensures Filtered(articles, Some("")) == Filtered(articles, None) == articles
  {
  }

  /** Selecting a category and then the same one again changes nothing more. */
  lemma FilterTwice(articles: seq<Article>, selected: Option<string>)
    ensures Filtered(Filtered(articles, selected), selected) == Filtered(articles, selected)
  {
    if Truthy(selected) {
      var once := Filtered(articles, selected);
      Seqs.FilterAll(once, InCategory(selected));
    }
  }

  /** Selecting a category no one has shows no article. */
  lemma UnknownCategoryShowsNone(articles: seq<Article>, selected: string)
    requires selected != ""
    requires forall i :: 0 <= i < |articles| ==> articles[i].category != Some(selected)
    ensures Filtered(articles, Some(selected)) == []
  {
    var r := Filtered(articles, Some(selected));
    assert forall a :: a in r ==> a in articles && a.category == Some(selected);
    assert forall i :: 0 <= i < |r| ==> r[i] in r;
  }
}
