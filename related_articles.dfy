/** The "related articles" block under an article: other articles sharing its
    section, its category or a tag, with a same-section fallback. */
module RelatedArticles {
  import opened Common
  import opened Mdx
  import Seqs

  /** How many articles the block shows when the page does not say. */
  const DefaultMaxItems := 3

  /** `a.tags?.some(tag => current.tags?.includes(tag))`. */
  predicate SharesTag(a: Article, current: Article) {
    a.tags.Some? && current.tags.Some? && exists t :: t in a.tags.value && t in current.tags.value
  }

  /** The related predicate: another article with the same section, an equal
      category (two absent categories are equal) or a shared tag. */
  predicate IsRelated(a: Article, current: Article) {
    a.slug != current.slug &&
    (a.section == current.section || a.category == current.category || SharesTag(a, current))
  }

  /** The fallback predicate: another article of the same section. */
  predicate IsFallback(a: Article, current: Article) {
    a.slug != current.slug && a.section == current.section
  }

  function RelatedTo(current: Article): Article -> bool {
    a => IsRelated(a, current)
  }

  function FallbackTo(current: Article): Article -> bool {
    a => IsFallback(a, current)
  }

  /** `related`: the first `maxItems` related articles, in input order, so all of
      them when there are fewer; with a positive bound it is empty exactly when no
      article is related. */
  function Related(current: Article, articles: seq<Article>, maxItems: int): (r: seq<Article>)
    ensures maxItems >= 0 ==> |r| <= maxItems
    ensures forall a :: a in r ==> a in articles && IsRelated(a, current) && a.slug != current.slug
    ensures |r| <= |Seqs.Filter(articles, RelatedTo(current))|
    ensures r == Seqs.Filter(articles, RelatedTo(current))[..|r|]
    ensures |r| == Seqs.SliceEnd(|Seqs.Filter(articles, RelatedTo(current))|, maxItems)
    ensures maxItems > 0 ==> (|r| != 0 <==> exists a :: a in articles && IsRelated(a, current))
  {
    Seqs.FilterEmpty(articles, RelatedTo(current));
    Seqs.Take(Seqs.Filter(articles, RelatedTo(current)), maxItems)
  }

  /** `fallback`: the first `maxItems` other articles of the same section, in
      input order. */
  function Fallback(current: Article, articles: seq<Article>, maxItems: int): (r: seq<Article>)
    ensures maxItems >= 0 ==> |r| <= maxItems
    ensures forall a :: a in r ==> a in articles && IsFallback(a, current) && a.slug != current.slug
    ensures |r| <= |Seqs.Filter(articles, FallbackTo(current))|
    ensures r == Seqs.Filter(articles, FallbackTo(current))[..|r|]
    ensures |r| == Seqs.SliceEnd(|Seqs.Filter(articles, FallbackTo(current))|, maxItems)
    ensures maxItems > 0 ==> (|r| != 0 <==> exists a :: a in articles && IsFallback(a, current))
  {
    Seqs.FilterEmpty(articles, FallbackTo(current));
    Seqs.Take(Seqs.Filter(articles, FallbackTo(current)), maxItems)
  }

  /** What the block renders: nothing, the "Continue Reading" fallback list, or the
      "Related Articles" list. */
  datatype Block = NoBlock | ContinueReading(items: seq<Article>) | RelatedList(items: seq<Article>)

  /** `RelatedArticles({ currentArticle, articles, maxItems = 3 })`. */
  function Render(current: Article, articles: seq<Article>, maxItems: Option<int>): (b: Block)
    ensures b.RelatedList? ==> b.items == Related(current, articles, if maxItems.Some? then maxItems.value else DefaultMaxItems)
    ensures b.ContinueReading? ==> b.items == Fallback(current, articles, if maxItems.Some? then maxItems.value else DefaultMaxItems)
    ensures b.RelatedList? <==> |Related(current, articles, if maxItems.Some? then maxItems.value else DefaultMaxItems)| != 0
    ensures b.NoBlock? <==>
      |Related(current, articles, if maxItems.Some? then maxItems.value else DefaultMaxItems)| == 0 &&
      |Fallback(current, articles, if maxItems.Some? then maxItems.value else DefaultMaxItems)| == 0
    ensures (if maxItems.Some? then maxItems.value else DefaultMaxItems) > 0 ==>
      (b.RelatedList? <==> exists a :: a in articles && IsRelated(a, current))
  {
    var n := if maxItems.Some? then maxItems.value else DefaultMaxItems;
    if |Related(current, articles, n)| != 0 then RelatedList(Related(current, articles, n))
    else if |Fallback(current, articles, n)| == 0 then NoBlock
    else ContinueReading(Fallback(current, articles, n))
  }

  /** Every fallback article is related, so the fallback list is never longer
      than the related list, whatever the bound. */
  lemma FallbackWithinRelated(current: Article, articles: seq<Article>, maxItems: int)
    ensures |Fallback(current, articles, maxItems)| <= |Related(current, articles, maxItems)|
  {
    Seqs.FilterStrongerIsShorter(articles, RelatedTo(current), FallbackTo(current));
    Seqs.TakeMonotone(Seqs.Filter(articles, FallbackTo(current)),
                      Seqs.Filter(articles, RelatedTo(current)), maxItems);
  }

  /** Hence the "Continue Reading" fallback is never rendered: when no article is
      related, none is in the same section either. */
  lemma FallbackNeverRendered(current: Article, articles: seq<Article>, maxItems: Option<int>)
    ensures !Render(current, articles, maxItems).ContinueReading?
  {
    FallbackWithinRelated(current, articles, if maxItems.Some? then maxItems.value else DefaultMaxItems);
  }

  /** So the block is the "Related Articles" list when some article is related, and
      nothing otherwise. */
  lemma RenderIsRelatedOrNothing(current: Article, articles: seq<Article>, maxItems: Option<int>)
    ensures var n := if maxItems.Some? then maxItems.value else DefaultMaxItems;
      Render(current, articles, maxItems) ==
        if |Related(current, articles, n)| != 0 then RelatedList(Related(current, articles, n)) else NoBlock
  {
    FallbackWithinRelated(current, articles, if maxItems.Some? then maxItems.value else DefaultMaxItems);
  }

  /** The current article never appears in the block. */
  lemma CurrentNeverShown(current: Article, articles: seq<Article>, maxItems: Option<int>)
    ensures var b := Render(current, articles, maxItems);
      !b.NoBlock? ==> forall a :: a in b.items ==> a.slug != current.slug
  {
  }
}
