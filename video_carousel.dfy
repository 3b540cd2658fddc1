/** The video carousel: two videos at a time, previous and next buttons and one dot
    per position, shown only when there are more than two videos. */
module VideoCarousel {
  import opened Mdx

  /** How many videos are shown at once. */
  const VisibleCount := 2

  /** `Math.max(0, n - visibleCount)`: the last position. */
  function MaxIndex(n: nat): (m: nat)
    ensures n >= VisibleCount ==> m + VisibleCount == n
    ensures n < VisibleCount ==> m == 0
  {
    if n < VisibleCount then 0 else n - VisibleCount
  }

  /** `Math.min(prev + 1, maxIndex)`. */
  function Next(i: int, maxIndex: nat): (j: int)
    requires 0 <= i <= maxIndex
    ensures 0 <= j <= maxIndex
    ensures i < maxIndex ==> j == i + 1
    ensures i == maxIndex ==> j == i
  {
    if i + 1 < maxIndex then i + 1 else maxIndex
  }

  /** `Math.max(prev - 1, 0)`. */
  function Prev(i: int, maxIndex: nat): (j: int)
    requires 0 <= i <= maxIndex
    ensures 0 <= j <= maxIndex
    ensures i > 0 ==> j == i - 1
    ensures i == 0 ==> j == 0
  {
    if i - 1 > 0 then i - 1 else 0
  }

  /** A click on the carousel: a button, or the dot of a position. */
  datatype Click = NextClick | PrevClick | DotClick(index: nat)

  /** The position after a series of clicks; only dots up to `maxIndex` exist. */
  function Replay(i: int, maxIndex: nat, clicks: seq<Click>): int
    requires 0 <= i <= maxIndex
    requires forall k :: 0 <= k < |clicks| && clicks[k].DotClick? ==> clicks[k].index <= maxIndex
    decreases |clicks|
  {
    if clicks == [] then i
    else
      var j := match clicks[0]
        case NextClick => Next(i, maxIndex)
        case PrevClick => Prev(i, maxIndex)
        case DotClick(d) => d;
      Replay(j, maxIndex, clicks[1..])
  }

  /** No series of clicks takes the position out of [0, maxIndex]. */
  lemma {:induction false} ReplayInRange(i: int, maxIndex: nat, clicks: seq<Click>)
    requires 0 <= i <= maxIndex
    requires forall k :: 0 <= k < |clicks| && clicks[k].DotClick? ==> clicks[k].index <= maxIndex
    ensures 0 <= Replay(i, maxIndex, clicks) <= maxIndex
    decreases |clicks|
  {
    if clicks != [] {
      var j := match clicks[0]
        case NextClick => Next(i, maxIndex)
        case PrevClick => Prev(i, maxIndex)
        case DotClick(d) => d;
      assert forall k :: 0 <= k < |clicks[1..]| ==> clicks[1..][k] == clicks[k + 1];
      ReplayInRange(j, maxIndex, clicks[1..]);
    }
  }

  /** `videos.slice(i, i + visibleCount)` for a position in range. */
  function VisibleFrom(videos: seq<Video>, i: nat): (r: seq<Video>)
    requires i <= |videos|
    ensures |r| <= VisibleCount && i + |r| <= |videos|
    ensures forall k :: 0 <= k < |r| ==> r[k] == videos[i + k]
    ensures |videos| >= VisibleCount && i <= MaxIndex(|videos|) ==> |r| == VisibleCount
    ensures i + |r| == |videos| || |r| == VisibleCount
  {
    if i + VisibleCount <= |videos| then videos[i..i + VisibleCount] else videos[i..]
  }

  /** What the carousel draws: nothing, a single card, or the visible videos with,
      when there are more than two, the two buttons and `dots` dots. */
  datatype View = Empty | Single(video: Video) | Grid(visible: seq<Video>, navigation: bool, dots: nat)

  class Carousel {
    const videos: seq<Video>
    var currentIndex: int

    ghost predicate Valid()
      reads this
    {
      0 <= currentIndex <= MaxIndex(|videos|)
    }

    /** `useState(0)`. */
    constructor (videos: seq<Video>)
      ensures this.videos == videos && currentIndex == 0 && Valid()
    {
      this.videos := videos;
      currentIndex := 0;
    }

    /** `goNext`. */
    method GoNext()
      requires Valid()
      modifies this
      ensures Valid()
      ensures currentIndex == Next(old(currentIndex), MaxIndex(|videos|))
    {
      currentIndex := if currentIndex + 1 < MaxIndex(|videos|) then currentIndex + 1 else MaxIndex(|videos|);
    }

    /** `goPrev`. */
    method GoPrev()
      requires Valid()
      modifies this
      ensures Valid()
      ensures currentIndex == Prev(old(currentIndex), MaxIndex(|videos|))
    {
      currentIndex := if currentIndex - 1 > 0 then currentIndex - 1 else 0;
    }

    /** A click on the dot of position `index`; the dots are 0 .. maxIndex. */
    method GoTo(index: nat)
      requires Valid() && index <= MaxIndex(|videos|)
      modifies this
      ensures Valid() && currentIndex == index
    {
      currentIndex := index;
    }

    /** The rendered view of the current state. */
    function Render(): (v: View)
      requires Valid()
      reads this
      ensures |videos| == 0 <==> v == Empty
      ensures |videos| == 1 <==> v.Single?
      ensures v.Grid? ==> |v.visible| == VisibleCount && (v.navigation <==> |videos| > VisibleCount)
      ensures v.Grid? ==> v.visible == videos[currentIndex..currentIndex + VisibleCount]
      ensures v.Grid? && v.navigation ==> v.dots == |videos| - 1
    {
      if |videos| == 0 then Empty
      else if |videos| == 1 then Single(videos[0])
      else
        var nav := |videos| > VisibleCount;
        Grid(VisibleFrom(videos, currentIndex), nav, if nav then MaxIndex(|videos|) + 1 else 0)
    }
  }
}
