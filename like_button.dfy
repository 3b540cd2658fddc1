/** The like button: it shows the counter of one piece of content and remembers in
    the browser's `localStorage` ("likedItems") which items this visitor liked.
    A click updates the screen and the remembered flag first and then tells the
    server. */
module LikeButton {
  import opened Common
  import opened Records
  import LikesRoute

  /** `likedItems[itemKey] || false`. */
  function Flag(likedItems: map<string, bool>, key: string): (liked: bool)
    ensures liked <==> key in likedItems && likedItems[key]
  {
    key in likedItems && likedItems[key]
  }

  /** The count shown once the GET request settles: `data.likes || 0` when the
      answer is JSON, the initial count when the request or its parsing throws
      (an unhandled server error is not a JSON page). `answer` is `None` when the
      request throws. */
  function Shown(answer: Option<Response<LikesRoute.LikesPayload>>, current: int): (n: int)
    ensures answer.Some? && answer.value.Json? ==> n == answer.value.value.likes
    ensures answer.Some? && answer.value.Error? && answer.value.error != Unhandled ==> n == 0
    ensures answer.None? || (answer.value.Error? && answer.value.error == Unhandled) ==> n == current
  {
    match answer
    case None => current
    case Some(Json(_, payload)) => payload.likes
    case Some(Error(_, e)) => if e == Unhandled then current else 0
  }

  /** The action a click sends: "unlike" when the item was liked. */
  function ActionFor(currentlyLiked: bool): (action: string)
    ensures LikesRoute.KnownAction(action)
    ensures action == "unlike" <==> currentlyLiked
  {
    if currentlyLiked then "unlike" else "like"
  }

  class Button {
    const contentType: string
    const contentId: string
    var likes: int
    var isLiked: bool
    var isLoading: bool
    /** The "likedItems" entry of `localStorage`, parsed. */
    var likedItems: map<string, bool>

    /** The key of the item, the same as the server's counter key. */
    function ItemKey(): (key: string)
      ensures key == LikesRoute.LikeKey(contentType, contentId)
    {
      contentType + "-" + contentId
    }

    /** The initial state, before the effect runs: no likes, not liked, loading. */
    constructor (contentType: string, contentId: string, stored: map<string, bool>)
      ensures this.contentType == contentType && this.contentId == contentId
      ensures likes == 0 && !isLiked && isLoading && likedItems == stored
    {
      this.contentType := contentType;
      this.contentId := contentId;
      likes := 0;
      isLiked := false;
      isLoading := true;
      likedItems := stored;
    }

    /** The effect: the liked flag from `localStorage`, then the count from the
        server; loading ends either way. */
    method Load(answer: Option<Response<LikesRoute.LikesPayload>>)
      modifies this`isLiked, this`likes, this`isLoading
      ensures isLiked == Flag(likedItems, ItemKey())
      ensures likes == Shown(answer, old(likes)) && !isLoading
    {
      isLiked := Flag(likedItems, ItemKey());
      match answer {
        case None =>
        case Some(Json(_, payload)) =>
          likes := payload.likes;
        case Some(Error(_, e)) =>
          if e != Unhandled {
            likes := 0;
          }
      }
      isLoading := false;
    }

    /** `handleLike`: reads the flag from `localStorage`, not from `isLiked`, shows
        the opposite at once, stores the opposite, and sends the matching action.
        When sending throws (`fetchThrows`), the screen goes back but the stored
        flag stays flipped; an error answer from the server reverts nothing. */
    method HandleLike(fetchThrows: bool) returns (action: string)
      modifies this`isLiked, this`likes, this`likedItems
      ensures var was := Flag(old(likedItems), ItemKey());
        action == ActionFor(was) &&
        likedItems == old(likedItems)[ItemKey() := !was] &&
        (fetchThrows ==> isLiked == was && likes == old(likes)) &&
        (!fetchThrows ==> isLiked == !was && likes == old(likes) + (if was then -1 else 1))
    {
      var key := ItemKey();
      var currentlyLiked := Flag(likedItems, key);
      isLiked := !currentlyLiked;
      likes := if currentlyLiked then likes - 1 else likes + 1;
      likedItems := likedItems[key := !currentlyLiked];
      action := ActionFor(currentlyLiked);
      if fetchThrows {
        isLiked := currentlyLiked;
        likes := if currentlyLiked then likes + 1 else likes - 1;
      }
    }
  }

  /** Two clicks that both reach the server, read through `HandleLike`'s contract:
      the stored flag comes back, the second click shows the original flag again,
      the two count changes cancel, and the actions sent are opposite. */
  lemma TwoClicksRestore(items: map<string, bool>, key: string, likes: int)
    ensures var was := Flag(items, key);
      var once := items[key := !was];
      var twice := once[key := !Flag(once, key)];
      Flag(once, key) == !was && Flag(twice, key) == was &&
      likes + (if was then -1 else 1) + (if Flag(once, key) then -1 else 1) == likes &&
      ActionFor(was) != ActionFor(Flag(once, key))
  {
  }

  /** The stored flag of other items is left alone. */
  lemma OtherItemsKept(items: map<string, bool>, key: string, other: string)
    requires other != key
    ensures Flag(items[key := !Flag(items, key)], other) == Flag(items, other)
  {
  }
}
