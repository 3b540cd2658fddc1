/** The like counter API: GET reads the count of one piece of content, POST adds or
    removes one like. Counts live in one JSON document mapping keys to counts. */
module LikesRoute {
  import opened Common
  import opened Records

  /** The key of the counter of one piece of content. */
  function LikeKey(contentType: string, id: string): (key: string)
    ensures |key| == |contentType| + 1 + |id|
    ensures StartsWith(key, contentType) && EndsWith(key, id) && key[|contentType|] == '-'
  {
    contentType + "-" + id
  }

  /** Keys are not injective: a '-' inside the type or the id makes two pieces of
      content share one counter. */
  lemma LikeKeyCollides()
    ensures ("a-b", "c") != ("a", "b-c") && LikeKey("a-b", "c") == LikeKey("a", "b-c")
  {
  }

  /** `likes[key] || 0`. */
  function CountOf(likes: map<string, int>, key: string): (n: int)
    ensures key in likes ==> n == likes[key]
    ensures key !in likes ==> n == 0
  {
    if key in likes then likes[key] else 0
  }

  /** The count after one action: one more for "like", one fewer but never below
      zero for "unlike". */
  function Step(current: int, action: string): (n: int)
    requires KnownAction(action)
    ensures action == "like" ==> n == current + 1
    ensures action == "unlike" ==> n >= 0 && (current > 0 ==> n == current - 1) && (current <= 0 ==> n == 0)
  {
    if action == "like" then current + 1 else if current - 1 < 0 then 0 else current - 1
  }

  /** The counts after one action on `key`: only that key changes. */
  function Apply(likes: map<string, int>, key: string, action: string): (r: map<string, int>)
    requires KnownAction(action)
    ensures r.Keys == likes.Keys + {key}
    ensures r[key] == Step(CountOf(likes, key), action)
    ensures forall k :: k in likes && k != key ==> r[k] == likes[k]
  {
    likes[key := Step(CountOf(likes, key), action)]
  }

  /** A like followed by an unlike gives back every non-negative count, and leaves
      every other key alone. */
  lemma {:induction false} LikeThenUnlike(likes: map<string, int>, key: string)
    requires CountOf(likes, key) >= 0
    ensures var after := Apply(Apply(likes, key, "like"), key, "unlike");
      CountOf(after, key) == CountOf(likes, key) &&
      (key in likes ==> after == likes)
  {
    var once := Apply(likes, key, "like");
    var after := Apply(once, key, "unlike");
    assert CountOf(once, key) == CountOf(likes, key) + 1;
    if key in likes {
      assert after.Keys == likes.Keys;
      forall k | k in likes
        ensures after[k] == likes[k]
      {
        if k != key {
          assert once[k] == likes[k];
        }
      }
    }
  }

  /** No sequence of actions makes a count that starts non-negative negative. */
  lemma {:induction false} CountsStayNonNegative(likes: map<string, int>, key: string, actions: seq<string>)
    requires forall i :: 0 <= i < |actions| ==> KnownAction(actions[i])
    requires forall k :: k in likes ==> likes[k] >= 0
    ensures forall k :: k in Replay(likes, key, actions) ==> Replay(likes, key, actions)[k] >= 0
    decreases |actions|
  {
    if actions != [] {
      var next := Apply(likes, key, actions[0]);
      assert forall k :: k in next ==> next[k] >= 0;
      CountsStayNonNegative(next, key, actions[1..]);
    }
  }

  /** The counts after a series of accepted POSTs on one key. */
  function Replay(likes: map<string, int>, key: string, actions: seq<string>): map<string, int>
    requires forall i :: 0 <= i < |actions| ==> KnownAction(actions[i])
    decreases |actions|
  {
    if actions == [] then likes else Replay(Apply(likes, key, actions[0]), key, actions[1..])
  }

  /** The body fields of a POST; a field the body does not carry is `None`. */
  datatype LikeRequest = LikeRequest(contentType: Option<string>, id: Option<string>, action: Option<string>)

  /** Every field of the body is present and non-empty. */
  predicate Complete(r: LikeRequest) {
    Truthy(r.contentType) && Truthy(r.id) && Truthy(r.action)
  }

  /** The two actions the route accepts. */
  predicate KnownAction(action: string) {
    action == "like" || action == "unlike"
  }

  /** The success payloads: GET sends `{ likes }`, POST sends `{ likes, success: true }`. */
  datatype LikesPayload = Count(likes: int) | Updated(likes: int)

  /** GET: the count of `type`-`id`, or 0; a missing file is created holding `{}`. */
  method Get(doc: Document<map<string, int>>, contentType: Option<string>, id: Option<string>)
    returns (resp: Response<LikesPayload>)
    requires doc.empty == map[]
    modifies doc`file
    ensures !Truthy(contentType) || !Truthy(id) ==>
      resp == Error(400, "Missing type or id") && doc.file == old(doc.file)
    ensures Truthy(contentType) && Truthy(id) && old(doc.file).Absent? && !doc.writable ==>
      resp == Error(500, Unhandled) && doc.file == old(doc.file)
    ensures Truthy(contentType) && Truthy(id) && !(old(doc.file).Absent? && !doc.writable) ==>
      resp == Json(200, Count(CountOf(ReadOr(old(doc.file), map[]), LikeKey(contentType.value, id.value)))) &&
      doc.file == if old(doc.file).Absent? then Stored(map[]) else old(doc.file)
  {
    if !Truthy(contentType) || !Truthy(id) {
      return Error(400, "Missing type or id");
    }
    var loaded := doc.Load();
    if loaded.Err? {
      return Error(500, Unhandled);
    }
    var key := LikeKey(contentType.value, id.value);
    resp := Json(200, Count(CountOf(loaded.value, key)));
  }

  /** POST: applies the action to the stored counts and writes all of them back.
      `body` is `None` when the request body is not JSON. A file that exists but
      cannot be parsed reads as `{}`, so the write that follows replaces it with a
      single key. */
  method Post(doc: Document<map<string, int>>, body: Option<LikeRequest>)
    returns (resp: Response<LikesPayload>)
    requires doc.empty == map[]
    modifies doc`file
    ensures body.None? ==> resp == Error(500, "Failed to update likes") && doc.file == old(doc.file)
    ensures body.Some? && !Complete(body.value) ==>
      resp == Error(400, "Missing required fields") && doc.file == old(doc.file)
    ensures body.Some? && Complete(body.value) && !KnownAction(body.value.action.value) ==>
      resp == Error(400, "Invalid action") && doc.file == old(doc.file)
    ensures body.Some? && Complete(body.value) && KnownAction(body.value.action.value) ==>
      var key := LikeKey(body.value.contentType.value, body.value.id.value);
      var after := Apply(ReadOr(old(doc.file), map[]), key, body.value.action.value);
      if doc.writable then
        resp == Json(200, Updated(after[key])) && doc.file == Stored(after)
      else
        resp == Error(500, "Failed to update likes") && doc.file == old(doc.file)
  {
    if body.None? {
      return Error(500, "Failed to update likes");
    }
    var request := body.value;
    if !Complete(request) {
      return Error(400, "Missing required fields");
    }
    var action := request.action.value;
    if !KnownAction(action) {
      return Error(400, "Invalid action");
    }
    var loaded := doc.Load();
    if loaded.Err? {
      return Error(500, "Failed to update likes");
    }
    var likes := loaded.value;
    var key := LikeKey(request.contentType.value, request.id.value);
    likes := likes[key := Step(CountOf(likes, key), action)];
    var saved := doc.Save(likes);
    if saved.Threw? {
      return Error(500, "Failed to update likes");
    }
    resp := Json(200, Updated(likes[key]));
  }
}
