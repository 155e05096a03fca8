/** Create, read, update and delete over the ordered sequence of posts.
    Update and delete locate the post with the first matching id and allow
    only its author to change it. */
module Posts {
  import opened Model

  /** Index `k` is the first post whose id equals `id`, where the get,
      update and delete lookups stop. */
  ghost predicate IsFirstWithId(posts: seq<Post>, id: string, k: int)
  {
    && 0 <= k < |posts|
    && posts[k].id == id
    && forall j :: 0 <= j < k ==> posts[j].id != id
  }

  ghost predicate Exists(posts: seq<Post>, id: string)
  {
    exists k :: 0 <= k < |posts| && posts[k].id == id
  }

  /** No two posts share an id. */
  ghost predicate IdsUnique(posts: seq<Post>)
  {
    forall i, j :: 0 <= i < |posts| && 0 <= j < |posts| && i != j ==> posts[i].id != posts[j].id
  }

  /** The index of the first post with `id`, scanning from the front. */
  function FirstWithId(posts: seq<Post>, id: string): (r: Option<nat>)
    ensures r.Some? ==> IsFirstWithId(posts, id, r.value)
    ensures r.None? ==> !Exists(posts, id)
  {
    if |posts| == 0 then None
    else if posts[0].id == id then Some(0)
    else match FirstWithId(posts[1..], id)
      case None => None
      case Some(i) => Some(i + 1)
  }

  /** `s` without its element at index `k`: the one-element removal delete performs. */
  function RemoveAt<T>(s: seq<T>, k: nat): (r: seq<T>)
    requires k < |s|
    ensures |r| == |s| - 1
    ensures forall i :: 0 <= i < k ==> r[i] == s[i]
    ensures forall i :: k <= i < |r| ==> r[i] == s[i + 1]
  {
    s[..k] + s[k + 1..]
  }

  /** Get: the first post with `id`, or NotFound. */
  function Get(posts: seq<Post>, id: string): (r: Result<Post>)
    ensures r.Err? <==> !Exists(posts, id)
    ensures r.Err? ==> r.error == NotFound
    ensures forall k :: IsFirstWithId(posts, id, k) ==> r == Ok(posts[k])
  {
    match FirstWithId(posts, id)
    case None => Err(NotFound)
    case Some(k) => Ok(posts[k])
  }

  /** Create: append one post owned by `caller`; it always succeeds. */
  function Create(posts: seq<Post>, caller: string, title: string, content: string,
                  id: string, createdAt: string): (r: Step<Post, seq<Post>>)
    ensures r.result.Ok?
    ensures |r.state| == |posts| + 1
    ensures forall k :: 0 <= k < |posts| ==> r.state[k] == posts[k]
    ensures r.state[|posts|] == r.result.value
    ensures r.result.value.userId == caller
    ensures r.result.value.id == id && r.result.value.createdAt == createdAt
    ensures r.result.value.title == title && r.result.value.content == content
  {
    var post := Post(id, title, content, caller, createdAt);
    Step(Ok(post), posts + [post])
  }

  /** Update: NotFound when no post has `id`, Forbidden when the first such
      post belongs to someone else; otherwise only that post's title and
      content change. Refusals leave the posts as they were. */
  function Update(posts: seq<Post>, caller: string, id: string,
                  title: string, content: string): (r: Step<Post, seq<Post>>)
    ensures !Exists(posts, id) ==> r == Step(Err(NotFound), posts)
    ensures forall k :: IsFirstWithId(posts, id, k) && posts[k].userId != caller ==>
      r == Step(Err(Forbidden), posts)
    ensures forall k :: IsFirstWithId(posts, id, k) && posts[k].userId == caller ==>
      && |r.state| == |posts|
      && r.result == Ok(r.state[k])
      && r.state[k].id == posts[k].id
      && r.state[k].userId == posts[k].userId
      && r.state[k].createdAt == posts[k].createdAt
      && r.state[k].title == title
      && r.state[k].content == content
      && (forall j :: 0 <= j < |posts| && j != k ==> r.state[j] == posts[j])
  {
    match FirstWithId(posts, id)
    case None => Step(Err(NotFound), posts)
    case Some(k) =>
      if posts[k].userId != caller then Step(Err(Forbidden), posts)
      else
        var post := posts[k].(title := title, content := content);
        Step(Ok(post), posts[k := post])
  }

  /** Delete: the same refusals as Update; otherwise exactly the first post
      with `id` is removed and the others keep their order. */
  function Delete(posts: seq<Post>, caller: string, id: string): (r: Step<(), seq<Post>>)
    ensures !Exists(posts, id) ==> r == Step(Err(NotFound), posts)
    ensures forall k :: IsFirstWithId(posts, id, k) && posts[k].userId != caller ==>
      r == Step(Err(Forbidden), posts)
    ensures forall k :: IsFirstWithId(posts, id, k) && posts[k].userId == caller ==>
      && r.result.Ok?
      && |r.state| == |posts| - 1
      && (forall j :: 0 <= j < k ==> r.state[j] == posts[j])
      && (forall j :: k <= j < |r.state| ==> r.state[j] == posts[j + 1])
  {
    match FirstWithId(posts, id)
    case None => Step(Err(NotFound), posts)
    case Some(k) =>
      if posts[k].userId != caller then Step(Err(Forbidden), posts)
      else Step(Ok(()), RemoveAt(posts, k))
  }

  /** Update never changes a post's id, author or creation time, whatever
      the outcome: post `i` afterwards carries those of post `i` before. */
  lemma UpdateKeepsAuthors(posts: seq<Post>, caller: string, id: string,
                           title: string, content: string)
    ensures var after := Update(posts, caller, id, title, content).state;
            && |after| == |posts|
            && forall i :: 0 <= i < |posts| ==>
                 after[i].id == posts[i].id && after[i].userId == posts[i].userId
                 && after[i].createdAt == posts[i].createdAt
  {
  }

  /** Every post that survives a delete is a post from before, unchanged. */
  lemma DeleteKeepsSurvivors(posts: seq<Post>, caller: string, id: string)
    ensures var after := Delete(posts, caller, id).state;
            forall i :: 0 <= i < |after| ==> exists j :: 0 <= j < |posts| && posts[j] == after[i]
  {
  }

  /** A created post is found by Get when its id was not in use. */
  lemma CreateThenGet(posts: seq<Post>, caller: string, title: string, content: string,
                      id: string, createdAt: string)
    requires !Exists(posts, id)
    ensures var r := Create(posts, caller, title, content, id, createdAt);
            Get(r.state, id) == r.result
  {
  }

  /** After a successful update, Get answers the updated post. */
  lemma UpdateThenGet(posts: seq<Post>, caller: string, id: string,
                      title: string, content: string)
    requires Update(posts, caller, id, title, content).result.Ok?
    ensures var r := Update(posts, caller, id, title, content);
            Get(r.state, id) == r.result
  {
  }

  /** With unique ids, a post that was deleted can no longer be fetched. */
  lemma DeleteThenGet(posts: seq<Post>, caller: string, id: string)
    requires IdsUnique(posts)
    requires Delete(posts, caller, id).result.Ok?
    ensures Get(Delete(posts, caller, id).state, id) == Err(NotFound)
  {
  }

  /** Create keeps ids unique when the new id is fresh. */
  lemma CreateKeepsIdsUnique(posts: seq<Post>, caller: string, title: string, content: string,
                             id: string, createdAt: string)
    requires IdsUnique(posts)
    requires !Exists(posts, id)
    ensures IdsUnique(Create(posts, caller, title, content, id, createdAt).state)
  {
  }
}
