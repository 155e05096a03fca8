/** Forms submitted against posts: creation checks that the post exists,
    listing filters the stored forms by post id. */
module Forms {
  import opened Model
  import Posts

  /** The forms whose `postId` is `postId`, in stored order. */
  function ForPost(forms: seq<Form>, postId: string): (r: seq<Form>)
    ensures |r| <= |forms|
    ensures forall f :: f in r <==> f in forms && f.postId == postId
  {
    if |forms| == 0 then []
    else (if forms[0].postId == postId then [forms[0]] else []) + ForPost(forms[1..], postId)
  }

  /** Filtering distributes over concatenation: the answer for `a + b` is the
      answer for `a` followed by the answer for `b`, so stored order is kept. */
  lemma {:induction false} ForPostAppend(a: seq<Form>, b: seq<Form>, postId: string)
    ensures ForPost(a + b, postId) == ForPost(a, postId) + ForPost(b, postId)
  {
    if |a| == 0 {
      assert a + b == b;
    } else {
      assert (a + b)[1..] == a[1..] + b;
      ForPostAppend(a[1..], b, postId);
    }
  }

  /** A single form is listed exactly when its post id matches. */
  lemma ForPostSingle(f: Form, postId: string)
    ensures ForPost([f], postId) == (if f.postId == postId then [f] else [])
  {
  }

  /** No form for the post gives the empty list, not a refusal. */
  lemma {:induction false} ForPostNone(forms: seq<Form>, postId: string)
    requires forall k :: 0 <= k < |forms| ==> forms[k].postId != postId
    ensures ForPost(forms, postId) == []
  {
    if |forms| > 0 {
      ForPostNone(forms[1..], postId);
    }
  }

  /** Create: NotFound when no post has `postId`; otherwise append one form
      for that post, submitted by `caller`. Refusal leaves the forms alone. */
  function Create(forms: seq<Form>, posts: seq<Post>, caller: string, postId: string,
                  formData: string, id: string, createdAt: string): (r: Step<Form, seq<Form>>)
    ensures r.result.Err? <==> !Posts.Exists(posts, postId)
    ensures r.result.Err? ==> r.result.error == NotFound && r.state == forms
    ensures r.result.Ok? ==>
      && |r.state| == |forms| + 1
      && (forall k :: 0 <= k < |forms| ==> r.state[k] == forms[k])
      && r.state[|forms|] == r.result.value
      && r.result.value.postId == postId
      && r.result.value.userId == caller
      && r.result.value.id == id
      && r.result.value.formData == formData
      && r.result.value.createdAt == createdAt
  {
    if Posts.FirstWithId(posts, postId).None? then Step(Err(NotFound), forms)
    else
      var form := Form(id, postId, caller, formData, createdAt);
      Step(Ok(form), forms + [form])
  }

  /** After a successful submission the post's listing gains the new form at
      its end, and every other post's listing is unchanged. */
  lemma CreateThenList(forms: seq<Form>, posts: seq<Post>, caller: string, postId: string,
                       formData: string, id: string, createdAt: string, other: string)
    requires Create(forms, posts, caller, postId, formData, id, createdAt).result.Ok?
    ensures var r := Create(forms, posts, caller, postId, formData, id, createdAt);
            ForPost(r.state, postId) == ForPost(forms, postId) + [r.result.value]
    ensures other != postId ==>
            ForPost(Create(forms, posts, caller, postId, formData, id, createdAt).state, other)
              == ForPost(forms, other)
  {
    var r := Create(forms, posts, caller, postId, formData, id, createdAt);
    assert r.state == forms + [r.result.value];
    ForPostAppend(forms, [r.result.value], postId);
    ForPostAppend(forms, [r.result.value], other);
    ForPostSingle(r.result.value, postId);
    ForPostSingle(r.result.value, other);
  }
}
