/** The route handlers over the whole store: each request reads the
    collections it needs, makes its decision and writes back the new
    collection. Routes that change posts or forms pass the auth gate first. */
module Server {
  import opened Model
  import Auth
  import Users
  import Posts
  import Forms

  /** The three persisted collections. */
  datatype Store = Store(users: seq<User>, posts: seq<Post>, forms: seq<Form>)

  /** The foreign collaborators: password hashing and checking, token signing
      and verification (`verify` answers the `id` claim of a token it accepts). */
  datatype Crypto = Crypto(hash: (string, nat) -> string,
                           compare: (string, string) -> bool,
                           sign: Claims -> string,
                           verify: string -> Option<string>)

  /** One request per route. Ids and timestamps arrive with the request
      instead of being read from the clock. */
  datatype Request =
    | Signup(name: string, email: string, phone: string, gender: string,
             password: string, id: string)
    | Login(email: string, password: string)
    | ListPosts
    | GetPost(postId: string)
    | CreatePost(title: string, content: string, id: string, createdAt: string)
    | UpdatePost(postId: string, title: string, content: string)
    | DeletePost(postId: string)
    | SubmitForm(postId: string, formData: string, id: string, createdAt: string)
    | ListForms(postId: string)

  /** The routes mounted behind the auth gate. */
  predicate NeedsToken(req: Request)
  {
    req.CreatePost? || req.UpdatePost? || req.DeletePost? || req.SubmitForm?
  }

  /** The routes that never write. */
  predicate ReadOnly(req: Request)
  {
    req.Login? || req.ListPosts? || req.GetPost? || req.ListForms?
  }

  datatype Reply =
    | Done
    | SessionReply(session: Users.Session)
    | PostReply(post: Post)
    | PostsReply(posts: seq<Post>)
    | FormReply(form: Form)
    | FormsReply(forms: seq<Form>)

  /** A protected route's work once the gate has named the caller. Each one
      writes back only its own collection, and a refusal writes nothing. */
  function Perform(store: Store, caller: string, req: Request): (r: Step<Reply, Store>)
    requires NeedsToken(req)
    ensures r.state.users == store.users
    ensures req.SubmitForm? ==> r.state.posts == store.posts
    ensures !req.SubmitForm? ==> r.state.forms == store.forms
    ensures r.result.Err? ==> r.state == store
    ensures req.CreatePost? ==>
      var c := Posts.Create(store.posts, caller, req.title, req.content, req.id, req.createdAt);
      r.state.posts == c.state && r.result == Ok(PostReply(c.result.value))
    ensures req.UpdatePost? ==>
      var u := Posts.Update(store.posts, caller, req.postId, req.title, req.content);
      && r.state.posts == u.state
      && (r.result.Err? <==> u.result.Err?)
      && (u.result.Err? ==> r.result.error == u.result.error)
      && (u.result.Ok? ==> r.result == Ok(PostReply(u.result.value)))
    ensures req.DeletePost? ==>
      var d := Posts.Delete(store.posts, caller, req.postId);
      && r.state.posts == d.state
      && (r.result.Err? <==> d.result.Err?)
      && (d.result.Err? ==> r.result.error == d.result.error)
      && (d.result.Ok? ==> r.result == Ok(Done))
    ensures req.SubmitForm? ==>
      var f := Forms.Create(store.forms, store.posts, caller, req.postId, req.formData, req.id, req.createdAt);
      && r.state.forms == f.state
      && (r.result.Err? <==> f.result.Err?)
      && (f.result.Err? ==> r.result.error == f.result.error)
      && (f.result.Ok? ==> r.result == Ok(FormReply(f.result.value)))
  {
    match req
    case CreatePost(title, content, id, createdAt) =>
      var s := Posts.Create(store.posts, caller, title, content, id, createdAt);
      Step(Ok(PostReply(s.result.value)), store.(posts := s.state))
    case UpdatePost(postId, title, content) =>
      var s := Posts.Update(store.posts, caller, postId, title, content);
      if s.result.Err? then Step(Err(s.result.error), store)
      else Step(Ok(PostReply(s.result.value)), store.(posts := s.state))
    case DeletePost(postId) =>
      var s := Posts.Delete(store.posts, caller, postId);
      if s.result.Err? then Step(Err(s.result.error), store)
      else Step(Ok(Done), store.(posts := s.state))
    case SubmitForm(postId, formData, id, createdAt) =>
      var s := Forms.Create(store.forms, store.posts, caller, postId, formData, id, createdAt);
      if s.result.Err? then Step(Err(s.result.error), store)
      else Step(Ok(FormReply(s.result.value)), store.(forms := s.state))
  }

  /** Handle one request against the store. */
  function Handle(store: Store, crypto: Crypto, header: Option<string>, req: Request): (r: Step<Reply, Store>)
    ensures NeedsToken(req) && Auth.BearerToken(header).None? ==> r == Step(Err(NoToken), store)
    ensures NeedsToken(req) && Auth.Authenticate(header, crypto.verify).Err? ==>
      r == Step(Err(Auth.Authenticate(header, crypto.verify).error), store)
    ensures forall caller :: NeedsToken(req) && Auth.Authenticate(header, crypto.verify) == Ok(caller) ==>
      r == Perform(store, caller, req)
    ensures r.result.Err? ==> r.state == store
    ensures ReadOnly(req) ==> r.state == store
    ensures !req.Signup? ==> r.state.users == store.users
    ensures !(req.CreatePost? || req.UpdatePost? || req.DeletePost?) ==> r.state.posts == store.posts
    ensures !req.SubmitForm? ==> r.state.forms == store.forms
    ensures req.Signup? ==>
      var s := Users.Signup(store.users, req.name, req.email, req.phone, req.gender,
                            req.password, req.id, crypto.hash);
      && r.state.users == s.state
      && (r.result.Err? <==> s.result.Err?)
      && (s.result.Err? ==> r.result.error == s.result.error)
      && (s.result.Ok? ==> r.result == Ok(Done))
    ensures req.Login? ==>
      var l := Users.Login(store.users, req.email, req.password, crypto.compare, crypto.sign);
      && (r.result.Err? <==> l.Err?)
      && (l.Err? ==> r.result.error == l.error)
      && (l.Ok? ==> r.result == Ok(SessionReply(l.value)))
    ensures req.ListPosts? ==> r.result == Ok(PostsReply(store.posts))
    ensures req.GetPost? ==>
      && (r.result.Err? <==> !Posts.Exists(store.posts, req.postId))
      && (r.result.Err? ==> r.result.error == NotFound)
      && forall k :: Posts.IsFirstWithId(store.posts, req.postId, k) ==> r.result == Ok(PostReply(store.posts[k]))
    ensures req.ListForms? ==> r.result == Ok(FormsReply(Forms.ForPost(store.forms, req.postId)))
  {
    match req
    case Signup(name, email, phone, gender, password, id) =>
      var s := Users.Signup(store.users, name, email, phone, gender, password, id, crypto.hash);
      if s.result.Err? then Step(Err(s.result.error), store)
      else Step(Ok(Done), store.(users := s.state))
    case Login(email, password) =>
      (match Users.Login(store.users, email, password, crypto.compare, crypto.sign)
       case Err(e) => Step(Err(e), store)
       case Ok(session) => Step(Ok(SessionReply(session)), store))
    case ListPosts =>
      Step(Ok(PostsReply(store.posts)), store)
    case GetPost(postId) =>
      (match Posts.Get(store.posts, postId)
       case Err(e) => Step(Err(e), store)
       case Ok(post) => Step(Ok(PostReply(post)), store))
    case ListForms(postId) =>
      Step(Ok(FormsReply(Forms.ForPost(store.forms, postId))), store)
    case _ =>
      match Auth.Authenticate(header, crypto.verify)
      case Err(e) => Step(Err(e), store)
      case Ok(caller) => Perform(store, caller, req)
  }

  /** The public routes answer the same whatever Authorization header arrives. */
  lemma PublicRoutesIgnoreHeader(store: Store, crypto: Crypto, h1: Option<string>,
                                 h2: Option<string>, req: Request)
    requires !NeedsToken(req)
    ensures Handle(store, crypto, h1, req) == Handle(store, crypto, h2, req)
  {
  }

  /** A token from a successful login, sent back as `Bearer <token>`, opens
      the gate for the account that logged in, provided signing produces
      non-empty space-free tokens that verification accepts with their `id`. */
  lemma LoginTokenOpensGate(store: Store, crypto: Crypto, email: string, password: string)
    requires forall c :: crypto.sign(c) != "" && Auth.Space !in crypto.sign(c)
    requires forall c :: crypto.verify(crypto.sign(c)) == Some(c.id)
    requires Handle(store, crypto, None, Login(email, password)).result.Ok?
    ensures var session := Handle(store, crypto, None, Login(email, password)).result.value.session;
            Auth.Authenticate(Some("Bearer" + [Auth.Space] + session.token), crypto.verify) == Ok(session.id)
  {
    var k := Users.FirstWithEmail(store.users, email).value;
    var session := Users.Login(store.users, email, password, crypto.compare, crypto.sign).value;
    assert session.token == crypto.sign(Claims(store.users[k].id, TokenLifetime));
    Auth.BearerTokenOfHeader("Bearer", session.token, "");
  }

  /** Two post creations handled one after the other both persist, in order,
      behind the posts that were already stored. */
  lemma SerialCreatesBothPersist(store: Store, crypto: Crypto, header: Option<string>,
                                 first: Request, second: Request)
    requires first.CreatePost? && second.CreatePost?
    requires Auth.Authenticate(header, crypto.verify).Ok?
    ensures var s1 := Handle(store, crypto, header, first);
            var s2 := Handle(s1.state, crypto, header, second);
            && s2.state.posts == store.posts + [s1.result.value.post, s2.result.value.post]
            && s2.state.users == store.users
            && s2.state.forms == store.forms
  {
  }
}
