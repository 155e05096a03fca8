/** Account registration and login over the ordered sequence of users. */
module Users {
  import opened Model

  /** Index `k` is the first user whose email equals `email`, where the
      signup and login lookups stop. */
  ghost predicate IsFirstWithEmail(users: seq<User>, email: string, k: int)
  {
    && 0 <= k < |users|
    && users[k].email == email
    && forall j :: 0 <= j < k ==> users[j].email != email
  }

  ghost predicate Registered(users: seq<User>, email: string)
  {
    exists k :: 0 <= k < |users| && users[k].email == email
  }

  /** No two users share an email. */
  ghost predicate EmailsUnique(users: seq<User>)
  {
    forall i, j :: 0 <= i < |users| && 0 <= j < |users| && i != j ==> users[i].email != users[j].email
  }

  /** The index of the first user with `email`, scanning from the front. */
  function FirstWithEmail(users: seq<User>, email: string): (r: Option<nat>)
    ensures r.Some? ==> IsFirstWithEmail(users, email, r.value)
    ensures r.None? ==> !Registered(users, email)
  {
    if |users| == 0 then None
    else if users[0].email == email then Some(0)
    else match FirstWithEmail(users[1..], email)
      case None => None
      case Some(i) => Some(i + 1)
  }

  /** Signup: refuse a registered email, otherwise append a user whose
      stored password is `hash(password, SaltRounds)`. */
  function Signup(users: seq<User>, name: string, email: string, phone: string,
                  gender: string, password: string, id: string,
                  hash: (string, nat) -> string): (r: Step<(), seq<User>>)
    ensures r.result.Err? <==> Registered(users, email)
    ensures r.result.Err? ==> r.result.error == Conflict && r.state == users
    ensures r.result.Ok? ==>
      && |r.state| == |users| + 1
      && (forall k :: 0 <= k < |users| ==> r.state[k] == users[k])
      && r.state[|users|].id == id
      && r.state[|users|].name == name
      && r.state[|users|].email == email
      && r.state[|users|].phone == phone
      && r.state[|users|].gender == gender
      && r.state[|users|].password == hash(password, SaltRounds)
  {
    if FirstWithEmail(users, email).Some? then Step(Err(Conflict), users)
    else
      var user := User(id, name, email, phone, gender, hash(password, SaltRounds));
      Step(Ok(()), users + [user])
  }

  /** What a successful login answers: the token and the public profile. */
  datatype Session = Session(token: string, id: string, name: string, email: string)

  /** Login: the first user with `email` must exist and `compare` must accept
      the password against its stored hash; the token is signed over that
      user's id with a 24-hour lifetime. Both failures look the same. */
  function Login(users: seq<User>, email: string, password: string,
                 compare: (string, string) -> bool,
                 sign: Claims -> string): (r: Result<Session>)
    ensures r.Err? ==> r.error == InvalidCredentials
    ensures !Registered(users, email) ==> r == Err(InvalidCredentials)
    ensures forall k :: IsFirstWithEmail(users, email, k) ==>
      (r.Ok? <==> compare(password, users[k].password))
    ensures forall k :: IsFirstWithEmail(users, email, k) && r.Ok? ==>
      r.value == Session(sign(Claims(users[k].id, TokenLifetime)),
                         users[k].id, users[k].name, users[k].email)
  {
    match FirstWithEmail(users, email)
    case None => Err(InvalidCredentials)
    case Some(k) =>
      var u := users[k];
      if !compare(password, u.password) then Err(InvalidCredentials)
      else Ok(Session(sign(Claims(u.id, TokenLifetime)), u.id, u.name, u.email))
  }

  /** Signup keeps emails unique. */
  lemma SignupKeepsEmailsUnique(users: seq<User>, name: string, email: string, phone: string,
                                gender: string, password: string, id: string,
                                hash: (string, nat) -> string)
    requires EmailsUnique(users)
    ensures EmailsUnique(Signup(users, name, email, phone, gender, password, id, hash).state)
  {
  }

  /** A second signup with the same email is refused and changes nothing. */
  lemma SignupTwiceConflicts(users: seq<User>, name: string, email: string, phone: string,
                             gender: string, password: string, id: string,
                             name2: string, phone2: string, gender2: string,
                             password2: string, id2: string,
                             hash: (string, nat) -> string)
    requires Signup(users, name, email, phone, gender, password, id, hash).result.Ok?
    ensures var users1 := Signup(users, name, email, phone, gender, password, id, hash).state;
            Signup(users1, name2, email, phone2, gender2, password2, id2, hash) == Step(Err(Conflict), users1)
  {
  }

  /** A fresh signup followed by a login with the same credentials succeeds
      and the token names the new account, provided `compare` accepts a
      password against its own hash. */
  lemma SignupThenLogin(users: seq<User>, name: string, email: string, phone: string,
                        gender: string, password: string, id: string,
                        hash: (string, nat) -> string,
                        compare: (string, string) -> bool,
                        sign: Claims -> string)
    requires !Registered(users, email)
    requires compare(password, hash(password, SaltRounds))
    ensures var users1 := Signup(users, name, email, phone, gender, password, id, hash).state;
            Login(users1, email, password, compare, sign)
              == Ok(Session(sign(Claims(id, TokenLifetime)), id, name, email))
  {
  }

  /** When the hash never equals its input, the stored password is not the raw one. */
  lemma SignupStoresNoPlaintext(users: seq<User>, name: string, email: string, phone: string,
                                gender: string, password: string, id: string,
                                hash: (string, nat) -> string)
    requires forall p :: hash(p, SaltRounds) != p
    requires !Registered(users, email)
    ensures var users1 := Signup(users, name, email, phone, gender, password, id, hash).state;
            |users1| == |users| + 1 && users1[|users|].password != password
  {
  }
}
