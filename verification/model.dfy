/** Records, outcomes and constants shared by the route handlers of the
    content service: three ordered collections (users, posts, forms) and the
    distinguishable ways a handler can refuse a request. */
module Model {

  datatype Option<+T> = None | Some(value: T)

  /** The refusals a handler answers with. Each maps to one HTTP status. */
  datatype Error =
    | Conflict            // signup with an email that is already registered
    | InvalidCredentials  // login with an unknown email or a wrong password
    | NotFound            // no post carries the requested id
    | Forbidden           // the post belongs to another user
    | NoToken             // Authorization header absent or without a token part
    | InvalidToken        // the token verifier rejected the token

  /** HTTP status the handler sends for each refusal. */
  function Status(e: Error): (code: nat)
    ensures 400 <= code < 500
    ensures code == 401 <==> e == InvalidCredentials || e == NoToken
    ensures code == 403 <==> e == Forbidden || e == InvalidToken
    ensures code == 409 <==> e == Conflict
    ensures code == 404 <==> e == NotFound
  {
    match e
    case Conflict => 409
    case InvalidCredentials => 401
    case NotFound => 404
    case Forbidden => 403
    case NoToken => 401
    case InvalidToken => 403
  }

  datatype Result<+T> = Ok(value: T) | Err(error: Error)

  /** What one read-modify-write handler produces: its answer and the
      collection (or store) it writes back. */
  datatype Step<+T, +S> = Step(result: Result<T>, state: S)

  /** A registered account. `password` holds the bcrypt hash, never the raw password. */
  datatype User = User(id: string, name: string, email: string, phone: string,
                       gender: string, password: string)

  /** A post; `userId` is the id of the author and never changes. */
  datatype Post = Post(id: string, title: string, content: string,
                       userId: string, createdAt: string)

  /** A form submitted against a post. `formData` is the client's payload,
      kept as opaque serialized text. */
  datatype Form = Form(id: string, postId: string, userId: string,
                       formData: string, createdAt: string)

  /** The payload signed into a session token: the user id and the lifetime. */
  datatype Claims = Claims(id: string, expiresIn: nat)

  /** bcrypt cost factor used at signup. */
  const SaltRounds: nat := 10

  /** Session token lifetime in seconds ("24h"). */
  const TokenLifetime: nat := 24 * 60 * 60
}
