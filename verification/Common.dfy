/** Values shared by every part of the model: optional values, user ids, HTTP status
    codes and the cookie that carries a session token. */
module Common {

  datatype Option<+T> = None | Some(value: T)

  /** What the network does to one command or statement: nothing, or the caller gets an error while
      it did (applied) or did not take effect. */
  datatype Fault = Fine | Lost(applied: bool, msg: string)

  // shared.UUID and shared.Password are plain strings.
  type Uid = string
  type Password = string

  const OK := 200
  const NO_CONTENT := 204
  const MOVED_PERMANENTLY := 301
  const FOUND := 302
  const TEMPORARY_REDIRECT := 307
  const BAD_REQUEST := 400
  const FORBIDDEN := 403
  const GONE := 410
  const TOO_MANY_REQUESTS := 429
  const INTERNAL_SERVER_ERROR := 500

  /** The part of http.Cookie that varies: value, expiry instant (None is Go's zero time)
      and MaxAge in seconds. */
  datatype Cookie = Cookie(value: string, expires: Option<int>, maxAge: int)

  const LOGOUT_COOKIE := Cookie("", None, -1)
}
