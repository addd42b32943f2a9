/**
 * `authenticate` and `authorize` (apps/server/src/middlewares/auth.middleware.ts).
 * `jwt.verify` and `User.findById` are oracles passed in as functions: each
 * answers None where the library throws or finds nothing.
 */
module AuthMiddleware {
  import opened Wrappers
  import opened Text
  import opened ErrorMiddleware

  datatype User = User(id: string, role: string)

  /** The parts of an Express request the two guards read and write. */
  class Request {
    /** `req.headers.authorization`. */
    var authorization: Option<string>
    /** `req.user`. */
    var user: Option<User>

    constructor (authorization: Option<string>)
      ensures this.authorization == authorization && user.None?
    {
      this.authorization := authorization;
      user := None;
    }
  }

  /** What a middleware does: call `next()`, or throw. */
  datatype Outcome = Next | Threw(error: Failure)

  const BearerPrefix: string := "Bearer "

  /** The header is present and starts with "Bearer " (case-sensitive). */
  predicate HasBearer(header: Option<string>) {
    header.Some? && StartsWith(header.value, BearerPrefix)
  }

  lemma BearerSplit(header: string)
    requires StartsWith(header, BearerPrefix)
    ensures Split(header, ' ') == ["Bearer"] + Split(header[7..], ' ')
  {
    assert header == "Bearer" + [' '] + header[7..];
    SplitAtSeparator("Bearer", ' ', header[7..]);
  }

  /** `authHeader.split(' ')[1]`: the first space-separated field after "Bearer ". */
  function Token(header: string): (token: string)
    requires StartsWith(header, BearerPrefix)
    ensures token == Split(header[|BearerPrefix|..], ' ')[0]
  {
    BearerSplit(header);
    Split(header, ' ')[1]
  }

  /**
   * The token is the text after "Bearer " up to the next space or the end of
   * the header (so it may be empty).
   */
  lemma TokenIsSecondField(header: string)
    requires StartsWith(header, BearerPrefix)
    ensures ' ' !in Token(header)
    ensures 7 + |Token(header)| <= |header| && header[7..7 + |Token(header)|] == Token(header)
    ensures 7 + |Token(header)| < |header| ==> header[7 + |Token(header)|] == ' '
  {
    BearerSplit(header);
    var rest := header[7..];
    FirstPiece(rest, ' ');
    assert Token(header) == Split(rest, ' ')[0];
    assert header[7..7 + |Token(header)|] == rest[..|Token(header)|];
  }

  /**
   * `authenticate(req, res, next)`. `tokenChecked` is the token handed to
   * `jwt.verify`, None when the header check fails first. Every failure after
   * the header check, a missing user included, becomes 401 "Invalid token".
   */
  method Authenticate(req: Request, verify: string -> Option<string>, findById: string -> Option<User>)
    returns (outcome: Outcome, tokenChecked: Option<string>)
    modifies req`user
    ensures !HasBearer(req.authorization) ==>
      outcome == Threw(AppError("No token provided", 401)) && tokenChecked.None? && req.user == old(req.user)
    ensures HasBearer(req.authorization) ==>
      var token := Token(req.authorization.value);
      var decoded := verify(token);
      && tokenChecked == Some(token)
      && (if decoded.Some? && findById(decoded.value).Some? then
            outcome == Next && req.user == findById(decoded.value)
          else
            outcome == Threw(AppError("Invalid token", 401)) && req.user == old(req.user))
  {
    var header := req.authorization;
    if header.None? || !StartsWith(header.value, BearerPrefix) {
      return Threw(AppError("No token provided", 401)), None;
    }
    var token := Token(header.value);
    tokenChecked := Some(token);
    var decoded := verify(token);
    if decoded.None? {
      return Threw(AppError("Invalid token", 401)), tokenChecked;
    }
    var user := findById(decoded.value);
    if user.None? {
      // "User not found" is thrown inside the try and replaced by the catch.
      return Threw(AppError("Invalid token", 401)), tokenChecked;
    }
    req.user := user;
    outcome := Next;
  }

  /** `authorize(...roles)` applied to `req.user`. */
  function Authorize(roles: seq<string>, user: Option<User>): (r: Outcome)
    ensures r == Next <==> user.Some? && user.value.role in roles
    ensures user.None? ==> r == Threw(AppError("Unauthorized", 401))
    ensures user.Some? && user.value.role !in roles ==> r == Threw(AppError("Insufficient permissions", 403))
  {
    if user.None? then Threw(AppError("Unauthorized", 401))
    else if user.value.role !in roles then Threw(AppError("Insufficient permissions", 403))
    else Next
  }

  /** With no roles listed, nobody passes. */
  lemma EmptyRolesRefuseEveryone(user: Option<User>)
    ensures Authorize([], user) != Next
  {
  }
}
