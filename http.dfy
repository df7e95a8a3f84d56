/** The HTTP service the fetchers talk to, reduced to what they observe,
    and the authenticate-and-retry shape their `fetch_data` methods share.
    `requests.post` and `raise_for_status` are replaced by a `Server`.  Tokens
    are numbered by the token request that issued them.  For each token, the
    server answers each page request, and for each token request it says
    whether that request succeeds. */
module Http {
  import opened Wrappers
  import opened Json

  datatype Response =
    | Ok(body: Value)          // a 2xx/3xx answer whose body decoded as JSON
    | HttpError(status: int)   // `raise_for_status` raised `HTTPError`
    | Broken                   // a transport error, a timeout or a body that is not JSON

  /** The answers given to one token, by page index. */
  type Pages = nat -> Response

  datatype Server = Server(respond: (nat, nat) -> Response, authenticates: nat -> bool) {
    function Round(token: nat): Pages {
      (page: nat) => respond(token, page)
    }
  }

  const StatusUnauthorized := 401

  /** How one pass of the `try` block ends: with the collected records, with
      an `HTTPError` 401, or with any other exception (which `fetch_data`
      turns into an empty result). */
  datatype Attempt = Collected(records: seq<Value>) | Unauthorized | Failed

  /** The attempt an `HTTPError` with this status ends. */
  function ErrorAttempt(status: int): Attempt {
    if status == StatusUnauthorized then Unauthorized else Failed
  }

  /** `self.credentials`, reduced to which token request issued it, and the
      number of token requests made so far. */
  datatype Session = Session(token: Option<nat>, authRequests: nat)

  /** `authenticate()`: the next token request, which replaces the held
      token when it succeeds and leaves it alone when it raises. */
  function Authenticated(server: Server, s: Session): (r: Session)
    ensures r.authRequests == s.authRequests + 1
    ensures r.token.Some? <==> s.token.Some? || server.authenticates(s.authRequests)
  {
    Session(if server.authenticates(s.authRequests) then Some(s.authRequests) else s.token, s.authRequests + 1)
  }

  /** `fetch_data` around one pass over the pages, given as the attempt it
      makes with each token.  It authenticates first
      when it holds no token, and after a 401 it authenticates again and
      starts over, through a recursive call.  The source nests those calls
      without limit; `depth` bounds them, and a call with no depth left
      answers empty, as the `RecursionError` the source would eventually
      hit is caught by the same handler.  The passes after a 401 run
      `retry`, which differs from `pass` where the recursive call drops an
      argument. */
  function Fetch(server: Server, pass: nat -> Attempt, retry: nat -> Attempt, depth: nat, s: Session): (seq<Value>, Session)
    decreases depth
  {
    var s1 := if s.token.None? then Authenticated(server, s) else s;
    if s1.token.None? then ([], s1)
    else match pass(s1.token.value)
      case Collected(r) => (r, s1)
      case Failed => ([], s1)
      case Unauthorized =>
        if depth == 0 then ([], s1)
        else
          var s2 := Authenticated(server, s1);
          if !server.authenticates(s1.authRequests) then ([], s2)
          else Fetch(server, retry, retry, depth - 1, s2)
  }

  /** Each retry after a 401 costs one token request and `depth` bounds the
      retries: `fetch_data` makes at most `depth` token requests, plus one
      when it starts without a token, and never takes one back. */
  lemma {:induction false} FetchTokenRequests(server: Server, pass: nat -> Attempt, retry: nat -> Attempt, depth: nat, s: Session)
    ensures var n := Fetch(server, pass, retry, depth, s).1.authRequests;
      s.authRequests <= n <= s.authRequests + depth + (if s.token.None? then 1 else 0)
    decreases depth
  {
    var s1 := if s.token.None? then Authenticated(server, s) else s;
    if s1.token.Some? && pass(s1.token.value).Unauthorized? && depth > 0 && server.authenticates(s1.authRequests) {
      FetchTokenRequests(server, retry, retry, depth - 1, Authenticated(server, s1));
    }
  }

  /** A property of record lists that holds of the empty list and of every
      list a pass collects holds of whatever `fetch_data` returns. */
  lemma {:induction false} FetchKeeps(server: Server, pass: nat -> Attempt, retry: nat -> Attempt, depth: nat, s: Session, P: seq<Value> -> bool)
    requires P([])
    requires forall t :: pass(t).Collected? ==> P(pass(t).records)
    requires forall t :: retry(t).Collected? ==> P(retry(t).records)
    ensures P(Fetch(server, pass, retry, depth, s).0)
    decreases depth
  {
    var s1 := if s.token.None? then Authenticated(server, s) else s;
    if s1.token.Some? && pass(s1.token.value).Unauthorized? && depth > 0 {
      FetchKeeps(server, retry, retry, depth - 1, Authenticated(server, s1), P);
    }
  }
}
