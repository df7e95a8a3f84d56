/** The fetcher of `src/api.py`: `MaraviAPI.fetch_data` takes a `prices`
    answer from the first page alone, or walks the pages of an `objects`
    answer until one comes back empty, and re-authenticates and starts over
    on a 401. */
module PricesApi {
  import opened Wrappers
  import opened Json
  import opened Http

  const PricesKey := "prices"
  const ObjectsKey := "objects"

  /** A page after which the `objects` loop asks for the next one: a
      dictionary holding a non-empty dictionary under `objects`. */
  predicate Continues(r: Response) {
    r.Ok? && r.body.Obj? && GetOr(r.body.fields, ObjectsKey, Null).Obj? && Truthy(GetOr(r.body.fields, ObjectsKey, Null))
  }

  /** The records of a page that continues the loop; none for any other
      page. */
  function PageObjects(r: Response): seq<Value> {
    if Continues(r) then Values(GetOr(r.body.fields, ObjectsKey, Null).fields) else []
  }

  /** The `while True` loop of the `objects` branch from `page` on, with
      `data` collected so far.  A page whose `objects` payload is falsy (or
      missing) ends it; a truthy payload that is not a dictionary raises
      (`len` of a number, `.values()` of a list or string).  The loop has no
      page cap, so it ends only because some page `stop` does not continue
      it; `stop` names one such page and does not change the outcome
      (`ObjectsLoopAnyStop`). */
  function ObjectsLoop(pages: Pages, page: nat, data: seq<Value>, stop: nat): Attempt
    requires page <= stop && !Continues(pages(stop))
    decreases stop - page
  {
    match pages(page)
    case HttpError(status) => ErrorAttempt(status)
    case Broken => Failed
    case Ok(result) =>
      if !result.Obj? then Failed
      else
        var payload := GetOr(result.fields, ObjectsKey, Null);
        if !Truthy(payload) then Collected(data)
        else if !payload.Obj? then Failed
        else ObjectsLoop(pages, page + 1, data + Values(payload.fields), stop)
  }

  /** Which page is named as the end of the paging does not matter. */
  lemma {:induction false} ObjectsLoopAnyStop(pages: Pages, page: nat, data: seq<Value>, stop1: nat, stop2: nat)
    requires page <= stop1 && !Continues(pages(stop1))
    requires page <= stop2 && !Continues(pages(stop2))
    ensures ObjectsLoop(pages, page, data, stop1) == ObjectsLoop(pages, page, data, stop2)
    decreases stop1 - page
  {
    if Continues(pages(page)) {
      ObjectsLoopAnyStop(pages, page + 1, data + PageObjects(pages(page)), stop1, stop2);
    }
  }

  /** The records of pages `first` up to `end`, in page order. */
  function ObjectsThrough(pages: Pages, first: nat, end: nat): seq<Value>
    decreases end - first
  {
    if end <= first then [] else PageObjects(pages(first)) + ObjectsThrough(pages, first + 1, end)
  }

  /** A page that ends the loop with the records collected so far. */
  predicate EmptyAnswer(r: Response) {
    r.Ok? && r.body.Obj? && !Truthy(GetOr(r.body.fields, ObjectsKey, Null))
  }

  /** One turn of the `objects` loop on a page that continues it. */
  lemma ObjectsLoopStep(pages: Pages, page: nat, data: seq<Value>, stop: nat)
    requires page <= stop && !Continues(pages(stop)) && Continues(pages(page))
    ensures page + 1 <= stop
    ensures ObjectsLoop(pages, page, data, stop) == ObjectsLoop(pages, page + 1, data + PageObjects(pages(page)), stop)
  {
  }

  /** The first page from `page` on that does not continue the loop. */
  function RunEnd(pages: Pages, page: nat, stop: nat): (end: nat)
    requires page <= stop && !Continues(pages(stop))
    ensures page <= end <= stop && !Continues(pages(end))
    ensures forall q: nat :: page <= q < end ==> Continues(pages(q))
    decreases stop - page
  {
    if Continues(pages(page)) then RunEnd(pages, page + 1, stop) else page
  }

  /** How the loop ends on a page that does not continue it, with `data`
      collected. */
  function EndOutcome(r: Response, data: seq<Value>): Attempt {
    match r
    case HttpError(status) => ErrorAttempt(status)
    case Ok(body) => if EmptyAnswer(r) then Collected(data) else Failed
    case Broken => Failed
  }

  /** The run from a page that continues the loop ends where the run from
      the next page does. */
  lemma RunEndStep(pages: Pages, page: nat, stop: nat)
    requires page <= stop && !Continues(pages(stop)) && Continues(pages(page))
    ensures page + 1 <= stop
    ensures RunEnd(pages, page, stop) == RunEnd(pages, page + 1, stop)
  {
  }

  /** The records of pages `first` to `end` are those of page `first`
      followed by those of the pages after it. */
  lemma ObjectsThroughStep(pages: Pages, first: nat, end: nat)
    requires first < end
    ensures ObjectsThrough(pages, first, end) == PageObjects(pages(first)) + ObjectsThrough(pages, first + 1, end)
  {
  }

  /** The `objects` loop walks the unbroken run of pages that continue it,
      concatenating their records in page order after `data`, and its
      outcome is decided by the first page that does not continue it. */
  lemma {:induction false} ObjectsLoopConcatenates(pages: Pages, page: nat, data: seq<Value>, stop: nat)
    requires page <= stop && !Continues(pages(stop))
    ensures ObjectsLoop(pages, page, data, stop)
      == EndOutcome(pages(RunEnd(pages, page, stop)), data + ObjectsThrough(pages, page, RunEnd(pages, page, stop)))
    decreases stop - page, 1
  {
    if Continues(pages(page)) {
      ObjectsLoopConcatenatesFrom(pages, page, data, stop);
    } else {
      assert RunEnd(pages, page, stop) == page;
      assert data + ObjectsThrough(pages, page, page) == data;
      ObjectsLoopEnds(pages, page, data, stop);
    }
  }

  /** `ObjectsLoopConcatenates` on a page that continues the loop. */
  lemma {:induction false} ObjectsLoopConcatenatesFrom(pages: Pages, page: nat, data: seq<Value>, stop: nat)
    requires page <= stop && !Continues(pages(stop)) && Continues(pages(page))
    ensures ObjectsLoop(pages, page, data, stop)
      == EndOutcome(pages(RunEnd(pages, page, stop)), data + ObjectsThrough(pages, page, RunEnd(pages, page, stop)))
    decreases stop - page, 0
  {
    var end := RunEnd(pages, page, stop);
    var more := PageObjects(pages(page));
    ObjectsLoopStep(pages, page, data, stop);
    RunEndStep(pages, page, stop);
    ObjectsThroughStep(pages, page, end);
    ObjectsLoopConcatenates(pages, page + 1, data + more, stop);
    AppendAssoc(data, more, ObjectsThrough(pages, page + 1, end));
  }

  /** The loop on a page that does not continue it ends there. */
  lemma ObjectsLoopEnds(pages: Pages, page: nat, data: seq<Value>, stop: nat)
    requires page <= stop && !Continues(pages(stop)) && !Continues(pages(page))
    ensures ObjectsLoop(pages, page, data, stop) == EndOutcome(pages(page), data)
  {
  }

  /** What the first request decides: the outcome itself, or that the
      `objects` loop runs from page 1 with `data` collected. */
  datatype FirstOutcome = Decided(outcome: Attempt) | Walk(data: seq<Value>)

  /** The first request.  A body that is not a dictionary raises (on `.get`
      or on `.keys()`).  `prices` is looked for first: its payload, when
      truthy, is the whole result (`extend` iterates it, and raises on a
      value that is not iterable), and no other page is asked for.  Then
      `objects`: its payload, when truthy, must be a dictionary, whose values
      start the loop at page 1.  A body with neither key gives an empty
      result. */
  function FirstPage(r: Response): FirstOutcome {
    match r
    case HttpError(status) => Decided(ErrorAttempt(status))
    case Broken => Decided(Failed)
    case Ok(result) =>
      if !result.Obj? then Decided(Failed)
      else if HasKey(result.fields, PricesKey) then
        var payload := GetOr(result.fields, PricesKey, Null);
        if !Truthy(payload) then Decided(Collected([]))
        else match Iterate(payload)
          case None => Decided(Failed)
          case Some(items) => Decided(Collected(items))
      else if HasKey(result.fields, ObjectsKey) then
        var payload := GetOr(result.fields, ObjectsKey, Null);
        if !Truthy(payload) then Walk([])
        else if !payload.Obj? then Decided(Failed)
        else Walk(Values(payload.fields))
      else Decided(Failed)
  }

  /** One pass of `fetch_data` over the answers `pages`. */
  function FetchAttempt(pages: Pages, stop: nat): Attempt
    requires 1 <= stop && !Continues(pages(stop))
  {
    match FirstPage(pages(0))
    case Decided(outcome) => outcome
    case Walk(data) => ObjectsLoop(pages, 1, data, stop)
  }

  /** A `prices` answer is single-shot: only page 0 decides the outcome. */
  lemma PricesSingleShot(p1: Pages, p2: Pages, stop1: nat, stop2: nat)
    requires 1 <= stop1 && !Continues(p1(stop1)) && 1 <= stop2 && !Continues(p2(stop2))
    requires p1(0) == p2(0) && p1(0).Ok? && p1(0).body.Obj? && HasKey(p1(0).body.fields, PricesKey)
    ensures FetchAttempt(p1, stop1) == FetchAttempt(p2, stop2)
  {
  }

  /** With a dictionary under `objects` on page 0, the result is page 0's
      records followed by those of the pages after it, up to the first page
      that does not continue the loop, which decides the outcome. */
  lemma ObjectsPaged(pages: Pages, stop: nat)
    requires 1 <= stop && !Continues(pages(stop))
    requires pages(0).Ok? && pages(0).body.Obj? && !HasKey(pages(0).body.fields, PricesKey)
    requires Continues(pages(0))
    ensures FetchAttempt(pages, stop)
      == EndOutcome(pages(RunEnd(pages, 1, stop)), PageObjects(pages(0)) + ObjectsThrough(pages, 1, RunEnd(pages, 1, stop)))
  {
    assert HasKey(pages(0).body.fields, ObjectsKey);
    ObjectsLoopConcatenates(pages, 1, PageObjects(pages(0)), stop);
  }

  /** The last page of each token's `objects` paging is named by `lastPage`. */
  ghost predicate PagingEnds(server: Server, lastPage: nat -> nat) {
    forall t: nat :: 1 <= lastPage(t) && !Continues(server.respond(t, lastPage(t)))
  }

  /** `pass` is the pass of `fetch_data` with token `t`: it is the outcome
      of `FetchAttempt` on the answers the server gives to `t`, whose paging
      ends at `lastPage(t)`. */
  ghost predicate PassWith(server: Server, lastPage: nat -> nat, pass: nat -> Attempt, t: nat) {
    1 <= lastPage(t) && !Continues(server.respond(t, lastPage(t)))
    && pass(t) == FetchAttempt(server.Round(t), lastPage(t))
  }

  /** `pass` is the pass of `fetch_data` with every token. */
  ghost predicate IsPass(server: Server, lastPage: nat -> nat, pass: nat -> Attempt) {
    forall t: nat :: PassWith(server, lastPage, pass, t)
  }

  /** The `MaraviAPI` client of `src/api.py`. */
  class Client {
    const server: Server
    ghost const lastPage: nat -> nat
    /** The pass of `fetch_data` with each token, as a value `Fetch` runs. */
    ghost const pass: nat -> Attempt
    var token: Option<nat>
    var authRequests: nat

    constructor (server: Server, ghost lastPage: nat -> nat)
      requires PagingEnds(server, lastPage)
      ensures this.server == server && this.lastPage == lastPage
      ensures IsPass(server, lastPage, pass)
      ensures token == None && authRequests == 0
    {
      this.server := server;
      this.lastPage := lastPage;
      this.pass := (t: nat) => FetchAttempt(server.Round(t), lastPage(t));
      token := None;
      authRequests := 0;
    }

    /** `authenticate()`; `ok` is false where the source raises. */
    method Authenticate() returns (ok: bool)
      modifies this
      ensures ok == server.authenticates(old(authRequests))
      ensures Session(token, authRequests) == Authenticated(server, old(Session(token, authRequests)))
    {
      ok := server.authenticates(authRequests);
      if ok {
        token := Some(authRequests);
      }
      authRequests := authRequests + 1;
    }

    /** The `try` block of `fetch_data` with the credentials held. */
    method FetchPages() returns (a: Attempt)
      requires token.Some? && IsPass(server, lastPage, pass)
      ensures a == pass(token.value)
    {
      assert PassWith(server, lastPage, pass, token.value);
      var pages := server.Round(token.value);
      ghost var stop := lastPage(token.value);
      assert pages(stop) == server.respond(token.value, stop);
      var result;
      match pages(0) {
        case HttpError(status) => return ErrorAttempt(status);
        case Broken => return Failed;
        case Ok(body) => result := body;
      }
      if !result.Obj? {
        return Failed;
      }
      if HasKey(result.fields, PricesKey) {
        var payload := GetOr(result.fields, PricesKey, Null);
        var data := [];
        if Truthy(payload) {
          var items := Iterate(payload);
          if items.None? {
            return Failed;
          }
          data := data + items.value;
        }
        return Collected(data);
      }
      if !HasKey(result.fields, ObjectsKey) {
        return Failed;
      }
      var payload := GetOr(result.fields, ObjectsKey, Null);
      var data := [];
      if Truthy(payload) {
        if !payload.Obj? {
          return Failed;
        }
        data := data + Values(payload.fields);
      }
      assert FirstPage(pages(0)) == Walk(data);
      a := WalkObjects(pages, data, stop);
    }

    /** The `while True` loop of the `objects` branch, from page 1 with the
        records of page 0 collected. */
    method WalkObjects(pages: Pages, data0: seq<Value>, ghost stop: nat) returns (a: Attempt)
      requires 1 <= stop && !Continues(pages(stop))
      ensures a == ObjectsLoop(pages, 1, data0, stop)
    {
      var data := data0;
      var page := 1;
      while true
        invariant page <= stop
        invariant ObjectsLoop(pages, 1, data0, stop) == ObjectsLoop(pages, page, data, stop)
        decreases stop - page
      {
        var result;
        match pages(page) {
          case HttpError(status) => return ErrorAttempt(status);
          case Broken => return Failed;
          case Ok(body) => result := body;
        }
        if !result.Obj? {
          return Failed;
        }
        var payload := GetOr(result.fields, ObjectsKey, Null);
        if !Truthy(payload) {
          return Collected(data);
        }
        if !payload.Obj? {
          return Failed;
        }
        data := data + Values(payload.fields);
        page := page + 1;
      }
    }

    /** `fetch_data(endpoint, params)`, with at most `depth` nested retries
        after a 401. */
    method FetchData(depth: nat) returns (records: seq<Value>)
      requires IsPass(server, lastPage, pass)
      modifies this
      ensures (records, Session(token, authRequests)) == Fetch(server, pass, pass, depth, old(Session(token, authRequests)))
      decreases depth
    {
      if token.None? {
        var ok := Authenticate();
        if !ok {
          return [];
        }
      }
      var attempt := FetchPages();
      match attempt {
        case Collected(r) => records := r;
        case Failed => records := [];
        case Unauthorized =>
          if depth == 0 {
            return [];
          }
          var ok := Authenticate();
          if !ok {
            return [];
          }
          records := FetchData(depth - 1);
      }
    }
  }
}
