/** The fetcher of `src/api3.py`: `MaraviAPI.fetch_data` reads page 0 and,
    when its answer has an `objects` key, walks pages 1, 2, ... until one
    comes back empty or page 100 has been read.  Nothing is caught here:
    an HTTP error, a transport error or a malformed answer reaches the
    caller, which is a `Failure`. */
module ObjectsApi {
  import opened Wrappers
  import opened Json
  import opened Http
  import opened PricesApi

  /** The safety break: after page `MaxPage` no further page is asked for. */
  const MaxPage: nat := 100

  /** What the caller of `fetch_data` sees raised. */
  const HttpErrorRaised := "HTTPError"
  const TransportErrorRaised := "RequestException"
  const MalformedAnswerRaised := "AttributeError"

  /** The exception an answer that is not `Ok` raises. */
  function Raised(r: Response): (e: string)
    requires !r.Ok?
    ensures e == HttpErrorRaised <==> r.HttpError?
  {
    if r.HttpError? then HttpErrorRaised else TransportErrorRaised
  }

  /** The `while True` loop from `page` on, with `data` collected.  Any
      answer that is not a dictionary raises at `.get`; a falsy `objects`
      payload ends the loop; a truthy one that is not a dictionary raises
      (at `len` for a number, at `.values()` for a string or list). */
  function Loop(pages: Pages, page: nat, data: seq<Value>): (r: Result<seq<Value>>)
    requires 1 <= page
    decreases MaxPage + 1 - page
  {
    if page > MaxPage then Success(data)
    else match pages(page)
      case HttpError(_) => Failure(HttpErrorRaised)
      case Broken => Failure(TransportErrorRaised)
      case Ok(result) =>
        if !result.Obj? then Failure(MalformedAnswerRaised)
        else
          var payload := GetOr(result.fields, ObjectsKey, Null);
          if !Truthy(payload) then Success(data)
          else if !payload.Obj? then Failure(MalformedAnswerRaised)
          else Loop(pages, page + 1, data + Values(payload.fields))
  }

  /** `fetch_data(endpoint, params)` on the answers `pages` the server gives
      to the held credentials.  An answer to page 0 without an `objects` key
      gives an empty result (after `result.keys()`, which raises on a value
      that is not a dictionary). */
  function Fetched(pages: Pages): (r: Result<seq<Value>>) {
    match pages(0)
    case HttpError(_) => Failure(HttpErrorRaised)
    case Broken => Failure(TransportErrorRaised)
    case Ok(result) =>
      if !result.Obj? then Failure(MalformedAnswerRaised)
      else if !HasKey(result.fields, ObjectsKey) then Success([])
      else
        var payload := GetOr(result.fields, ObjectsKey, Null);
        if !Truthy(payload) then Loop(pages, 1, [])
        else if !payload.Obj? then Failure(MalformedAnswerRaised)
        else Loop(pages, 1, Values(payload.fields))
  }

  /** `fetch_data`, written as the source's loop. */
  method FetchData(pages: Pages) returns (r: Result<seq<Value>>)
    ensures r == Fetched(pages)
  {
    var result;
    match pages(0) {
      case HttpError(_) => return Failure(HttpErrorRaised);
      case Broken => return Failure(TransportErrorRaised);
      case Ok(body) => result := body;
    }
    if !result.Obj? {
      return Failure(MalformedAnswerRaised);
    }
    if !HasKey(result.fields, ObjectsKey) {
      return Success([]);
    }
    var data := [];
    var payload := GetOr(result.fields, ObjectsKey, Null);
    if Truthy(payload) {
      if !payload.Obj? {
        return Failure(MalformedAnswerRaised);
      }
      data := data + Values(payload.fields);
    }
    assert data == if Truthy(payload) then Values(payload.fields) else [];
    var page := 1;
    while true
      invariant 1 <= page <= MaxPage
      invariant Fetched(pages) == Loop(pages, page, data)
      decreases MaxPage - page
    {
      match pages(page) {
        case HttpError(_) => return Failure(HttpErrorRaised);
        case Broken => return Failure(TransportErrorRaised);
        case Ok(body) => result := body;
      }
      if !result.Obj? {
        return Failure(MalformedAnswerRaised);
      }
      payload := GetOr(result.fields, ObjectsKey, Null);
      if !Truthy(payload) {
        return Success(data);
      }
      if !payload.Obj? {
        return Failure(MalformedAnswerRaised);
      }
      data := data + Values(payload.fields);
      page := page + 1;
      if page > MaxPage {
        return Success(data);
      }
    }
  }

  // ----- what the paging promises -----

  /** The loop only ever reads pages up to `MaxPage`. */
  lemma {:induction false} LoopReadsUpToCap(p1: Pages, p2: Pages, page: nat, data: seq<Value>)
    requires 1 <= page
    requires forall q: nat :: page <= q <= MaxPage ==> p1(q) == p2(q)
    ensures Loop(p1, page, data) == Loop(p2, page, data)
    decreases MaxPage + 1 - page
  {
    if page <= MaxPage && p1(page).Ok? && p1(page).body.Obj? {
      var payload := GetOr(p1(page).body.fields, ObjectsKey, Null);
      if Truthy(payload) && payload.Obj? {
        LoopReadsUpToCap(p1, p2, page + 1, data + Values(payload.fields));
      }
    }
  }

  /** Two servers that answer pages 0 to 100 alike give the same result:
      no page past the safety break is ever requested. */
  lemma AnswersPastCapIgnored(p1: Pages, p2: Pages)
    requires forall q: nat :: q <= MaxPage ==> p1(q) == p2(q)
    ensures Fetched(p1) == Fetched(p2)
  {
    assert p1(0) == p2(0);
    if p1(0).Ok? && p1(0).body.Obj? {
      var payload := GetOr(p1(0).body.fields, ObjectsKey, Null);
      LoopReadsUpToCap(p1, p2, 1, if Truthy(payload) && payload.Obj? then Values(payload.fields) else []);
    }
  }

  /** The first page from `page` on that does not continue the loop, or
      `MaxPage + 1` when every page up to the cap does. */
  function CappedEnd(pages: Pages, page: nat): (end: nat)
    requires 1 <= page <= MaxPage + 1
    ensures page <= end <= MaxPage + 1
    ensures forall q: nat :: page <= q < end ==> Continues(pages(q))
    ensures end <= MaxPage ==> !Continues(pages(end))
    decreases MaxPage + 1 - page
  {
    if page <= MaxPage && Continues(pages(page)) then CappedEnd(pages, page + 1) else page
  }

  /** How the loop ends on a page that does not continue it, with `data`
      collected. */
  function EndResult(r: Response, data: seq<Value>): Result<seq<Value>> {
    match r
    case HttpError(_) => Failure(HttpErrorRaised)
    case Broken => Failure(TransportErrorRaised)
    case Ok(_) => if EmptyAnswer(r) then Success(data) else Failure(MalformedAnswerRaised)
  }

  /** One turn of the loop on a page below the cap that continues it. */
  lemma LoopStep(pages: Pages, page: nat, data: seq<Value>)
    requires 1 <= page <= MaxPage && Continues(pages(page))
    ensures Loop(pages, page, data) == Loop(pages, page + 1, data + PageObjects(pages(page)))
  {
  }

  /** The run from a page below the cap that continues the loop ends where
      the run from the next page does. */
  lemma CappedEndStep(pages: Pages, page: nat)
    requires 1 <= page <= MaxPage && Continues(pages(page))
    ensures CappedEnd(pages, page) == CappedEnd(pages, page + 1)
  {
  }

  /** The loop at the cap, or on a page that does not continue it, ends
      there. */
  lemma LoopEnds(pages: Pages, page: nat, data: seq<Value>)
    requires 1 <= page <= MaxPage + 1
    requires page <= MaxPage ==> !Continues(pages(page))
    ensures Loop(pages, page, data) == if page > MaxPage then Success(data) else EndResult(pages(page), data)
  {
  }

  /** The loop concatenates, in page order, the records of the unbroken run
      of pages that continue it; the run ends at the safety break, with
      success, or at a page that decides the outcome. */
  lemma {:induction false} LoopConcatenates(pages: Pages, page: nat, data: seq<Value>)
    requires 1 <= page <= MaxPage + 1
    ensures var end := CappedEnd(pages, page);
      Loop(pages, page, data)
        == if end > MaxPage then Success(data + ObjectsThrough(pages, page, end))
           else EndResult(pages(end), data + ObjectsThrough(pages, page, end))
    decreases MaxPage + 1 - page, 1
  {
    if page <= MaxPage && Continues(pages(page)) {
      LoopConcatenatesFrom(pages, page, data);
    } else {
      assert CappedEnd(pages, page) == page;
      assert data + ObjectsThrough(pages, page, page) == data;
      LoopEnds(pages, page, data);
    }
  }

  /** `LoopConcatenates` on a page below the cap that continues the loop. */
  lemma {:induction false} LoopConcatenatesFrom(pages: Pages, page: nat, data: seq<Value>)
    requires 1 <= page <= MaxPage && Continues(pages(page))
    ensures var end := CappedEnd(pages, page);
      Loop(pages, page, data)
        == if end > MaxPage then Success(data + ObjectsThrough(pages, page, end))
           else EndResult(pages(end), data + ObjectsThrough(pages, page, end))
    decreases MaxPage + 1 - page, 0
  {
    var end := CappedEnd(pages, page);
    var more := PageObjects(pages(page));
    LoopStep(pages, page, data);
    CappedEndStep(pages, page);
    ObjectsThroughStep(pages, page, end);
    LoopConcatenates(pages, page + 1, data + more);
    AppendAssoc(data, more, ObjectsThrough(pages, page + 1, end));
  }

  /** A full run of answers yields the records of pages 0 to 100 in order,
      and no more: at most 101 pages are read. */
  lemma FullRunStopsAtCap(pages: Pages)
    requires Continues(pages(0))
    requires forall q: nat :: 1 <= q <= MaxPage ==> Continues(pages(q))
    ensures Fetched(pages) == Success(PageObjects(pages(0)) + ObjectsThrough(pages, 1, MaxPage + 1))
  {
    LoopConcatenates(pages, 1, PageObjects(pages(0)));
    assert CappedEnd(pages, 1) == MaxPage + 1;
  }

  /** Without an `objects` key on page 0 the result is empty and no other
      page is read. */
  lemma NoObjectsKeyEmpty(pages: Pages)
    requires pages(0).Ok? && pages(0).body.Obj? && !HasKey(pages(0).body.fields, ObjectsKey)
    ensures Fetched(pages) == Success([])
  {
  }
}
