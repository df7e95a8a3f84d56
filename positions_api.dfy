/** The paged fetcher of `src/api2.py`: `MaraviAPI.fetch_data` walks the
    pages of an endpoint, keeps only the records whose identity string it has
    not seen before, and re-authenticates and starts over on a 401. */
module PositionsApi {
  import opened Wrappers
  import opened Json
  import opened Http
  import opened ItemIdentity

  const PerPage := 1000
  const MaxPages := 100
  const MaxEmptyPages := 2
  const DefaultKey := "positions"

  // ----- identities of collected records -----

  predicate AllObjects(s: seq<Value>) {
    forall i :: 0 <= i < |s| ==> s[i].Obj?
  }

  /** A non-empty list holds only dictionaries when its front does and its
      last item is one. */
  lemma AllObjectsSnoc(s: seq<Value>)
    requires s != []
    ensures AllObjects(s) <==> AllObjects(s[..|s| - 1]) && s[|s| - 1].Obj?
  {
    var init := s[..|s| - 1];
    assert forall i :: 0 <= i < |init| ==> s[i] == init[i];
  }

  /** The identity of a record that is a dictionary. */
  function Id(v: Value): string
    requires v.Obj?
  {
    ItemIdentifier(v).value
  }

  /** The identities of the records of `s`, in order. */
  function Ids(s: seq<Value>): (r: seq<string>)
    requires AllObjects(s)
    ensures |r| == |s|
  {
    if s == [] then []
    else
      AllObjectsSnoc(s);
      Ids(s[..|s| - 1]) + [Id(s[|s| - 1])]
  }

  /** The strings of `ids`, as a set. */
  function Elems(ids: seq<string>): set<string> {
    set x | x in ids
  }

  /** No string of `ids` occurs twice. */
  predicate Distinct(ids: seq<string>) {
    forall i, j :: 0 <= i < j < |ids| ==> ids[i] != ids[j]
  }

  /** The identities of the records of `s`, as a set. */
  function IdSet(s: seq<Value>): set<string>
    requires AllObjects(s)
  {
    Elems(Ids(s))
  }

  /** No two records of `s` have the same identity. */
  predicate DistinctIds(s: seq<Value>) {
    AllObjects(s) && Distinct(Ids(s))
  }

  /** The identities of a list with one more record. */
  lemma IdsSnoc(s: seq<Value>, x: Value)
    requires AllObjects(s) && x.Obj?
    ensures AllObjects(s + [x]) && Ids(s + [x]) == Ids(s) + [Id(x)]
  {
    AllObjectsSnoc(s + [x]);
    assert (s + [x])[..|s|] == s;
  }

  /** The identities of two lists one after the other. */
  lemma {:induction false} IdsAppend(a: seq<Value>, b: seq<Value>)
    requires AllObjects(a) && AllObjects(b)
    ensures AllObjects(a + b) && Ids(a + b) == Ids(a) + Ids(b)
    decreases |b|
  {
    if b == [] {
      assert a + b == a;
    } else {
      var init := b[..|b| - 1];
      var x := b[|b| - 1];
      AllObjectsSnoc(b);
      assert b == init + [x];
      AppendAssoc(a, init, [x]);
      IdsAppend(a, init);
      IdsSnoc(init, x);
      IdsSnoc(a + init, x);
      AppendAssoc(Ids(a), Ids(init), [Id(x)]);
    }
  }

  lemma ElemsAppend(a: seq<string>, b: seq<string>)
    ensures Elems(a + b) == Elems(a) + Elems(b)
  {
  }

  /** Two lists of distinct strings with no string in common make one. */
  lemma DistinctAppend(a: seq<string>, b: seq<string>)
    requires Distinct(a) && Distinct(b) && Elems(a) !! Elems(b)
    ensures Distinct(a + b)
  {
    var t := a + b;
    forall i, j | 0 <= i < j < |t| ensures t[i] != t[j] {
      if i < |a| && j >= |a| {
        assert t[i] == a[i] && t[i] in Elems(a);
        assert t[j] == b[j - |a|] && t[j] in Elems(b);
      }
    }
  }

  /** A list of distinct strings is as long as its set. */
  lemma {:induction false} DistinctCount(ids: seq<string>)
    requires Distinct(ids)
    ensures |Elems(ids)| == |ids|
    decreases |ids|
  {
    if ids != [] {
      var init := ids[..|ids| - 1];
      var y := ids[|ids| - 1];
      assert ids == init + [y];
      assert Distinct(init);
      assert y !in Elems(init) by {
        forall i | 0 <= i < |init| ensures init[i] != y {
          assert init[i] == ids[i];
        }
      }
      DistinctCount(init);
      ElemsAppend(init, [y]);
      assert Elems([y]) == {y};
    }
  }

  /** Appending a record whose identity is new keeps the identities distinct
      and adds exactly that identity. */
  lemma AppendFresh(s: seq<Value>, x: Value)
    requires DistinctIds(s) && x.Obj? && Id(x) !in IdSet(s)
    ensures DistinctIds(s + [x])
    ensures IdSet(s + [x]) == IdSet(s) + {Id(x)}
  {
    IdsSnoc(s, x);
    ElemsAppend(Ids(s), [Id(x)]);
    assert Elems([Id(x)]) == {Id(x)};
    DistinctAppend(Ids(s), [Id(x)]);
  }

  /** Records with fresh, distinct identities extend a list of records with
      distinct identities. */
  lemma AppendDistinct(data: seq<Value>, added: seq<Value>)
    requires DistinctIds(data) && DistinctIds(added) && IdSet(data) !! IdSet(added)
    ensures DistinctIds(data + added) && IdSet(data + added) == IdSet(data) + IdSet(added)
  {
    IdsAppend(data, added);
    ElemsAppend(Ids(data), Ids(added));
    DistinctAppend(Ids(data), Ids(added));
  }

  /** A list of records with distinct identities is as long as its set of
      identities: `len(all_data) == len(processed_items)`. */
  lemma DistinctIdsCount(s: seq<Value>)
    requires DistinctIds(s)
    ensures |IdSet(s)| == |s|
  {
    DistinctCount(Ids(s));
  }

  // ----- _add_unique_items -----

  /** The records `_add_unique_items` appends and the identity set it leaves. */
  datatype Added = Added(records: seq<Value>, seen: set<string>)

  /** `_add_unique_items(all_data, items, processed_items)` with
      `processed_items == seen`: the items, in order, whose identity is in
      neither `seen` nor an earlier item.  `None` when an item is not a
      dictionary, on which the identifier raises. */
  function Dedupe(seen: set<string>, items: seq<Value>): (r: Option<Added>)
    ensures r.Some? <==> AllObjects(items)
    decreases |items|
  {
    if items == [] then Some(Added([], seen))
    else
      var init := items[..|items| - 1];
      var last := items[|items| - 1];
      AllObjectsSnoc(items);
      match Dedupe(seen, init)
      case None => None
      case Some(a) =>
        match ItemIdentifier(last)
        case None => None
        case Some(id) =>
          if id in a.seen then Some(a) else Some(Added(a.records + [last], a.seen + {id}))
  }

  /** What `_add_unique_items` appends has no two identities alike and none
      that was in the set before, and the set it leaves is the old one plus
      those identities. */
  lemma {:induction false} DedupeDistinct(seen: set<string>, items: seq<Value>)
    requires AllObjects(items)
    ensures var a := Dedupe(seen, items).value;
      DistinctIds(a.records) && a.seen == seen + IdSet(a.records) && seen !! IdSet(a.records)
    decreases |items|
  {
    if items != [] {
      var init := items[..|items| - 1];
      var last := items[|items| - 1];
      AllObjectsSnoc(items);
      DedupeDistinct(seen, init);
      var a := Dedupe(seen, init).value;
      if Id(last) !in a.seen {
        AppendFresh(a.records, last);
      }
    }
  }

  /** What `_add_unique_items` appends are items of the batch. */
  lemma {:induction false} DedupeFresh(seen: set<string>, items: seq<Value>)
    requires AllObjects(items)
    ensures forall x :: x in Dedupe(seen, items).value.records ==> x in items
    decreases |items|
  {
    if items != [] {
      var init := items[..|items| - 1];
      var last := items[|items| - 1];
      AllObjectsSnoc(items);
      DedupeFresh(seen, init);
      assert forall x :: x in init ==> x in items;
    }
  }

  /** The set afterwards is the set before plus the identity of every item
      of the batch, new or not. */
  lemma {:induction false} DedupeSeen(seen: set<string>, items: seq<Value>)
    requires AllObjects(items)
    ensures Dedupe(seen, items).value.seen == seen + IdSet(items)
    decreases |items|
  {
    if items != [] {
      var init := items[..|items| - 1];
      AllObjectsSnoc(items);
      DedupeSeen(seen, init);
      DedupeSnocSeen(seen, items);
      ElemsAppend(Ids(init), [Id(items[|items| - 1])]);
    }
  }

  /** The set after one more item is the set before plus its identity. */
  lemma DedupeSnocSeen(seen: set<string>, items: seq<Value>)
    requires items != [] && AllObjects(items)
    requires AllObjects(items[..|items| - 1])
    ensures Dedupe(seen, items).value.seen
      == Dedupe(seen, items[..|items| - 1]).value.seen + {Id(items[|items| - 1])}
  {
  }

  /** The `all_data` list and the `processed_items` set one fetch threads
      through its calls of `_add_unique_items`. */
  class UniqueRecords {
    var records: seq<Value>
    var seen: set<string>

    /** Every record has a distinct identity and `seen` holds exactly those. */
    ghost predicate Valid()
      reads this
    {
      DistinctIds(records) && seen == IdSet(records)
    }

    constructor ()
      ensures Valid() && records == [] && seen == {}
    {
      records := [];
      seen := {};
    }

    /** `_add_unique_items(all_data, items, processed_items)`.  `ok` is false
        when an item is not a dictionary; the exception then ends the fetch
        and the records gathered so far are dropped. */
    method AddUniqueItems(items: seq<Value>) returns (addedCount: nat, ok: bool)
      requires Valid()
      modifies this
      ensures Valid()
      ensures ok <==> Dedupe(old(seen), items).Some?
      ensures ok ==> records == old(records) + Dedupe(old(seen), items).value.records
      ensures ok ==> seen == Dedupe(old(seen), items).value.seen
      ensures ok ==> addedCount == |Dedupe(old(seen), items).value.records|
      ensures |records| == |seen|
    {
      ghost var records0, seen0 := records, seen;
      addedCount := 0;
      var i := 0;
      assert items[..0] == [];
      while i < |items|
        invariant 0 <= i <= |items|
        invariant Valid()
        invariant Dedupe(seen0, items[..i]).Some?
        invariant records == records0 + Dedupe(seen0, items[..i]).value.records
        invariant seen == Dedupe(seen0, items[..i]).value.seen
        invariant addedCount == |Dedupe(seen0, items[..i]).value.records|
      {
        DedupeStep(seen0, items, i);
        var item := items[i];
        var itemId := GetItemIdentifier(item);
        if itemId.None? {
          ok := false;
          DistinctIdsCount(records);
          return;
        }
        if itemId.value !in seen {
          AppendFresh(records, item);
          seen := seen + {itemId.value};
          records := records + [item];
          addedCount := addedCount + 1;
        }
        i := i + 1;
      }
      assert items[..i] == items;
      ok := true;
      DistinctIdsCount(records);
    }

    /** The first request of `fetch_data`, sent before the loop, on empty
        records: the step it takes. */
    method CollectFirst(response: Response, key: string) returns (step: Step)
      requires Valid() && records == [] && seen == {}
      modifies this
      ensures Valid()
      ensures step == FirstStep(response, key)
      ensures step.Next? ==> records == step.data && seen == step.seen && step.empty == 0
    {
      var result;
      match response {
        case HttpError(status) => return Stop(ErrorAttempt(status));
        case Broken => return Stop(Failed);
        case Ok(body) => result := body;
      }
      if !result.Obj? || !HasKey(result.fields, key) {
        return Stop(Failed);
      }
      var payload := GetOr(result.fields, key, Null);
      if Truthy(payload) {
        var items := Items(payload);
        if items.None? {
          return Stop(Failed);
        }
        var _, ok := AddUniqueItems(items.value);
        if !ok {
          return Stop(Failed);
        }
        assert records == Dedupe({}, items.value).value.records;
      }
      return Next(0, records, seen);
    }

    /** One turn of the paging loop of `fetch_data` on the answer for one
        page: the empty-page count it leaves, or how the loop ends. */
    method CollectPage(response: Response, key: string, empty: nat) returns (step: Step)
      requires Valid()
      modifies this
      ensures Valid()
      ensures step == PageStep(response, key, empty, old(records), old(seen))
      ensures step.Next? ==> records == step.data && seen == step.seen && step.empty < MaxEmptyPages
    {
      var result;
      match response {
        case HttpError(status) => return Stop(ErrorAttempt(status));
        case Broken => return Stop(Failed);
        case Ok(body) => result := body;
      }
      if !result.Obj? {
        return Stop(Failed);
      }
      var payload := GetOr(result.fields, key, Null);
      if !Truthy(payload) {
        if empty + 1 >= MaxEmptyPages {
          return Stop(Collected(records));
        }
        return Next(empty + 1, records, seen);
      }
      var items := Items(payload);
      if items.None? {
        return Stop(Failed);
      }
      // A truthy list or dictionary has items, so the source's
      // `len(items) == 0` branch is never taken.
      ghost var data, seen0 := records, seen;
      var added, ok := AddUniqueItems(items.value);
      if !ok {
        return Stop(Failed);
      }
      PageStepWithItems(response, key, empty, data, seen0, items.value);
      ghost var novel := Dedupe(seen0, items.value).value.records;
      assert records == data + novel && added == |novel|;
      if added == 0 {
        assert records == data;
        return Stop(Collected(records));
      }
      if |items.value| < PerPage {
        return Stop(Collected(records));
      }
      return Next(0, records, seen);
    }
  }

  /** One more item for `_add_unique_items`. */
  lemma DedupeStep(seen: set<string>, items: seq<Value>, i: nat)
    requires i < |items| && Dedupe(seen, items[..i]).Some?
    ensures var a := Dedupe(seen, items[..i]).value;
      Dedupe(seen, items[..i + 1]) ==
        match ItemIdentifier(items[i])
        case None => None
        case Some(id) => if id in a.seen then Some(a) else Some(Added(a.records + [items[i]], a.seen + {id}))
    ensures !items[i].Obj? ==> Dedupe(seen, items).None?
  {
    assert items[..i + 1][..i] == items[..i];
  }

  // ----- one pass over the pages -----

  /** The item list of a page: a list is taken as is, a dictionary through
      `.values()`; anything else raises. */
  function Items(payload: Value): (r: Option<seq<Value>>)
    ensures r.Some? <==> payload.Arr? || payload.Obj?
    ensures r.Some? ==> |r.value| == Len(payload).value
  {
    match payload
    case Arr(items) => Some(items)
    case Obj(fields) => Some(Values(fields))
    case _ => None
  }

  /** What one page does to the loop: end it with an outcome, or go on to
      the next page with a new empty-page count and the records collected. */
  datatype Step = Stop(outcome: Attempt) | Next(empty: nat, data: seq<Value>, seen: set<string>)

  /** The first request, sent outside the loop.  A body that is not a
      dictionary raises (on `.get` or on `.keys()`), and one without `key`
      gives an empty result; a falsy payload adds nothing but neither stops
      the paging nor counts as an empty page. */
  function FirstStep(response: Response, key: string): Step {
    match response
    case HttpError(status) => Stop(ErrorAttempt(status))
    case Broken => Stop(Failed)
    case Ok(result) =>
      if !result.Obj? || !HasKey(result.fields, key) then Stop(Failed)
      else
        var payload := GetOr(result.fields, key, Null);
        if !Truthy(payload) then Next(0, [], {})
        else match Items(payload)
          case None => Stop(Failed)
          case Some(items) =>
            match Dedupe({}, items)
            case None => Stop(Failed)
            case Some(a) => Next(0, a.records, a.seen)
  }

  /** One turn of the `while page < max_pages` loop, with `empty`
      consecutive empty pages behind it and `data`/`seen` collected so far.
      An empty page is a falsy payload (or a missing key); two in a row stop
      the loop, and a page with items resets the count.  A page with items
      stops the loop when none of them is new, or, after adding them, when
      there are fewer than `per_page`. */
  function PageStep(response: Response, key: string, empty: nat, data: seq<Value>, seen: set<string>): Step {
    match response
    case HttpError(status) => Stop(ErrorAttempt(status))
    case Broken => Stop(Failed)
    case Ok(result) =>
      if !result.Obj? then Stop(Failed)
      else
        var payload := GetOr(result.fields, key, Null);
        if !Truthy(payload) then
          if empty + 1 >= MaxEmptyPages then Stop(Collected(data)) else Next(empty + 1, data, seen)
        else match Items(payload)
          case None => Stop(Failed)
          case Some(items) =>
            match Dedupe(seen, items)
            case None => Stop(Failed)
            case Some(a) =>
              if |a.records| == 0 then Stop(Collected(data))
              else if |items| < PerPage then Stop(Collected(data + a.records))
              else Next(0, data + a.records, a.seen)
  }

  /** The turn of a page that has items, once they are de-duplicated. */
  lemma PageStepWithItems(response: Response, key: string, empty: nat, data: seq<Value>, seen: set<string>, items: seq<Value>)
    requires response.Ok? && response.body.Obj?
    requires Truthy(GetOr(response.body.fields, key, Null)) && Items(GetOr(response.body.fields, key, Null)) == Some(items)
    requires Dedupe(seen, items).Some?
    ensures var a := Dedupe(seen, items).value;
      PageStep(response, key, empty, data, seen) ==
        if |a.records| == 0 then Stop(Collected(data))
        else if |items| < PerPage then Stop(Collected(data + a.records))
        else Next(0, data + a.records, a.seen)
  {
  }

  /** The loop from `page` on. */
  function PageLoop(pages: Pages, key: string, page: nat, empty: nat, data: seq<Value>, seen: set<string>): Attempt
    decreases MaxPages - page, 1
  {
    if page >= MaxPages then Collected(data)
    else AfterStep(pages, key, page, PageStep(pages(page), key, empty, data, seen))
  }

  /** How the fetch goes on after the request for `page` took `step`: it
      ends, or the loop goes on from the next page. */
  function AfterStep(pages: Pages, key: string, page: nat, step: Step): Attempt
    requires page < MaxPages
    decreases MaxPages - page, 0
  {
    match step
    case Stop(outcome) => outcome
    case Next(e, d, s) => PageLoop(pages, key, page + 1, e, d, s)
  }

  /** One pass of the `try` block of `fetch_data`, over the pages one token
      is answered with. */
  function FetchAttempt(pages: Pages, key: string): Attempt {
    AfterStep(pages, key, 0, FirstStep(pages(0), key))
  }

  /** A page that is an empty answer for `key`. */
  predicate EmptyPage(r: Response, key: string) {
    r.Ok? && r.body.Obj? && !Truthy(GetOr(r.body.fields, key, Null))
  }

  /** Two empty pages in a row end the paging with what was collected,
      whatever came before. */
  lemma TwoEmptyPagesStop(pages: Pages, key: string, page: nat, empty: nat, data: seq<Value>, seen: set<string>)
    requires page + 1 < MaxPages && empty < MaxEmptyPages
    requires EmptyPage(pages(page), key) && EmptyPage(pages(page + 1), key)
    ensures PageLoop(pages, key, page, empty, data, seen) == Collected(data)
  {
    if empty + 1 < MaxEmptyPages {
      assert PageLoop(pages, key, page, empty, data, seen) == PageLoop(pages, key, page + 1, empty + 1, data, seen);
    }
  }

  /** The loop only ever looks at pages below 100. */
  lemma {:induction false} PageLoopBelowCap(p1: Pages, p2: Pages, key: string, page: nat, empty: nat, data: seq<Value>, seen: set<string>)
    requires forall q: nat :: page <= q < MaxPages ==> p1(q) == p2(q)
    ensures PageLoop(p1, key, page, empty, data, seen) == PageLoop(p2, key, page, empty, data, seen)
    decreases MaxPages - page
  {
    if page < MaxPages {
      match PageStep(p1(page), key, empty, data, seen)
      case Stop(_) =>
      case Next(e, d, s) => PageLoopBelowCap(p1, p2, key, page + 1, e, d, s);
    }
  }

  /** Pages 0 to 99 decide the outcome: no page index of 100 or more is
      ever requested. */
  lemma FetchAttemptBelowCap(p1: Pages, p2: Pages, key: string)
    requires forall q: nat :: q < MaxPages ==> p1(q) == p2(q)
    ensures FetchAttempt(p1, key) == FetchAttempt(p2, key)
  {
    assert p1(0) == p2(0);
    match FirstStep(p1(0), key)
    case Stop(_) =>
    case Next(e, d, s) => PageLoopBelowCap(p1, p2, key, 1, e, d, s);
  }

  /** What a turn of the loop keeps of the records `data` collected before
      it: it only appends, never repeats an identity, and leaves fewer than
      two empty pages behind it. */
  predicate StepKeeps(step: Step, data: seq<Value>) {
    match step
    case Stop(outcome) => outcome.Collected? ==> DistinctIds(outcome.records) && data <= outcome.records
    case Next(e, d, s) => DistinctIds(d) && s == IdSet(d) && data <= d && e < MaxEmptyPages
  }

  /** A step keeps what was collected, adds only records with new
      identities, and keeps fewer than two empty pages behind it. */
  lemma PageStepDistinct(response: Response, key: string, empty: nat, data: seq<Value>, seen: set<string>)
    requires DistinctIds(data) && seen == IdSet(data)
    ensures StepKeeps(PageStep(response, key, empty, data, seen), data)
  {
    if response.Ok? && response.body.Obj? {
      var payload := GetOr(response.body.fields, key, Null);
      if Truthy(payload) && Items(payload).Some? && Dedupe(seen, Items(payload).value).Some? {
        var items := Items(payload).value;
        DedupeDistinct(seen, items);
        var a := Dedupe(seen, items).value;
        AppendDistinct(data, a.records);
      }
    }
  }

  /** The loop only appends, and what it collects never repeats an
      identity. */
  lemma {:induction false} PageLoopDistinct(pages: Pages, key: string, page: nat, empty: nat, data: seq<Value>, seen: set<string>)
    requires DistinctIds(data) && seen == IdSet(data)
    ensures PageLoop(pages, key, page, empty, data, seen).Collected? ==>
              var r := PageLoop(pages, key, page, empty, data, seen).records;
              DistinctIds(r) && data <= r
    decreases MaxPages - page, 1
  {
    if page < MaxPages {
      PageStepDistinct(pages(page), key, empty, data, seen);
      AfterStepDistinct(pages, key, page, PageStep(pages(page), key, empty, data, seen), data);
    }
  }

  /** `PageLoopDistinct` for the rest of the fetch after a step that keeps
      the records. */
  lemma {:induction false} AfterStepDistinct(pages: Pages, key: string, page: nat, step: Step, data: seq<Value>)
    requires page < MaxPages && StepKeeps(step, data)
    ensures AfterStep(pages, key, page, step).Collected? ==>
              var r := AfterStep(pages, key, page, step).records;
              DistinctIds(r) && data <= r
    decreases MaxPages - page, 0
  {
    if step.Next? {
      PageLoopDistinct(pages, key, page + 1, step.empty, step.data, step.seen);
    }
  }

  /** Whatever one pass collects has no two records with the same identity. */
  lemma FetchAttemptDistinct(pages: Pages, key: string)
    ensures FetchAttempt(pages, key).Collected? ==> DistinctIds(FetchAttempt(pages, key).records)
  {
    match FirstStep(pages(0), key)
    case Stop(_) =>
    case Next(e, d, s) =>
      if pages(0).Ok? {
        var payload := GetOr(pages(0).body.fields, key, Null);
        if Truthy(payload) {
          DedupeDistinct({}, Items(payload).value);
        }
      }
      PageLoopDistinct(pages, key, 1, e, d, s);
  }

  // ----- fetch_data with authentication -----

  /** The pass for `key` with each token, as a value `Fetch` can run. */
  function Pass(server: Server, key: string): nat -> Attempt {
    (token: nat) => FetchAttempt(server.Round(token), key)
  }

  /** `fetch_data(endpoint, params, key)` on a session.  After a 401 the
      client calls `fetch_data(endpoint, params)`, so the retry fetches the
      default key `positions` whatever `key` was. */
  function Fetched(server: Server, key: string, depth: nat, s: Session): (seq<Value>, Session) {
    Fetch(server, Pass(server, key), Pass(server, DefaultKey), depth, s)
  }

  /** Whatever `fetch_data` returns holds no two records with the same
      identity. */
  lemma FetchDistinct(server: Server, key: string, depth: nat, s: Session)
    ensures DistinctIds(Fetched(server, key, depth, s).0)
  {
    forall t ensures Pass(server, key)(t).Collected? ==> DistinctIds(Pass(server, key)(t).records) {
      FetchAttemptDistinct(server.Round(t), key);
    }
    forall t ensures Pass(server, DefaultKey)(t).Collected? ==> DistinctIds(Pass(server, DefaultKey)(t).records) {
      FetchAttemptDistinct(server.Round(t), DefaultKey);
    }
    FetchKeeps(server, Pass(server, key), Pass(server, DefaultKey), depth, s, DistinctIds);
  }

  /** After a 401 and a new token, the retry fetches `positions`, not the
      key first asked for. */
  lemma RetryDropsKey(server: Server, key: string, depth: nat, s: Session)
    requires s.token.Some? && depth > 0
    requires FetchAttempt(server.Round(s.token.value), key) == Unauthorized
    requires server.authenticates(s.authRequests)
    ensures Fetched(server, key, depth, s) == Fetched(server, DefaultKey, depth - 1, Authenticated(server, s))
  {
  }

  /** The `MaraviAPI` client: a server and the credentials it holds. */
  class Client {
    const server: Server
    var token: Option<nat>
    var authRequests: nat

    constructor (server: Server)
      ensures this.server == server && token == None && authRequests == 0
    {
      this.server := server;
      token := None;
      authRequests := 0;
    }

    /** `authenticate()`; `ok` is false where the source raises. */
    method Authenticate() returns (ok: bool)
      modifies this
      ensures ok == server.authenticates(old(authRequests))
      ensures Session(token, authRequests) == Authenticated(server, old(Session(token, authRequests)))
    {
      ok := server.authenticates(authRequests);
      if ok {
        token := Some(authRequests);
      }
      authRequests := authRequests + 1;
    }

    /** The `try` block of `fetch_data` with the credentials held. */
    method FetchPages(key: string) returns (a: Attempt)
      requires token.Some?
      ensures a == FetchAttempt(server.Round(token.value), key)
    {
      var pages := server.Round(token.value);
      var collected := new UniqueRecords();
      var first := collected.CollectFirst(pages(0), key);
      if first.Stop? {
        return first.outcome;
      }
      var page: nat := 1;
      var emptyPages: nat := first.empty;
      while page < MaxPages
        invariant 1 <= page <= MaxPages && emptyPages < MaxEmptyPages
        invariant collected.Valid()
        invariant FetchAttempt(pages, key) == PageLoop(pages, key, page, emptyPages, collected.records, collected.seen)
        decreases MaxPages - page
      {
        var step := collected.CollectPage(pages(page), key, emptyPages);
        match step {
          case Stop(outcome) => return outcome;
          case Next(empty, _, _) => emptyPages := empty;
        }
        page := page + 1;
      }
      return Collected(collected.records);
    }

    /** `fetch_data(endpoint, params, key)`, with at most `depth` nested
        retries after a 401. */
    method FetchData(key: string, depth: nat) returns (records: seq<Value>)
      modifies this
      ensures (records, Session(token, authRequests)) == Fetched(server, key, depth, old(Session(token, authRequests)))
      decreases depth
    {
      if token.None? {
        var ok := Authenticate();
        if !ok {
          return [];
        }
      }
      var attempt := FetchPages(key);
      match attempt {
        case Collected(r) => records := r;
        case Failed => records := [];
        case Unauthorized =>
          if depth == 0 {
            return [];
          }
          var ok := Authenticate();
          if !ok {
            return [];
          }
          records := FetchData(DefaultKey, depth - 1);
      }
    }
  }
}
