/** The `batch` loops of the loaders: `run` once per business day of a
    range, in order.  `src/trades_tpe.py` catches the exception of a day and
    goes on with the next one; `src/movimentos.py` and `src/plfund.py` let
    the first exception end the loop.  A day's `run` is a step from the
    tables before it to an `Outcome`: the tables after it and the exception
    it raised, if any. */
module Batches {
  import opened Wrappers
  import opened Frames

  /** Every table that existed still exists and still starts with the rows
      it had: the loaders only append. */
  predicate Grows<R(==)>(before: map<string, seq<R>>, after: map<string, seq<R>>) {
    forall t :: t in before ==> t in after && before[t] <= after[t]
  }

  /** The database after a loop that isolates its days, and the days whose
      `run` raised, in the order they ran. */
  datatype BatchOutcome<R> = BatchOutcome(tables: map<string, seq<R>>, failed: seq<int>)

  /** `for data in datas: try: run(data) except Exception: continue`. */
  function RunIsolated<R>(step: (map<string, seq<R>>, int) -> Outcome<R>, tables: map<string, seq<R>>, days: seq<int>): (r: BatchOutcome<R>)
    ensures |r.failed| <= |days|
    ensures forall i :: 0 <= i < |r.failed| ==> r.failed[i] in days
  {
    if days == [] then BatchOutcome(tables, [])
    else
      var before := RunIsolated(step, tables, days[..|days| - 1]);
      var d := days[|days| - 1];
      var o := step(before.tables, d);
      assert forall x :: x in days[..|days| - 1] ==> x in days;
      BatchOutcome(o.tables, before.failed + if o.raised.Some? then [d] else [])
  }

  /** A day that raises does not stop the loop: the days after it run on
      the tables the days before it left, and their failures are added to
      the earlier ones. */
  lemma {:induction false} IsolatedContinues<R>(step: (map<string, seq<R>>, int) -> Outcome<R>, tables: map<string, seq<R>>, a: seq<int>, b: seq<int>)
    ensures var first := RunIsolated(step, tables, a);
      var rest := RunIsolated(step, first.tables, b);
      RunIsolated(step, tables, a + b) == BatchOutcome(rest.tables, first.failed + rest.failed)
  {
    if b == [] {
      assert a + b == a;
    } else {
      var init := b[..|b| - 1];
      assert (a + b)[..|a + b| - 1] == a + init;
      assert (a + b)[|a + b| - 1] == b[|b| - 1];
      IsolatedContinues(step, tables, a, init);
    }
  }

  /** One more day of the loop: the day runs on the tables the days before
      it left, and is added to the failures if it raises. */
  lemma IsolatedNext<R>(step: (map<string, seq<R>>, int) -> Outcome<R>, tables: map<string, seq<R>>, days: seq<int>, k: nat)
    requires k < |days|
    ensures var before := RunIsolated(step, tables, days[..k]);
      var o := step(before.tables, days[k]);
      RunIsolated(step, tables, days[..k + 1]) == BatchOutcome(o.tables, before.failed + if o.raised.Some? then [days[k]] else [])
  {
    assert days[..k + 1][..k] == days[..k];
  }

  /** When no day's `run` loses a stored row, neither does the loop. */
  lemma {:induction false} IsolatedGrows<R>(step: (map<string, seq<R>>, int) -> Outcome<R>, tables: map<string, seq<R>>, days: seq<int>)
    requires forall t, d :: Grows(t, step(t, d).tables)
    ensures Grows(tables, RunIsolated(step, tables, days).tables)
  {
    if days != [] {
      var init := days[..|days| - 1];
      IsolatedGrows(step, tables, init);
      var mid := RunIsolated(step, tables, init).tables;
      assert Grows(mid, step(mid, days[|days| - 1]).tables);
    }
  }

  /** `for data in datas: run(data)`: the first exception leaves `batch`. */
  function RunStopping<R>(step: (map<string, seq<R>>, int) -> Outcome<R>, tables: map<string, seq<R>>, days: seq<int>): (r: Outcome<R>)
  {
    if days == [] then Outcome(tables, None)
    else
      var before := RunStopping(step, tables, days[..|days| - 1]);
      if before.raised.Some? then before else step(before.tables, days[|days| - 1])
  }

  /** One more day of the loop, while no day has raised yet. */
  lemma StoppingNext<R>(step: (map<string, seq<R>>, int) -> Outcome<R>, tables: map<string, seq<R>>, days: seq<int>, k: nat)
    requires k < |days| && RunStopping(step, tables, days[..k]).raised.None?
    ensures RunStopping(step, tables, days[..k + 1]) == step(RunStopping(step, tables, days[..k]).tables, days[k])
  {
    assert days[..k + 1][..k] == days[..k];
  }

  /** After a day raises, no later day runs. */
  lemma {:induction false} StoppingHalts<R>(step: (map<string, seq<R>>, int) -> Outcome<R>, tables: map<string, seq<R>>, a: seq<int>, b: seq<int>)
    requires RunStopping(step, tables, a).raised.Some?
    ensures RunStopping(step, tables, a + b) == RunStopping(step, tables, a)
  {
    if b == [] {
      assert a + b == a;
    } else {
      var init := b[..|b| - 1];
      assert (a + b)[..|a + b| - 1] == a + init;
      StoppingHalts(step, tables, a, init);
    }
  }

  /** While no day raises, the loop goes on from the tables the earlier days
      left. */
  lemma {:induction false} StoppingContinues<R>(step: (map<string, seq<R>>, int) -> Outcome<R>, tables: map<string, seq<R>>, a: seq<int>, b: seq<int>)
    requires RunStopping(step, tables, a).raised.None?
    ensures RunStopping(step, tables, a + b) == RunStopping(step, RunStopping(step, tables, a).tables, b)
  {
    if b == [] {
      assert a + b == a;
    } else {
      var init := b[..|b| - 1];
      assert (a + b)[..|a + b| - 1] == a + init;
      assert (a + b)[|a + b| - 1] == b[|b| - 1];
      StoppingContinues(step, tables, a, init);
    }
  }

  /** When no day's `run` loses a stored row, neither does the loop that
      stops at the first exception. */
  lemma {:induction false} StoppingGrows<R>(step: (map<string, seq<R>>, int) -> Outcome<R>, tables: map<string, seq<R>>, days: seq<int>)
    requires forall t, d :: Grows(t, step(t, d).tables)
    ensures Grows(tables, RunStopping(step, tables, days).tables)
  {
    if days != [] {
      var init := days[..|days| - 1];
      StoppingGrows(step, tables, init);
      var mid := RunStopping(step, tables, init).tables;
      assert Grows(mid, step(mid, days[|days| - 1]).tables);
    }
  }

  /** When no day raises, isolating the days makes no difference. */
  lemma {:induction false} StoppingAgreesWhenNothingRaises<R>(step: (map<string, seq<R>>, int) -> Outcome<R>, tables: map<string, seq<R>>, days: seq<int>)
    requires RunIsolated(step, tables, days).failed == []
    ensures RunStopping(step, tables, days) == Outcome(RunIsolated(step, tables, days).tables, None)
  {
    if days != [] {
      var init := days[..|days| - 1];
      var before := RunIsolated(step, tables, init);
      assert |before.failed| <= |RunIsolated(step, tables, days).failed|;
      StoppingAgreesWhenNothingRaises(step, tables, init);
    }
  }
}
