/** The migration driver (utils/sqlite_to_psql.py, `load_from_sqlite`): the
    five tables are driven in foreign-key dependency order, and every batch
    the extractor yields for a table is saved inside that table's insert
    context.

    The extractor and the saver internals are not part of this model. The
    extractor is a function from a table to what its generator yields (the
    batches in order, and whether it raises after them). The saver is an
    object that records every call on it in `trace`; whether a `save` call
    succeeds is decided by `accepts` from the batch and everything done
    before it, which stands for the destination database's answer. */
module SqliteToPsql {
  import opened Wrappers
  import opened Models
  import ConsistencyCheck

  /** `tables = (Genre, Person, FilmWork, PersonFilmWork, GenreFilmWork)` */
  const LoadOrder: seq<Table> := [GenreTable, PersonTable, FilmworkTable, PersonFilmworkTable, GenreFilmworkTable]

  /** The position of a table in the load order. */
  function Rank(t: Table): (r: nat)
    ensures r < |LoadOrder| && LoadOrder[r] == t
  {
    match t
    case GenreTable => 0
    case PersonTable => 1
    case FilmworkTable => 2
    case PersonFilmworkTable => 3
    case GenreFilmworkTable => 4
  }

  /** What one `extract(table)` generator does: yield `batches` in order, then
      either finish or raise. */
  datatype Extraction<B> = Extraction(batches: seq<B>, raises: bool)

  /** The calls made on the saver: entering and leaving `prepare_insert_context`,
      and `save(batch_rows, table)`. */
  datatype Event<B> = Enter(table: Table) | Save(table: Table, batch: B) | Exit(table: Table)

  /** How `load_from_sqlite` ends: it returns, or an exception escapes from
      the extractor or from `save` while loading a table. */
  datatype Status = Loaded | ExtractFailed(table: Table) | SaveFailed(table: Table)

  /** The destination's answer to a `save`: true when it succeeds. */
  type Accepts<!B> = (Table, B, seq<Event<B>>) -> bool

  /** The saver as the driver uses it. */
  class PostgresSaver<B> {
    var trace: seq<Event<B>>
    const accepts: Accepts<B>

    constructor (accepts: Accepts<B>)
      ensures trace == [] && this.accepts == accepts
    {
      trace := [];
      this.accepts := accepts;
    }

    /** Entering `with postgres_saver.prepare_insert_context(table)`. */
    method EnterInsertContext(table: Table)
      modifies this`trace
      ensures trace == old(trace) + [Enter(table)]
    {
      trace := trace + [Enter(table)];
    }

    /** Leaving the `with` block: `__exit__` runs on every path, normal or exceptional. */
    method ExitInsertContext(table: Table)
      modifies this`trace
      ensures trace == old(trace) + [Exit(table)]
    {
      trace := trace + [Exit(table)];
    }

    /** `postgres_saver.save(batch_rows, table)`; `ok` is false when it raises. */
    method Save(batch: B, table: Table) returns (ok: bool)
      modifies this`trace
      ensures ok == accepts(table, batch, old(trace))
      ensures trace == old(trace) + [Event.Save(table, batch)]
    {
      ok := accepts(table, batch, trace);
      trace := trace + [Event.Save(table, batch)];
    }
  }

  // ---------------------------------------------------------------------------
  // The run, as a specification
  // ---------------------------------------------------------------------------

  /** The events of a stretch of the run, and how it ended. */
  datatype Step<B> = Step(events: seq<Event<B>>, status: Status)

  function Prepend<B>(p: seq<Event<B>>, s: Step<B>): Step<B> {
    Step(p + s.events, s.status)
  }

  /** One `save` event per batch, in order. */
  function Saves<B>(t: Table, bs: seq<B>): (r: seq<Event<B>>)
    ensures |r| == |bs|
  {
    seq(|bs|, k requires 0 <= k < |bs| => Save(t, bs[k]))
  }

  /** The inner `for` loop: save the batches in order after history `h`,
      stopping at the first `save` that raises. */
  function SaveBatches<B>(t: Table, bs: seq<B>, accepts: Accepts<B>, h: seq<Event<B>>): (r: Step<B>)
    ensures |r.events| <= |bs|
    ensures r.status == Loaded || r.status == SaveFailed(t)
    decreases |bs|
  {
    if bs == [] then Step([], Loaded)
    else if !accepts(t, bs[0], h) then Step([Save(t, bs[0])], SaveFailed(t))
    else Prepend([Save(t, bs[0])], SaveBatches(t, bs[1..], accepts, h + [Save(t, bs[0])]))
  }

  /** `load_and_save(table)`: enter the context, save every batch, leave the context. */
  function LoadTable<B>(t: Table, x: Extraction<B>, accepts: Accepts<B>, h: seq<Event<B>>): (r: Step<B>)
    ensures 2 <= |r.events| <= |x.batches| + 2
    ensures r.events[0] == Enter(t) && r.events[|r.events| - 1] == Exit(t)
    ensures r.status == Loaded || r.status.table == t
  {
    var s := SaveBatches(t, x.batches, accepts, h + [Enter(t)]);
    Step([Enter(t)] + s.events + [Exit(t)],
         if s.status == Loaded && x.raises then ExtractFailed(t) else s.status)
  }

  /** The outer `for` loop over `ts`; an exception ends the run. */
  function LoadTables<B>(ts: seq<Table>, extract: Table -> Extraction<B>, accepts: Accepts<B>,
                         h: seq<Event<B>>): (r: Step<B>)
    ensures r.status != Loaded ==> r.status.table in ts
    decreases |ts|
  {
    if ts == [] then Step([], Loaded)
    else
      var s := LoadTable(ts[0], extract(ts[0]), accepts, h);
      if s.status != Loaded then s
      else Prepend(s.events, LoadTables(ts[1..], extract, accepts, h + s.events))
  }

  /** The events of one table loaded in full. */
  function Block<B>(t: Table, bs: seq<B>): seq<Event<B>> {
    [Enter(t)] + Saves(t, bs) + [Exit(t)]
  }

  /** The events of a complete run over `ts`, independent of the destination. */
  function Expected<B>(ts: seq<Table>, extract: Table -> Extraction<B>): seq<Event<B>>
    decreases |ts|
  {
    if ts == [] then [] else Block(ts[0], extract(ts[0]).batches) + Expected(ts[1..], extract)
  }

  // ---------------------------------------------------------------------------
  // The driver as the source runs it
  // ---------------------------------------------------------------------------

  /** `load_and_save(table)` */
  method LoadAndSave<B>(saver: PostgresSaver<B>, extract: Table -> Extraction<B>, table: Table)
    returns (status: Status)
    modifies saver
    ensures saver.trace == old(saver.trace) + LoadTable(table, extract(table), saver.accepts, old(saver.trace)).events
    ensures status == LoadTable(table, extract(table), saver.accepts, old(saver.trace)).status
  {
    ghost var accepts := saver.accepts;
    ghost var h0 := saver.trace;
    saver.EnterInsertContext(table);
    var x := extract(table);
    ghost var spec := SaveBatches(table, x.batches, accepts, h0 + [Enter(table)]);
    status := Loaded;
    var i := 0;
    ghost var done: seq<Event<B>> := [];
    while i < |x.batches| && status == Loaded
      invariant i <= |x.batches|
      invariant saver.trace == h0 + ([Enter(table)] + done)
      invariant status == Loaded ==> spec == Prepend(done, SaveBatches(table, x.batches[i..], accepts, saver.trace))
      invariant status != Loaded ==> spec == Step(done, status)
    {
      ghost var tr := saver.trace;
      SaveBatchesStep(table, x.batches, i, accepts, tr);
      var ok := saver.Save(x.batches[i], table);
      PrependPrepend(done, [Save(table, x.batches[i])], SaveBatches(table, x.batches[i + 1..], accepts, saver.trace));
      AppendAssoc(h0, [Enter(table)] + done, [Save(table, x.batches[i])]);
      AppendAssoc([Enter(table)], done, [Save(table, x.batches[i])]);
      done := done + [Save(table, x.batches[i])];
      if !ok {
        status := SaveFailed(table);
      }
      i := i + 1;
    }
    if status == Loaded {
      assert x.batches[i..] == [];
      if x.raises {
        status := ExtractFailed(table);
      }
    }
    ghost var tr := saver.trace;
    saver.ExitInsertContext(table);
    AppendAssoc(h0, [Enter(table)] + done, [Exit(table)]);
    assert LoadTable(table, x, accepts, h0).events == [Enter(table)] + done + [Exit(table)];
  }

  /** `load_from_sqlite` */
  method LoadFromSqlite<B>(saver: PostgresSaver<B>, extract: Table -> Extraction<B>) returns (status: Status)
    modifies saver
    ensures saver.trace == old(saver.trace) + LoadTables(LoadOrder, extract, saver.accepts, old(saver.trace)).events
    ensures status == LoadTables(LoadOrder, extract, saver.accepts, old(saver.trace)).status
  {
    ghost var accepts := saver.accepts;
    ghost var h0 := saver.trace;
    ghost var spec := LoadTables(LoadOrder, extract, accepts, h0);
    ghost var done: seq<Event<B>> := [];
    status := Loaded;
    var i := 0;
    while i < |LoadOrder| && status == Loaded
      invariant i <= |LoadOrder|
      invariant saver.trace == h0 + done
      invariant status == Loaded ==> spec == Prepend(done, LoadTables(LoadOrder[i..], extract, accepts, saver.trace))
      invariant status != Loaded ==> spec == Step(done, status)
    {
      ghost var tr := saver.trace;
      LoadTablesStep(LoadOrder, i, extract, accepts, tr);
      status := LoadAndSave(saver, extract, LoadOrder[i]);
      ghost var s := LoadTable(LoadOrder[i], extract(LoadOrder[i]), accepts, tr);
      AppendAssoc(h0, done, s.events);
      PrependPrepend(done, s.events, LoadTables(LoadOrder[i + 1..], extract, accepts, saver.trace));
      done := done + s.events;
      i := i + 1;
    }
    if status == Loaded {
      assert LoadOrder[i..] == [];
    }
  }

  // ---------------------------------------------------------------------------
  // Lemmas about one table
  // ---------------------------------------------------------------------------

  lemma AppendAssoc<T>(a: seq<T>, b: seq<T>, c: seq<T>)
    ensures (a + b) + c == a + (b + c)
  {
  }

  lemma PrependPrepend<B>(p: seq<Event<B>>, q: seq<Event<B>>, s: Step<B>)
    ensures Prepend(p, Prepend(q, s)) == Prepend(p + q, s)
  {
    assert p + (q + s.events) == (p + q) + s.events;
  }

  /** One turn of the outer loop, at table `i`. */
  lemma LoadTablesStep<B>(ts: seq<Table>, i: nat, extract: Table -> Extraction<B>, accepts: Accepts<B>, h: seq<Event<B>>)
    requires i < |ts|
    ensures var s := LoadTable(ts[i], extract(ts[i]), accepts, h);
            LoadTables(ts[i..], extract, accepts, h)
            == if s.status != Loaded then s
               else Prepend(s.events, LoadTables(ts[i + 1..], extract, accepts, h + s.events))
  {
    assert ts[i..][0] == ts[i] && ts[i..][1..] == ts[i + 1..];
  }

  /** One turn of the inner loop, at batch `i`. */
  lemma SaveBatchesStep<B>(t: Table, bs: seq<B>, i: nat, accepts: Accepts<B>, h: seq<Event<B>>)
    requires i < |bs|
    ensures SaveBatches(t, bs[i..], accepts, h)
            == if accepts(t, bs[i], h)
               then Prepend([Save(t, bs[i])], SaveBatches(t, bs[i + 1..], accepts, h + [Save(t, bs[i])]))
               else Step([Save(t, bs[i])], SaveFailed(t))
  {
    assert bs[i..][0] == bs[i] && bs[i..][1..] == bs[i + 1..];
  }

  lemma SavesSplit<B>(t: Table, b: B, bs: seq<B>, n: nat)
    requires n <= |bs|
    ensures [Save(t, b)] + Saves(t, bs[..n]) == Saves(t, ([b] + bs)[..n + 1])
  {
    assert ([b] + bs)[..n + 1] == [b] + bs[..n];
  }

  /** The destination accepted each of the first `n` batches, each `save`
      seeing the history `h` followed by the saves before it. */
  ghost predicate AcceptedUpTo<B>(t: Table, bs: seq<B>, accepts: Accepts<B>, h: seq<Event<B>>, n: nat)
    requires n <= |bs|
  {
    forall j :: 0 <= j < n ==> accepts(t, bs[j], h + Saves(t, bs[..j]))
  }

  /** The history seen by batch `j + 1` is the history seen by batch `j` of
      the remaining batches once the first one is saved. */
  lemma HistoryShift<B>(t: Table, bs: seq<B>, h: seq<Event<B>>, j: nat)
    requires j < |bs|
    ensures h + Saves(t, bs[..j + 1]) == (h + [Save(t, bs[0])]) + Saves(t, bs[1..][..j])
  {
    SavesSplit(t, bs[0], bs[1..], j);
    assert [bs[0]] + bs[1..] == bs;
    AppendAssoc(h, [Save(t, bs[0])], Saves(t, bs[1..][..j]));
  }

  /** The inner loop saves a prefix of the batches, in order: all of them,
      each one accepted, when it ends normally; otherwise every batch before
      the last one saved was accepted and the last one saved was refused. */
  lemma {:induction false} SaveBatchesShape<B>(t: Table, bs: seq<B>, accepts: Accepts<B>, h: seq<Event<B>>)
    ensures var s := SaveBatches(t, bs, accepts, h);
            && s.events == Saves(t, bs[..|s.events|])
            && (s.status == Loaded ==> |s.events| == |bs| && AcceptedUpTo(t, bs, accepts, h, |bs|))
            && (s.status != Loaded ==>
                  && s.status == SaveFailed(t) && 0 < |s.events|
                  && AcceptedUpTo(t, bs, accepts, h, |s.events| - 1)
                  && !accepts(t, bs[|s.events| - 1], h + Saves(t, bs[..|s.events| - 1])))
    decreases |bs|
  {
    if bs != [] && accepts(t, bs[0], h) {
      var h' := h + [Save(t, bs[0])];
      var rest := SaveBatches(t, bs[1..], accepts, h');
      var m := |rest.events|;
      SaveBatchesShape(t, bs[1..], accepts, h');
      SavesSplit(t, bs[0], bs[1..], m);
      assert [bs[0]] + bs[1..] == bs;
      var n := if rest.status == Loaded then m else m - 1;
      forall j | 0 <= j < n + 1 ensures accepts(t, bs[j], h + Saves(t, bs[..j])) {
        if j == 0 {
          assert h + Saves(t, bs[..0]) == h;
        } else {
          HistoryShift(t, bs, h, j - 1);
          assert bs[1..][j - 1] == bs[j];
        }
      }
      if rest.status != Loaded {
        HistoryShift(t, bs, h, m - 1);
        assert bs[1..][m - 1] == bs[m];
      }
    } else if bs != [] {
      assert bs[..1] == [bs[0]];
      assert h + Saves(t, bs[..0]) == h;
    }
  }

  /** A save that never raises lets the inner loop save every batch. */
  lemma {:induction false} SaveBatchesAllAccepted<B>(t: Table, bs: seq<B>, accepts: Accepts<B>, h: seq<Event<B>>)
    requires forall u, b, g :: accepts(u, b, g)
    ensures SaveBatches(t, bs, accepts, h) == Step(Saves(t, bs), Loaded)
    decreases |bs|
  {
    if bs != [] {
      SaveBatchesAllAccepted(t, bs[1..], accepts, h + [Save(t, bs[0])]);
      SavesSplit(t, bs[0], bs[1..], |bs| - 1);
      assert [bs[0]] + bs[1..] == bs;
    }
  }

  /** `load_and_save` records the context entry, a prefix of the table's
      batches, and the context exit; it ends normally only when every batch
      was saved and the generator did not raise. */
  lemma LoadTableShape<B>(t: Table, x: Extraction<B>, accepts: Accepts<B>, h: seq<Event<B>>) returns (k: nat)
    ensures var s := LoadTable(t, x, accepts, h);
            && k <= |x.batches|
            && s.events == [Enter(t)] + Saves(t, x.batches[..k]) + [Exit(t)]
            && (s.status == Loaded ==> k == |x.batches| && !x.raises)
            && (s.status.ExtractFailed? ==> s.status.table == t && k == |x.batches| && x.raises)
            && (s.status.SaveFailed? ==>
                  && s.status.table == t && k > 0
                  && AcceptedUpTo(t, x.batches, accepts, h + [Enter(t)], k - 1)
                  && !accepts(t, x.batches[k - 1], h + [Enter(t)] + Saves(t, x.batches[..k - 1])))
            && (!s.status.SaveFailed? ==> AcceptedUpTo(t, x.batches, accepts, h + [Enter(t)], k))
  {
    var s := SaveBatches(t, x.batches, accepts, h + [Enter(t)]);
    SaveBatchesShape(t, x.batches, accepts, h + [Enter(t)]);
    k := |s.events|;
  }

  // ---------------------------------------------------------------------------
  // Lemmas about a run: completeness and abort
  // ---------------------------------------------------------------------------

  /** A run that ends normally made exactly the calls of a complete run: every
      table's context, with all its batches saved in yield order, table after
      table; and no extraction raised. */
  lemma {:induction false} SuccessfulRunIsComplete<B>(ts: seq<Table>, extract: Table -> Extraction<B>,
                                                      accepts: Accepts<B>, h: seq<Event<B>>)
    requires LoadTables(ts, extract, accepts, h).status == Loaded
    ensures LoadTables(ts, extract, accepts, h).events == Expected(ts, extract)
    ensures forall t :: t in ts ==> !extract(t).raises
    decreases |ts|
  {
    if ts != [] {
      var s := LoadTable(ts[0], extract(ts[0]), accepts, h);
      var k0 := LoadTableShape(ts[0], extract(ts[0]), accepts, h);
      assert extract(ts[0]).batches[..|extract(ts[0]).batches|] == extract(ts[0]).batches;
      SuccessfulRunIsComplete(ts[1..], extract, accepts, h + s.events);
      forall t | t in ts ensures !extract(t).raises {
        if t != ts[0] { assert t in ts[1..]; }
      }
    }
  }

  /** A run fails only at some table `ts[n]`: it then made the complete calls
      of the tables before it, entered `ts[n]`'s context, saved a prefix of its
      batches, left the context, and touched no later table. */
  lemma {:induction false} FailedRunStopsAtFailingTable<B>(ts: seq<Table>, extract: Table -> Extraction<B>,
                                                          accepts: Accepts<B>, h: seq<Event<B>>)
    returns (n: nat, k: nat)
    requires LoadTables(ts, extract, accepts, h).status != Loaded
    ensures n < |ts| && k <= |extract(ts[n]).batches|
    ensures LoadTables(ts, extract, accepts, h).status.table == ts[n]
    ensures LoadTables(ts, extract, accepts, h).events
            == Expected(ts[..n], extract) + ([Enter(ts[n])] + Saves(ts[n], extract(ts[n]).batches[..k]) + [Exit(ts[n])])
    decreases |ts|
  {
    var s0 := LoadTable(ts[0], extract(ts[0]), accepts, h);
    var k0 := LoadTableShape(ts[0], extract(ts[0]), accepts, h);
    var bs0 := extract(ts[0]).batches;
    if s0.status != Loaded {
      n, k := 0, k0;
      assert ts[..0] == [];
    } else {
      assert bs0[..|bs0|] == bs0;
      var n', k' := FailedRunStopsAtFailingTable(ts[1..], extract, accepts, h + s0.events);
      n, k := n' + 1, k';
      assert ts[..n][0] == ts[0] && ts[..n][1..] == ts[1..][..n'];
      assert ts[1..][n'] == ts[n];
      assert Expected(ts[..n], extract) == Block(ts[0], bs0) + Expected(ts[1..][..n'], extract);
    }
  }

  /** When no `save` raises and no extraction raises, the run ends normally. */
  lemma {:induction false} CleanSourceLoadsFully<B>(ts: seq<Table>, extract: Table -> Extraction<B>,
                                                    accepts: Accepts<B>, h: seq<Event<B>>)
    requires forall u, b, g :: accepts(u, b, g)
    requires forall t :: t in ts ==> !extract(t).raises
    ensures LoadTables(ts, extract, accepts, h).status == Loaded
    decreases |ts|
  {
    if ts != [] {
      SaveBatchesAllAccepted(ts[0], extract(ts[0]).batches, accepts, h + [Enter(ts[0])]);
      var s := LoadTable(ts[0], extract(ts[0]), accepts, h);
      assert ts[0] in ts;
      CleanSourceLoadsFully(ts[1..], extract, accepts, h + s.events);
    }
  }

  // ---------------------------------------------------------------------------
  // Lemmas about a run: ordering
  // ---------------------------------------------------------------------------

  /** Events never go back to a table earlier in load order. */
  ghost predicate RanksNonDecreasing<B>(ev: seq<Event<B>>) {
    forall i, j :: 0 <= i < j < |ev| ==> Rank(ev[i].table) <= Rank(ev[j].table)
  }

  /** The tables of `ts` come in strictly increasing load order. */
  ghost predicate StrictlyRanked(ts: seq<Table>) {
    forall i, j :: 0 <= i < j < |ts| ==> Rank(ts[i]) < Rank(ts[j])
  }

  lemma ConcatRanks<B>(a: seq<Event<B>>, b: seq<Event<B>>)
    requires RanksNonDecreasing(a) && RanksNonDecreasing(b)
    requires forall x, y :: x in a && y in b ==> Rank(x.table) <= Rank(y.table)
    ensures RanksNonDecreasing(a + b)
  {
    var ab := a + b;
    forall i, j | 0 <= i < j < |ab| ensures Rank(ab[i].table) <= Rank(ab[j].table) {
      if j < |a| {
        assert ab[i] == a[i] && ab[j] == a[j];
      } else if i >= |a| {
        assert ab[i] == b[i - |a|] && ab[j] == b[j - |a|];
      } else {
        assert ab[i] == a[i] && ab[j] == b[j - |a|];
        assert a[i] in a && b[j - |a|] in b;
      }
    }
  }

  /** Every event of a run concerns one of the tables it drives. */
  lemma {:induction false} RunTouchesOnlyItsTables<B>(ts: seq<Table>, extract: Table -> Extraction<B>,
                                                      accepts: Accepts<B>, h: seq<Event<B>>)
    ensures forall e :: e in LoadTables(ts, extract, accepts, h).events ==> e.table in ts
    decreases |ts|
  {
    if ts != [] {
      var s := LoadTable(ts[0], extract(ts[0]), accepts, h);
      var k0 := LoadTableShape(ts[0], extract(ts[0]), accepts, h);
      assert forall e :: e in s.events ==> e.table == ts[0];
      if s.status == Loaded {
        RunTouchesOnlyItsTables(ts[1..], extract, accepts, h + s.events);
        forall e | e in LoadTables(ts, extract, accepts, h).events ensures e.table in ts {
          if e !in s.events {
            assert e.table in ts[1..];
          }
        }
      }
    }
  }

  /** A run over tables in increasing load order never goes back to an earlier
      table: all calls for one table come before any call for the next. */
  lemma {:induction false} RunFollowsOrder<B>(ts: seq<Table>, extract: Table -> Extraction<B>,
                                              accepts: Accepts<B>, h: seq<Event<B>>)
    requires StrictlyRanked(ts)
    ensures RanksNonDecreasing(LoadTables(ts, extract, accepts, h).events)
    decreases |ts|
  {
    if ts != [] {
      var s := LoadTable(ts[0], extract(ts[0]), accepts, h);
      var k0 := LoadTableShape(ts[0], extract(ts[0]), accepts, h);
      assert forall e :: e in s.events ==> e.table == ts[0];
      assert RanksNonDecreasing(s.events);
      if s.status == Loaded {
        var rest := LoadTables(ts[1..], extract, accepts, h + s.events);
        assert StrictlyRanked(ts[1..]) by {
          forall i, j | 0 <= i < j < |ts[1..]| ensures Rank(ts[1..][i]) < Rank(ts[1..][j]) {
            assert ts[1..][i] == ts[i + 1] && ts[1..][j] == ts[j + 1];
          }
        }
        RunFollowsOrder(ts[1..], extract, accepts, h + s.events);
        RunTouchesOnlyItsTables(ts[1..], extract, accepts, h + s.events);
        forall x, y | x in s.events && y in rest.events ensures Rank(x.table) <= Rank(y.table) {
          var j :| 0 <= j < |ts[1..]| && ts[1..][j] == y.table;
          assert ts[j + 1] == y.table;
        }
        ConcatRanks(s.events, rest.events);
      }
    }
  }

  /** The insert context state of the saver after a sequence of calls, starting
      from `open`: `None` when a call happens outside the context it needs
      (a save outside its table's context, a nested or mismatched context). */
  function Track<B>(ev: seq<Event<B>>, open: Option<Table>): Option<Option<Table>>
    decreases |ev|
  {
    if ev == [] then Some(open)
    else match ev[0]
      case Enter(t) => if open.None? then Track(ev[1..], Some(t)) else None
      case Save(t, _) => if open == Some(t) then Track(ev[1..], open) else None
      case Exit(t) => if open == Some(t) then Track(ev[1..], None) else None
  }

  /** Every save happens inside its own table's context, contexts never nest,
      and every context entered is left. */
  ghost predicate ContextsBalanced<B>(ev: seq<Event<B>>) {
    Track(ev, None) == Some(None)
  }

  lemma {:induction false} TrackAppend<B>(a: seq<Event<B>>, b: seq<Event<B>>, open: Option<Table>)
    ensures Track(a + b, open) == (if Track(a, open).None? then None else Track(b, Track(a, open).value))
    decreases |a|
  {
    if a != [] {
      assert (a + b)[0] == a[0] && (a + b)[1..] == a[1..] + b;
      match a[0]
      case Enter(t) => TrackAppend(a[1..], b, Some(t));
      case Save(t, _) => TrackAppend(a[1..], b, open);
      case Exit(t) => TrackAppend(a[1..], b, None);
    } else {
      assert a + b == b;
    }
  }

  lemma {:induction false} TrackSaves<B>(t: Table, bs: seq<B>)
    ensures Track(Saves(t, bs), Some(t)) == Some(Some(t))
    decreases |bs|
  {
    if bs != [] {
      assert Saves(t, bs)[1..] == Saves(t, bs[1..]);
      TrackSaves(t, bs[1..]);
    }
  }

  lemma TrackTableBlock<B>(t: Table, bs: seq<B>)
    ensures ContextsBalanced([Enter(t)] + Saves(t, bs) + [Exit(t)])
  {
    TrackSaves(t, bs);
    TrackAppend([Enter(t)], Saves(t, bs), None);
    TrackAppend([Enter(t)] + Saves(t, bs), [Exit(t)], None);
  }

  /** Whatever the outcome, every save of a run happens inside that table's
      insert context, and every context entered is left (also on an exception). */
  lemma {:induction false} RunContextsBalanced<B>(ts: seq<Table>, extract: Table -> Extraction<B>,
                                                  accepts: Accepts<B>, h: seq<Event<B>>)
    ensures ContextsBalanced(LoadTables(ts, extract, accepts, h).events)
    decreases |ts|
  {
    if ts != [] {
      var s := LoadTable(ts[0], extract(ts[0]), accepts, h);
      var k := LoadTableShape(ts[0], extract(ts[0]), accepts, h);
      TrackTableBlock(ts[0], extract(ts[0]).batches[..k]);
      if s.status == Loaded {
        var rest := LoadTables(ts[1..], extract, accepts, h + s.events);
        RunContextsBalanced(ts[1..], extract, accepts, h + s.events);
        TrackAppend(s.events, rest.events, None);
      }
    }
  }

  /** In a balanced sequence of calls, the context open at each save is that
      save's own table. */
  lemma SaveInsideItsContext<B>(ev: seq<Event<B>>, i: nat)
    requires ContextsBalanced(ev)
    requires i < |ev| && ev[i].Save?
    ensures Track(ev[..i], None) == Some(Some(ev[i].table))
  {
    assert ev == ev[..i] + ev[i..];
    TrackAppend(ev[..i], ev[i..], None);
    assert ev[i..][0] == ev[i];
  }

  // ---------------------------------------------------------------------------
  // Lemmas about a run: each batch saved once
  // ---------------------------------------------------------------------------

  /** The batches saved for table `t`, in the order of the calls. */
  function SavedBatches<B>(t: Table, ev: seq<Event<B>>): seq<B>
    decreases |ev|
  {
    if ev == [] then []
    else (if ev[0].Save? && ev[0].table == t then [ev[0].batch] else []) + SavedBatches(t, ev[1..])
  }

  lemma {:induction false} SavedBatchesAppend<B>(t: Table, a: seq<Event<B>>, b: seq<Event<B>>)
    ensures SavedBatches(t, a + b) == SavedBatches(t, a) + SavedBatches(t, b)
    decreases |a|
  {
    if a == [] {
      assert a + b == b;
    } else {
      assert (a + b)[0] == a[0] && (a + b)[1..] == a[1..] + b;
      SavedBatchesAppend(t, a[1..], b);
    }
  }

  lemma {:induction false} SavedBatchesOfSaves<B>(t: Table, u: Table, bs: seq<B>)
    ensures SavedBatches(t, Saves(u, bs)) == if t == u then bs else []
    decreases |bs|
  {
    if bs != [] {
      assert Saves(u, bs)[1..] == Saves(u, bs[1..]);
      SavedBatchesOfSaves(t, u, bs[1..]);
      if t == u {
        assert [bs[0]] + bs[1..] == bs;
      }
    }
  }

  lemma SavedBatchesOfBlock<B>(t: Table, u: Table, bs: seq<B>)
    ensures SavedBatches(t, Block(u, bs)) == if t == u then bs else []
  {
    SavedBatchesAppend(t, [Enter(u)] + Saves(u, bs), [Exit(u)]);
    SavedBatchesAppend(t, [Enter(u)], Saves(u, bs));
    SavedBatchesOfSaves(t, u, bs);
  }

  /** In a complete run over distinct tables, the batches saved for a table
      are exactly those its extraction yielded, and none for a table not driven. */
  lemma {:induction false} ExpectedSavesEachBatchOnce<B>(ts: seq<Table>, extract: Table -> Extraction<B>, t: Table)
    requires forall i, j :: 0 <= i < j < |ts| ==> ts[i] != ts[j]
    ensures SavedBatches(t, Expected(ts, extract)) == if t in ts then extract(t).batches else []
    decreases |ts|
  {
    if ts != [] {
      SavedBatchesAppend(t, Block(ts[0], extract(ts[0]).batches), Expected(ts[1..], extract));
      SavedBatchesOfBlock(t, ts[0], extract(ts[0]).batches);
      ExpectedSavesEachBatchOnce(ts[1..], extract, t);
      if t == ts[0] {
        assert t !in ts[1..] by {
          forall j | 0 <= j < |ts[1..]| ensures ts[1..][j] != t {
            assert ts[1..][j] == ts[j + 1];
          }
        }
      } else if t in ts {
        assert t in ts[1..];
      }
    }
  }

  // ---------------------------------------------------------------------------
  // The properties of load_from_sqlite
  // ---------------------------------------------------------------------------

  lemma LoadOrderStrictlyRanked()
    ensures StrictlyRanked(LoadOrder)
    ensures forall i, j :: 0 <= i < j < |LoadOrder| ==> LoadOrder[i] != LoadOrder[j]
    ensures forall t: Table :: t in LoadOrder
  {
    forall t: Table ensures t in LoadOrder {
      assert LoadOrder[Rank(t)] == t;
    }
  }

  /** Tables are loaded in the order Genre, Person, FilmWork, PersonFilmWork,
      GenreFilmWork, the same order the consistency check visits them in. */
  lemma LoadOrderMatchesCheckOrder()
    ensures |LoadOrder| == |ConsistencyCheck.Tables|
    ensures forall i :: 0 <= i < |LoadOrder| ==> TableName(LoadOrder[i]) == ConsistencyCheck.Tables[i]
  {
  }

  /** Each table a table's foreign keys point at is loaded before it. */
  lemma ParentsRankedFirst(child: Table, parent: Table)
    requires parent in ForeignKeyTargets(child)
    ensures Rank(parent) < Rank(child)
  {
  }

  /** In events that never go back in load order, every event for a table a
      foreign key points at comes before every event for the referencing table. */
  lemma ParentsComeFirst<B>(ev: seq<Event<B>>)
    requires RanksNonDecreasing(ev)
    ensures forall i, j :: 0 <= i < |ev| && 0 <= j < |ev| && ev[i].table in ForeignKeyTargets(ev[j].table) ==> i < j
  {
    forall i, j | 0 <= i < |ev| && 0 <= j < |ev| && ev[i].table in ForeignKeyTargets(ev[j].table) ensures i < j {
      ParentsRankedFirst(ev[j].table, ev[i].table);
    }
  }

  /** The calls of `load_from_sqlite`, whatever the outcome, follow load order,
      and every call for a table that a join table's foreign keys point at
      comes before every call for that join table. */
  lemma LoadFromSqliteOrdered<B>(extract: Table -> Extraction<B>, accepts: Accepts<B>, h: seq<Event<B>>)
    ensures var ev := LoadTables(LoadOrder, extract, accepts, h).events;
            && RanksNonDecreasing(ev)
            && forall i, j :: 0 <= i < |ev| && 0 <= j < |ev| && ev[i].table in ForeignKeyTargets(ev[j].table) ==> i < j
  {
    LoadOrderStrictlyRanked();
    RunFollowsOrder(LoadOrder, extract, accepts, h);
    ParentsComeFirst(LoadTables(LoadOrder, extract, accepts, h).events);
  }

  /** Every `save` of `load_from_sqlite` happens inside its table's context,
      and every context is left, normally or on an exception. */
  lemma LoadFromSqliteSavesInContext<B>(extract: Table -> Extraction<B>, accepts: Accepts<B>, h: seq<Event<B>>)
    ensures var ev := LoadTables(LoadOrder, extract, accepts, h).events;
            && ContextsBalanced(ev)
            && forall i :: 0 <= i < |ev| && ev[i].Save? ==> Track(ev[..i], None) == Some(Some(ev[i].table))
  {
    RunContextsBalanced(LoadOrder, extract, accepts, h);
    var ev := LoadTables(LoadOrder, extract, accepts, h).events;
    forall i | 0 <= i < |ev| && ev[i].Save? ensures Track(ev[..i], None) == Some(Some(ev[i].table)) {
      SaveInsideItsContext(ev, i);
    }
  }

  /** A `load_from_sqlite` that returns has passed every batch each
      `extract(table)` yielded to `save` exactly once, in yield order, with
      that same table. */
  lemma LoadFromSqliteSavesEveryBatch<B>(extract: Table -> Extraction<B>, accepts: Accepts<B>,
                                        h: seq<Event<B>>, t: Table)
    requires LoadTables(LoadOrder, extract, accepts, h).status == Loaded
    ensures SavedBatches(t, LoadTables(LoadOrder, extract, accepts, h).events) == extract(t).batches
  {
    LoadOrderStrictlyRanked();
    SuccessfulRunIsComplete(LoadOrder, extract, accepts, h);
    ExpectedSavesEachBatchOnce(LoadOrder, extract, t);
  }

  /** An exception from `extract` or `save` in one table aborts all remaining
      tables: no later table is touched, and the last call leaves the failing
      table's context. */
  lemma LoadFromSqliteAbortsRemaining<B>(extract: Table -> Extraction<B>, accepts: Accepts<B>, h: seq<Event<B>>)
    requires LoadTables(LoadOrder, extract, accepts, h).status != Loaded
    ensures var s := LoadTables(LoadOrder, extract, accepts, h);
            && |s.events| > 0 && s.events[|s.events| - 1] == Exit(s.status.table)
            && forall i :: 0 <= i < |s.events| ==> Rank(s.events[i].table) <= Rank(s.status.table)
  {
    var s := LoadTables(LoadOrder, extract, accepts, h);
    var n, k := FailedRunStopsAtFailingTable(LoadOrder, extract, accepts, h);
    LoadOrderStrictlyRanked();
    RunFollowsOrder(LoadOrder, extract, accepts, h);
    assert s.events[|s.events| - 1] == Exit(s.status.table);
  }
}
