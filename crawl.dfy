/**
 * What the scraper does, as values: the ordered effects of one `fetch`, and
 * the effects of the `start` loop that fetches the ids one after another.
 * The network is a function from (id, key) to a response, since the request
 * URL carries both; the clock is a function giving, for each id, the instant
 * at which `delay` reads the time.
 */
module Crawl {
  import opened Rotation
  import opened Governor

  /** `start` walks the ids `0 .. IdCount - 1`. */
  const IdCount: int := 200000

  /** The observable steps of a fetch, in a log kept alongside the scraper. */
  datatype Effect =
    | Requested(id: int, key: string)  // the request for `id`, authenticated with `key`
    | Paused(ms: int)                  // the wait of `delay`
    | Switched                         // a call of `switchKey`
    | Inserted(id: int, body: string)  // the insert of the body fetched for `id`

  /** The rank of each kind of effect in the order a fetch performs them. */
  function Stage(e: Effect): nat {
    match e
    case Requested(_, _) => 0
    case Paused(_) => 1
    case Switched => 2
    case Inserted(_, _) => 3
  }

  /**
   * The active key after a fetch that used `key` and got `r`: a listed key
   * after a switch, the same key otherwise.
   */
  function KeyAfter(key: string, r: Response): (k: string)
    ensures ShouldSwitch(r) ==> k in ApiKeys
    ensures !ShouldSwitch(r) ==> k == key
  {
    if ShouldSwitch(r) then NextKey(ApiKeys, key) else key
  }

  /**
   * The effects of `fetch(id)` when `key` is active, the response is `r` and
   * the clock reads `now` when the pause is computed: the request, then the
   * pause if the per-second counter is at its limit, then the key switch if
   * the total quota is at its limit, then the insert if the status is 200.
   */
  function FetchEffects(id: int, key: string, r: Response, now: int): (es: seq<Effect>)
    ensures 1 <= |es| <= 4 && es[0] == Requested(id, key)
  {
    var pause := if ShouldPause(r) then [Paused(Delay(now))] else [];
    var switch := if ShouldSwitch(r) then [Switched] else [];
    var save := if ShouldSave(r) then [Inserted(id, r.body)] else [];
    [Requested(id, key)] + pause + switch + save
  }

  /** The ranks strictly increase along a log: no kind of effect repeats and none comes out of order. */
  ghost predicate InStageOrder(es: seq<Effect>) {
    forall i :: 0 < i < |es| ==> Stage(es[i - 1]) < Stage(es[i])
  }

  /** Two logs in stage order, every rank of the first below `s` and every rank of the second at least `s`, join in stage order. */
  lemma StageOrderAppend(a: seq<Effect>, b: seq<Effect>, s: nat)
    requires InStageOrder(a) && InStageOrder(b)
    requires forall i :: 0 <= i < |a| ==> Stage(a[i]) < s
    requires forall i :: 0 <= i < |b| ==> s <= Stage(b[i])
    ensures InStageOrder(a + b)
  {
    forall i | 0 < i < |a + b| ensures Stage((a + b)[i - 1]) < Stage((a + b)[i]) {
      if i == |a| {
        assert (a + b)[i - 1] == a[i - 1] && (a + b)[i] == b[0];
      } else if i < |a| {
        assert (a + b)[i - 1] == a[i - 1] && (a + b)[i] == a[i];
      } else {
        assert (a + b)[i - 1] == b[i - 1 - |a|] && (a + b)[i] == b[i - |a|];
      }
    }
  }

  /**
   * A fetch performs each kind of effect at most once and always in the
   * order request, pause, switch, insert.
   */
  lemma FetchInStageOrder(id: int, key: string, r: Response, now: int)
    ensures InStageOrder(FetchEffects(id, key, r, now))
  {
    var pause := if ShouldPause(r) then [Paused(Delay(now))] else [];
    var switch := if ShouldSwitch(r) then [Switched] else [];
    var save := if ShouldSave(r) then [Inserted(id, r.body)] else [];
    var a := [Requested(id, key)];
    StageOrderAppend(a, pause, 1);
    StageOrderAppend(a + pause, switch, 2);
    StageOrderAppend(a + pause + switch, save, 3);
  }

  /** The outcome of fetching a range of ids: the effects, the key left active, and whether a fetch rejected. */
  datatype Outcome = Outcome(log: seq<Effect>, key: string, aborted: bool)

  /**
   * The `start` loop over the ids `lo .. hi - 1` from active key `key`: each
   * fetch uses the key left by the previous one. A network error rejects
   * `fetch`, which makes the awaiting loop throw, so no further id is visited.
   */
  function Run(key: string, lo: int, hi: int,
               respond: (int, string) -> Response, clock: int -> int): (o: Outcome)
    ensures key in ApiKeys ==> o.key in ApiKeys
    ensures o.aborted ==> lo < hi
    decreases hi - lo
  {
    if lo >= hi then Outcome([], key, false)
    else
      var r := respond(lo, key);
      var es := FetchEffects(lo, key, r, clock(lo));
      if r.NetworkError? then Outcome(es, key, true)
      else
        var rest := Run(KeyAfter(key, r), lo + 1, hi, respond, clock);
        Outcome(es + rest.log, rest.key, rest.aborted)
  }

  /** The ids requested in a log, in order: the visited ids. */
  function Visited(log: seq<Effect>): seq<int> {
    if log == [] then []
    else (if log[0].Requested? then [log[0].id] else []) + Visited(log[1..])
  }

  /** The number of inserts of a body fetched for `id` in a log. */
  function InsertsOf(log: seq<Effect>, id: int): nat {
    if log == [] then 0
    else (if log[0].Inserted? && log[0].id == id then 1 else 0) + InsertsOf(log[1..], id)
  }

  /** The ids `lo, lo + 1, ..., hi - 1`. */
  function Range(lo: int, hi: int): (ids: seq<int>)
    ensures |ids| == if lo <= hi then hi - lo else 0
    ensures forall i :: 0 <= i < |ids| ==> ids[i] == lo + i
    decreases hi - lo
  {
    if lo >= hi then [] else [lo] + Range(lo + 1, hi)
  }

  lemma {:induction false} VisitedAppend(a: seq<Effect>, b: seq<Effect>)
    ensures Visited(a + b) == Visited(a) + Visited(b)
    decreases |a|
  {
    if a != [] {
      assert (a + b)[0] == a[0] && (a + b)[1..] == a[1..] + b;
      VisitedAppend(a[1..], b);
      var head := if a[0].Requested? then [a[0].id] else [];
      assert Visited(a + b) == head + Visited(a[1..] + b);
    } else {
      assert a + b == b;
    }
  }

  lemma {:induction false} InsertsOfAppend(a: seq<Effect>, b: seq<Effect>, id: int)
    ensures InsertsOf(a + b, id) == InsertsOf(a, id) + InsertsOf(b, id)
    decreases |a|
  {
    if a != [] {
      assert (a + b)[0] == a[0] && (a + b)[1..] == a[1..] + b;
      InsertsOfAppend(a[1..], b, id);
      var head := if a[0].Inserted? && a[0].id == id then 1 else 0;
      assert InsertsOf(a + b, id) == head + InsertsOf(a[1..] + b, id);
    } else {
      assert a + b == b;
    }
  }

  /** One fetch: it pauses exactly when the per-second counter is at its limit, and then for the time to the next minute. */
  lemma FetchPauses(id: int, key: string, r: Response, now: int)
    ensures Paused(Delay(now)) in FetchEffects(id, key, r, now) <==> ShouldPause(r)
    ensures forall e :: e in FetchEffects(id, key, r, now) && e.Paused? ==> e.ms == Delay(now) && 1 <= e.ms <= MinuteMs
  {
  }

  /** One fetch: it switches to the next key exactly when the total quota is at its limit. */
  lemma FetchSwitches(id: int, key: string, r: Response, now: int)
    ensures Switched in FetchEffects(id, key, r, now) <==> ShouldSwitch(r)
    ensures KeyAfter(key, r) != key ==> ShouldSwitch(r)
  {
    var es := FetchEffects(id, key, r, now);
    if ShouldSwitch(r) {
      assert Switched in es;
    }
  }

  /** A log with no request visits no id. */
  lemma {:induction false} VisitedNone(log: seq<Effect>)
    requires forall k :: 0 <= k < |log| ==> !log[k].Requested?
    ensures Visited(log) == []
    decreases |log|
  {
    if log != [] {
      VisitedNone(log[1..]);
    }
  }

  /** A log with no insert for `x` inserts `x` zero times. */
  lemma {:induction false} InsertsNone(log: seq<Effect>, x: int)
    requires forall k :: 0 <= k < |log| ==> !(log[k].Inserted? && log[k].id == x)
    ensures InsertsOf(log, x) == 0
    decreases |log|
  {
    if log != [] {
      InsertsNone(log[1..], x);
    }
  }

  /** Ranks increase along a fetch's effects, so each effect's rank is at least its position. */
  lemma {:induction false} StageAtLeastPosition(es: seq<Effect>, k: nat)
    requires InStageOrder(es)
    requires k < |es|
    ensures Stage(es[k]) >= k
  {
    if k > 0 {
      StageAtLeastPosition(es, k - 1);
    }
  }

  /** One fetch requests exactly its own id, once. */
  lemma FetchVisits(id: int, key: string, r: Response, now: int)
    ensures Visited(FetchEffects(id, key, r, now)) == [id]
  {
    var es := FetchEffects(id, key, r, now);
    FetchInStageOrder(id, key, r, now);
    forall k | 0 <= k < |es[1..]| ensures !es[1..][k].Requested? {
      StageAtLeastPosition(es, k + 1);
    }
    VisitedNone(es[1..]);
  }

  /**
   * One fetch inserts the body of its own id exactly once for status 200 and
   * never otherwise, and inserts nothing for any other id.
   */
  lemma FetchInserts(id: int, key: string, r: Response, now: int, x: int)
    ensures InsertsOf(FetchEffects(id, key, r, now), x) == if x == id && ShouldSave(r) then 1 else 0
  {
    var es := FetchEffects(id, key, r, now);
    FetchInStageOrder(id, key, r, now);
    var n := |es| - 1;
    assert es == es[..n] + [es[n]];
    InsertsOfAppend(es[..n], [es[n]], x);
    forall k | 0 <= k < |es[..n]| ensures !es[..n][k].Inserted? {
      StageAtLeastPosition(es, k);
      StageAtLeastPosition(es, n);
    }
    InsertsNone(es[..n], x);
    assert es[n].Inserted? <==> ShouldSave(r);
    assert es[n].Inserted? ==> es[n].id == id;
  }

  /**
   * The quota checks come before the status check and do not depend on it:
   * an invalid response at both limits still pauses and switches the key,
   * and saves nothing.
   */
  lemma InvalidResponseStillGoverns(id: int, key: string, r: Response, now: int)
    requires r.Received? && r.status != StatusOk
    requires ShouldPause(r) && ShouldSwitch(r)
    ensures FetchEffects(id, key, r, now)
         == [Requested(id, key), Paused(Delay(now)), Switched]
  {
  }

  /**
   * One turn of the loop: a failed request ends the run with its effects;
   * otherwise the run is the first fetch followed by the run over the
   * remaining ids from the key that fetch leaves.
   */
  lemma RunStep(key: string, lo: int, hi: int,
                respond: (int, string) -> Response, clock: int -> int)
    requires lo < hi
    ensures var r := respond(lo, key);
            var es := FetchEffects(lo, key, r, clock(lo));
            r.NetworkError? ==> Run(key, lo, hi, respond, clock) == Outcome(es, key, true)
    ensures var r := respond(lo, key);
            var es := FetchEffects(lo, key, r, clock(lo));
            var rest := Run(KeyAfter(key, r), lo + 1, hi, respond, clock);
            !r.NetworkError? ==> Run(key, lo, hi, respond, clock) == Outcome(es + rest.log, rest.key, rest.aborted)
  {
  }

  /**
   * Gluing one turn onto a split run: if the first part is one fetch
   * followed by `a'`, and the rest from there is `a'` followed by `b`, then
   * the whole is the first part followed by `b`.
   */
  lemma ComposeTurn(es: seq<Effect>, a: Outcome, a': Outcome, b: Outcome, c: Outcome, whole: Outcome)
    requires a == Outcome(es + a'.log, a'.key, a'.aborted)
    requires c == Outcome(a'.log + b.log, b.key, b.aborted)
    requires whole == Outcome(es + c.log, c.key, c.aborted)
    ensures whole == Outcome(a.log + b.log, b.key, b.aborted)
  {
    assert es + (a'.log + b.log) == (es + a'.log) + b.log;
  }

  /** A run that did not abort did not abort on any prefix of its range either. */
  lemma {:induction false} RunPrefix(key: string, lo: int, mid: int, hi: int,
                                     respond: (int, string) -> Response, clock: int -> int)
    requires lo <= mid <= hi
    requires !Run(key, lo, hi, respond, clock).aborted
    ensures !Run(key, lo, mid, respond, clock).aborted
    decreases mid - lo
  {
    if lo < mid {
      var r := respond(lo, key);
      RunPrefix(KeyAfter(key, r), lo + 1, mid, hi, respond, clock);
    }
  }

  /** Fetching `lo .. hi - 1` is fetching `lo .. mid - 1` and then, from the key it leaves, `mid .. hi - 1`. */
  lemma {:induction false} RunSplit(key: string, lo: int, mid: int, hi: int,
                                    respond: (int, string) -> Response, clock: int -> int)
    requires lo <= mid <= hi
    requires !Run(key, lo, mid, respond, clock).aborted
    ensures var a := Run(key, lo, mid, respond, clock);
            var b := Run(a.key, mid, hi, respond, clock);
            Run(key, lo, hi, respond, clock) == Outcome(a.log + b.log, b.key, b.aborted)
    decreases mid - lo
  {
    if lo < mid {
      var r := respond(lo, key);
      var es := FetchEffects(lo, key, r, clock(lo));
      var k' := KeyAfter(key, r);
      RunStep(key, lo, mid, respond, clock);
      RunStep(key, lo, hi, respond, clock);
      RunSplit(k', lo + 1, mid, hi, respond, clock);
      var a := Run(key, lo, mid, respond, clock);
      var a' := Run(k', lo + 1, mid, respond, clock);
      var b := Run(a'.key, mid, hi, respond, clock);
      var c := Run(k', lo + 1, hi, respond, clock);
      ComposeTurn(es, a, a', b, c, Run(key, lo, hi, respond, clock));
    }
  }

  /**
   * The ids are visited in increasing order, each once: all of `lo .. hi - 1`
   * when no fetch rejects, otherwise the ids up to and including the first
   * one whose request failed.
   */
  lemma {:induction false} RunVisits(key: string, lo: int, hi: int,
                                     respond: (int, string) -> Response, clock: int -> int)
    ensures var o := Run(key, lo, hi, respond, clock);
            !o.aborted ==> Visited(o.log) == Range(lo, hi)
    ensures var o := Run(key, lo, hi, respond, clock);
            o.aborted ==> exists m :: lo <= m < hi && Visited(o.log) == Range(lo, m + 1)
                                      && !Run(key, lo, m, respond, clock).aborted
                                      && respond(m, Run(key, lo, m, respond, clock).key).NetworkError?
    decreases hi - lo
  {
    var o := Run(key, lo, hi, respond, clock);
    if lo < hi {
      var r := respond(lo, key);
      var es := FetchEffects(lo, key, r, clock(lo));
      FetchVisits(lo, key, r, clock(lo));
      assert Run(key, lo, lo, respond, clock) == Outcome([], key, false);
      if r.NetworkError? {
        assert Visited(o.log) == Range(lo, lo + 1);
      } else {
        var k' := KeyAfter(key, r);
        var rest := Run(k', lo + 1, hi, respond, clock);
        RunVisits(k', lo + 1, hi, respond, clock);
        VisitedAppend(es, rest.log);
        if rest.aborted {
          var m :| lo + 1 <= m < hi && Visited(rest.log) == Range(lo + 1, m + 1)
                   && !Run(k', lo + 1, m, respond, clock).aborted
                   && respond(m, Run(k', lo + 1, m, respond, clock).key).NetworkError?;
          assert Run(key, lo, m, respond, clock) == Outcome(es + Run(k', lo + 1, m, respond, clock).log,
                                                            Run(k', lo + 1, m, respond, clock).key, false);
          assert Visited(o.log) == Range(lo, m + 1);
        } else {
          assert Visited(o.log) == Range(lo, hi);
        }
      }
    }
  }

  /** A run inserts nothing for an id outside its range. */
  lemma {:induction false} RunInsertsOnlyInRange(key: string, lo: int, hi: int, id: int,
                                                 respond: (int, string) -> Response, clock: int -> int)
    requires id < lo || hi <= id
    ensures InsertsOf(Run(key, lo, hi, respond, clock).log, id) == 0
    decreases hi - lo
  {
    if lo < hi {
      var r := respond(lo, key);
      var es := FetchEffects(lo, key, r, clock(lo));
      FetchInserts(lo, key, r, clock(lo), id);
      if !r.NetworkError? {
        var k' := KeyAfter(key, r);
        RunInsertsOnlyInRange(k', lo + 1, hi, id, respond, clock);
        InsertsOfAppend(es, Run(k', lo + 1, hi, respond, clock).log, id);
      }
    }
  }

  /**
   * Over a run, the body of an id the loop reached is inserted exactly once
   * when the response to its request (made with the key active at that
   * point) has status 200, and never otherwise.
   */
  lemma InsertedOncePerValidId(key: string, lo: int, hi: int, id: int,
                               respond: (int, string) -> Response, clock: int -> int)
    requires lo <= id < hi
    requires !Run(key, lo, id, respond, clock).aborted
    ensures var k := Run(key, lo, id, respond, clock).key;
            InsertsOf(Run(key, lo, hi, respond, clock).log, id)
              == if ShouldSave(respond(id, k)) then 1 else 0
  {
    var a := Run(key, lo, id, respond, clock);
    var b := Run(a.key, id, hi, respond, clock);
    RunSplit(key, lo, id, hi, respond, clock);
    RunInsertsOnlyInRange(key, lo, id, id, respond, clock);
    InsertsOfAppend(a.log, b.log, id);
    var r := respond(id, a.key);
    var es := FetchEffects(id, a.key, r, clock(id));
    FetchInserts(id, a.key, r, clock(id), id);
    if !r.NetworkError? {
      var k' := KeyAfter(a.key, r);
      RunInsertsOnlyInRange(k', id + 1, hi, id, respond, clock);
      InsertsOfAppend(es, Run(k', id + 1, hi, respond, clock).log, id);
    }
  }

  /**
   * The key left by a fetch differs from the one it used exactly when the
   * response reached the total quota: since the keys are distinct, a switch
   * always changes a listed key, and it replaces an unlisted key by the
   * first listed one.
   */
  lemma KeyChangesExactlyOnSwitch(key: string, r: Response)
    ensures KeyAfter(key, r) != key <==> ShouldSwitch(r)
  {
    if ShouldSwitch(r) && key in ApiKeys {
      ApiKeysWellFormed();
      NextKeyAt(ApiKeys, IndexOf(ApiKeys, key));
    }
  }

  /**
   * A fetch builds its request from the key active when it starts, so a
   * switch made while handling the response for id `n` shows only from the
   * request for `n + 1` on.
   */
  lemma SwitchTakesEffectNextFetch(key: string, lo: int, hi: int, n: int,
                                   respond: (int, string) -> Response, clock: int -> int)
    requires lo <= n && n + 1 < hi
    requires !Run(key, lo, n + 1, respond, clock).aborted
    ensures var kn := Run(key, lo, n, respond, clock).key;
            var log := Run(key, lo, hi, respond, clock).log;
            Requested(n, kn) in log && Requested(n + 1, KeyAfter(kn, respond(n, kn))) in log
  {
    RunPrefix(key, lo, n, n + 1, respond, clock);
    RunSplit(key, lo, n, n + 1, respond, clock);
    var a := Run(key, lo, n, respond, clock);
    var r := respond(n, a.key);
    assert !r.NetworkError?;
    var k' := KeyAfter(a.key, r);
    RunSplit(key, lo, n, hi, respond, clock);
    var b := Run(a.key, n, hi, respond, clock);
    var c := Run(k', n + 1, hi, respond, clock);
    assert b.log == FetchEffects(n, a.key, r, clock(n)) + c.log;
    assert c.log[0] == Requested(n + 1, k');
    assert Requested(n + 1, k') in b.log;
    assert Requested(n, a.key) in b.log;
  }

  /**
   * A status-200 response for id 5, made with the first key, whose total
   * quota stands at 999 of 1000 (1004 with the margin) saves the item and
   * makes the request for id 6 use the second key.
   */
  lemma QuotaExhaustedScenario(respond: (int, string) -> Response, clock: int -> int, body: string)
    requires respond(5, ApiKeys[0]) == Received(200, Some(10), Some(100), Some(999), Some(1000), body)
    ensures var log := Run(ApiKeys[0], 5, 7, respond, clock).log;
            InsertsOf(log, 5) == 1 && Requested(6, ApiKeys[1]) in log
  {
    ApiKeysWellFormed();
    NextKeyAt(ApiKeys, 0);
    var r := respond(5, ApiKeys[0]);
    assert ShouldSwitch(r) && ShouldSave(r) && !ShouldPause(r);
    InsertedOncePerValidId(ApiKeys[0], 5, 7, 5, respond, clock);
    assert Run(ApiKeys[0], 5, 5, respond, clock) == Outcome([], ApiKeys[0], false);
    SwitchTakesEffectNextFetch(ApiKeys[0], 5, 7, 5, respond, clock);
  }

  /**
   * A 404 for id 42, below both limits, saves nothing, does not stop the
   * loop, and the request for id 43 uses the same key.
   */
  lemma InvalidIdScenario(key: string, respond: (int, string) -> Response, clock: int -> int)
    requires respond(42, key) == Received(404, Some(1), Some(100), Some(1), Some(1000), "")
    ensures var log := Run(key, 42, 44, respond, clock).log;
            InsertsOf(log, 42) == 0 && Requested(43, key) in log
  {
    assert Run(key, 42, 42, respond, clock) == Outcome([], key, false);
    InsertedOncePerValidId(key, 42, 44, 42, respond, clock);
    SwitchTakesEffectNextFetch(key, 42, 44, 42, respond, clock);
  }
}
