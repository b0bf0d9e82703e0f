/**
 * The `Scraper` object: its active key, updated in place by `switchKey`,
 * and the `fetch` and `start` methods that drive it. The effects a real run
 * would have on the network, the clock and the database are recorded in a
 * ghost log instead.
 */
module Scraping {
  import opened Rotation
  import opened Governor
  import opened Crawl

  /** Concatenation is associative; stated once so that each step of the log needs one instance. */
  lemma AppendAssoc<T>(a: seq<T>, b: seq<T>, c: seq<T>)
    ensures (a + b) + c == a + (b + c)
  {
  }

  class Scraper {
    /** The API key sent with the next request. */
    var key: string
    /** Everything the scraper has done so far, in order. */
    ghost var log: seq<Effect>

    /** The active key is always one of the API keys. */
    ghost predicate Valid()
      reads this
    {
      key in ApiKeys
    }

    /** A new scraper starts on the first key and has done nothing yet. */
    constructor ()
      ensures Valid()
      ensures key == ApiKeys[0] && log == []
    {
      key := ApiKeys[0];
      log := [];
    }

    /** `switchKey`: make the key after the active one active, wrapping to the first. */
    method SwitchKey()
      modifies this
      ensures Valid()
      ensures key == NextKey(ApiKeys, old(key))
      ensures log == old(log) + [Switched]
    {
      var next := IndexOf(ApiKeys, key) + 1;
      if Truthy(ApiKeys, next) {
        key := ApiKeys[next];
      } else {
        key := ApiKeys[0];
      }
      log := log + [Switched];
    }

    /**
     * `fetch(id)`: request `id` with the key active at the start, then pause
     * and switch the key as the quota headers demand, then save the body if
     * the status is 200. `respond` answers the request and `now` is the time
     * `delay` reads. The result is false when the request itself failed, in
     * which case the call rejects after logging the request.
     */
    method Fetch(id: int, respond: (int, string) -> Response, now: int) returns (ok: bool)
      requires Valid()
      modifies this
      ensures Valid()
      ensures ok == !respond(id, old(key)).NetworkError?
      ensures key == KeyAfter(old(key), respond(id, old(key)))
      ensures log == old(log) + FetchEffects(id, old(key), respond(id, old(key)), now)
    {
      var k := key;
      log := log + [Requested(id, k)];
      var response := respond(id, k);
      if response.NetworkError? {
        return false;
      }
      // The effects of this call so far; the log is always the old log followed by them.
      ghost var done := [Requested(id, k)];
      ghost var pause := if ShouldPause(response) then [Paused(Delay(now))] else [];
      ghost var switch := if ShouldSwitch(response) then [Switched] else [];
      ghost var save := if ShouldSave(response) then [Inserted(id, response.body)] else [];
      if ShouldPause(response) {
        log := log + [Paused(Delay(now))];
        AppendAssoc(old(log), done, [Paused(Delay(now))]);
        done := done + [Paused(Delay(now))];
      }
      assert done == [Requested(id, k)] + pause;
      if ShouldSwitch(response) {
        SwitchKey();
        AppendAssoc(old(log), done, [Switched]);
        done := done + [Switched];
      }
      assert done == [Requested(id, k)] + pause + switch;
      if response.status != StatusOk {
        assert done == FetchEffects(id, k, response, now);
        return true;
      }
      log := log + [Inserted(id, response.body)];
      AppendAssoc(old(log), done, [Inserted(id, response.body)]);
      done := done + [Inserted(id, response.body)];
      assert done == FetchEffects(id, k, response, now);
      return true;
    }

    /**
     * `start`: fetch the ids `0 .. IdCount - 1` one after another, each
     * awaited before the next. The loop ends early, and the result is false,
     * when a fetch rejects.
     */
    method Start(respond: (int, string) -> Response, clock: int -> int) returns (completed: bool)
      requires Valid()
      modifies this
      ensures Valid()
      ensures var o := Run(old(key), 0, IdCount, respond, clock);
              log == old(log) + o.log && key == o.key && completed == !o.aborted
      ensures completed ==> Visited(log) == Visited(old(log)) + Range(0, IdCount)
    {
      ghost var total := Run(key, 0, IdCount, respond, clock);
      var id := 0;
      while id < IdCount
        invariant 0 <= id <= IdCount
        invariant Valid()
        invariant old(log) + total.log == log + Run(key, id, IdCount, respond, clock).log
        invariant total.key == Run(key, id, IdCount, respond, clock).key
        invariant total.aborted == Run(key, id, IdCount, respond, clock).aborted
      {
        ghost var before, k := log, key;
        ghost var r := respond(id, k);
        ghost var es := FetchEffects(id, k, r, clock(id));
        var ok := Fetch(id, respond, clock(id));
        if !ok {
          assert Run(k, id, IdCount, respond, clock) == Outcome(es, k, true);
          completed := false;
          RunVisits(old(key), 0, IdCount, respond, clock);
          return;
        }
        ghost var rest := Run(key, id + 1, IdCount, respond, clock);
        assert Run(k, id, IdCount, respond, clock) == Outcome(es + rest.log, rest.key, rest.aborted);
        AppendAssoc(before, es, rest.log);
        id := id + 1;
      }
      completed := true;
      RunVisits(old(key), 0, IdCount, respond, clock);
      VisitedAppend(old(log), total.log);
    }
  }
}
