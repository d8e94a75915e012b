/**
 * server.js: the in-memory session store behind `POST /api/sessions` and
 * `GET /api/sessions/:id`. The store is a Map, which iterates in insertion order;
 * the model keeps that order as a sequence of ids beside a map from id to entry.
 */
module Server {
  import opened Wrappers
  import opened Payloads
  import Reducer

  /** `TTL_SECONDS` and `MAX_SESSIONS` when the environment leaves them unset. */
  const DefaultTtlSeconds: int := 3600
  const DefaultMaxSessions: int := 200

  datatype StoredSession = StoredSession(
    id: string,
    title: string,
    createdAt: string,
    steps: seq<Reducer.Step>,
    meta: map<string, string>)

  datatype Entry = Entry(data: StoredSession, expiresAt: int)

  /** A request body: `steps` is `Some` exactly when it is an array; `meta` when it is truthy. */
  datatype Body = Body(
    steps: Option<seq<Reducer.Step>>,
    title: string,
    createdAt: string,
    meta: Option<map<string, string>>)

  datatype PostResult = BadRequest(error: string) | Created(sessionId: string, expiresIn: int)

  /** No id listed twice: each differs from every id listed before it. */
  predicate Distinct(ids: seq<string>) {
    ids == [] || (ids[|ids| - 1] !in ids[..|ids| - 1] && Distinct(ids[..|ids| - 1]))
  }

  lemma {:induction false} DistinctIndices(ids: seq<string>)
    ensures Distinct(ids) <==> forall i, j :: 0 <= i < j < |ids| ==> ids[i] != ids[j]
  {
    if ids != [] {
      var init := ids[..|ids| - 1];
      DistinctIndices(init);
      if Distinct(ids) {
        forall i, j | 0 <= i < j < |ids| ensures ids[i] != ids[j] {
          if j == |ids| - 1 {
            assert ids[i] == init[i];
          } else {
            assert ids[i] == init[i] && ids[j] == init[j];
          }
        }
      }
      if forall i, j :: 0 <= i < j < |ids| ==> ids[i] != ids[j] {
        forall i, j | 0 <= i < j < |init| ensures init[i] != init[j] {
          assert init[i] == ids[i] && init[j] == ids[j];
        }
        forall k | 0 <= k < |init| ensures init[k] != ids[|ids| - 1] {
          assert init[k] == ids[k];
        }
      }
    }
  }

  /** An entry a sweep at `now` keeps: stored and not yet expired. */
  predicate Live(entries: map<string, Entry>, id: string, now: int) {
    id in entries && entries[id].expiresAt > now
  }

  /** The ids a sweep at `now` keeps, in insertion order. */
  function LiveOrder(order: seq<string>, entries: map<string, Entry>, now: int): (r: seq<string>)
    ensures |r| <= |order|
  {
    if order == [] then []
    else
      var rest := LiveOrder(order[..|order| - 1], entries, now);
      var id := order[|order| - 1];
      if Live(entries, id, now) then rest + [id] else rest
  }

  /** A sweep keeps exactly the listed ids whose entries are live. */
  lemma {:induction false} LiveOrderMembers(order: seq<string>, entries: map<string, Entry>, now: int)
    ensures forall id :: id in LiveOrder(order, entries, now) <==> id in order && Live(entries, id, now)
  {
    if order != [] {
      var init := order[..|order| - 1];
      LiveOrderMembers(init, entries, now);
      assert order == init + [order[|order| - 1]];
    }
  }

  /** A sweep never lists an id twice. */
  lemma {:induction false} LiveOrderDistinct(order: seq<string>, entries: map<string, Entry>, now: int)
    requires Distinct(order)
    ensures Distinct(LiveOrder(order, entries, now))
  {
    if order != [] {
      var init, id := order[..|order| - 1], order[|order| - 1];
      LiveOrderDistinct(init, entries, now);
      LiveOrderMembers(init, entries, now);
      assert id !in init;
    }
  }

  /** The entries a sweep at `now` keeps. */
  function LiveEntries(entries: map<string, Entry>, now: int): (r: map<string, Entry>)
    ensures forall id :: id in r <==> Live(entries, id, now)
    ensures forall id :: id in r ==> id in entries && r[id] == entries[id]
  {
    map id | id in entries && entries[id].expiresAt > now :: entries[id]
  }

  /** The entries whose ids are listed in `ids`. */
  function Restrict(entries: map<string, Entry>, ids: seq<string>): (r: map<string, Entry>)
    ensures forall id :: id in r <==> id in entries && id in ids
    ensures forall id :: id in r ==> r[id] == entries[id]
  {
    map id | id in entries && id in ids :: entries[id]
  }

  /** The ids that survive enforceMaxSessions: all of them within capacity, else the newest `max`. */
  function Evict(order: seq<string>, max: int): (r: seq<string>)
    ensures |r| <= |order| && r == order[|order| - |r|..]
  {
    if |order| <= max then order
    else if |order| - max >= |order| then []
    else order[|order| - max..]
  }

  // ---- properties of the sweep ----

  lemma LiveOrderSnoc(order: seq<string>, id: string, entries: map<string, Entry>, now: int)
    ensures LiveOrder(order + [id], entries, now)
            == if Live(entries, id, now) then LiveOrder(order, entries, now) + [id] else LiveOrder(order, entries, now)
  {
    assert (order + [id])[..|order|] == order;
  }

  /** One turn of the sweep's loop: the id at position `kept` of the store is the next one to test. */
  lemma PruneStep(ids: seq<string>, i: nat, kept: nat, order: seq<string>, entries: map<string, Entry>, now: int)
    requires i < |ids|
    requires kept == |LiveOrder(ids[..i], entries, now)|
    requires order == LiveOrder(ids[..i], entries, now) + ids[i..]
    ensures kept < |order| && order[kept] == ids[i]
    ensures Live(entries, ids[i], now) ==>
              order == LiveOrder(ids[..i + 1], entries, now) + ids[i + 1..] && kept + 1 == |LiveOrder(ids[..i + 1], entries, now)|
    ensures !Live(entries, ids[i], now) ==>
              order[..kept] + order[kept + 1..] == LiveOrder(ids[..i + 1], entries, now) + ids[i + 1..]
              && kept == |LiveOrder(ids[..i + 1], entries, now)|
  {
    var live := LiveOrder(ids[..i], entries, now);
    assert ids[..i + 1] == ids[..i] + [ids[i]];
    LiveOrderSnoc(ids[..i], ids[i], entries, now);
    assert ids[i..] == [ids[i]] + ids[i + 1..];
    assert order == live + [ids[i]] + ids[i + 1..];
    assert order[..kept] == live && order[kept + 1..] == ids[i + 1..];
  }

  /** The entries left after deleting, one listed id at a time, those that have expired. */
  function SweepMap(entries: map<string, Entry>, ids: seq<string>, now: int): map<string, Entry> {
    if ids == [] then entries
    else
      var m := SweepMap(entries, ids[..|ids| - 1], now);
      var id := ids[|ids| - 1];
      if Live(entries, id, now) then m else m - {id}
  }

  lemma SweepMapSnoc(entries: map<string, Entry>, ids: seq<string>, id: string, now: int)
    ensures SweepMap(entries, ids + [id], now)
            == if Live(entries, id, now) then SweepMap(entries, ids, now) else SweepMap(entries, ids, now) - {id}
  {
    assert (ids + [id])[..|ids|] == ids;
  }

  /** After deleting the expired among `ids`, an id is kept iff it was stored and, when listed, is live. */
  lemma {:induction false} SweepMapContents(entries: map<string, Entry>, ids: seq<string>, now: int)
    ensures forall k :: k in SweepMap(entries, ids, now) <==> k in entries && (k in ids ==> Live(entries, k, now))
    ensures forall k :: k in SweepMap(entries, ids, now) ==> SweepMap(entries, ids, now)[k] == entries[k]
  {
    if ids != [] {
      SweepMapContents(entries, ids[..|ids| - 1], now);
      assert ids == ids[..|ids| - 1] + [ids[|ids| - 1]];
    }
  }

  /** The sweep's loop turn: the id at position `kept` of the store is the next to test, and still stored. */
  lemma PruneTurn(ids: seq<string>, i: nat, kept: nat, order: seq<string>, entries0: map<string, Entry>, now: int)
    requires i < |ids| && Tracks(ids, entries0)
    requires kept == |LiveOrder(ids[..i], entries0, now)|
    requires order == LiveOrder(ids[..i], entries0, now) + ids[i..]
    ensures kept < |order| && order[kept] == ids[i]
    ensures var m := SweepMap(entries0, ids[..i], now); ids[i] in m && m[ids[i]] == entries0[ids[i]]
    ensures SweepMap(entries0, ids[..i + 1], now)
            == if Live(entries0, ids[i], now) then SweepMap(entries0, ids[..i], now)
               else SweepMap(entries0, ids[..i], now) - {ids[i]}
    ensures Live(entries0, ids[i], now) ==>
              order == LiveOrder(ids[..i + 1], entries0, now) + ids[i + 1..]
              && kept + 1 == |LiveOrder(ids[..i + 1], entries0, now)|
    ensures !Live(entries0, ids[i], now) ==>
              order[..kept] + order[kept + 1..] == LiveOrder(ids[..i + 1], entries0, now) + ids[i + 1..]
              && kept == |LiveOrder(ids[..i + 1], entries0, now)|
  {
    PruneStep(ids, i, kept, order, entries0, now);
    NotListedEarlier(ids, i);
    SweepMapContents(entries0, ids[..i], now);
    assert ids[..i + 1] == ids[..i] + [ids[i]];
    SweepMapSnoc(entries0, ids[..i], ids[i], now);
  }

  /** In a list without repeats, no id is listed before its own position. */
  lemma NotListedEarlier(ids: seq<string>, i: nat)
    requires Distinct(ids) && i < |ids|
    ensures ids[i] !in ids[..i]
  {
    DistinctIndices(ids);
    forall j | 0 <= j < i ensures ids[..i][j] != ids[i] {
      assert ids[..i][j] == ids[j];
    }
  }

  /** When the sweep's loop ends, the store holds exactly the live entries, still tracked by the order. */
  lemma PruneDone(ids: seq<string>, entries0: map<string, Entry>, now: int)
    requires Tracks(ids, entries0)
    ensures SweepMap(entries0, ids, now) == LiveEntries(entries0, now)
    ensures Tracks(LiveOrder(ids, entries0, now), LiveEntries(entries0, now))
  {
    SweepMapContents(entries0, ids, now);
    LiveOrderMembers(ids, entries0, now);
    LiveOrderDistinct(ids, entries0, now);
  }

  /** A sweep keeps the ids of the live entries, and their entries, and nothing else. */
  lemma SweepKeepsExactlyLive(order: seq<string>, entries: map<string, Entry>, now: int)
    requires forall id :: id in order <==> id in entries
    ensures Restrict(entries, LiveOrder(order, entries, now)) == LiveEntries(entries, now)
  {
    LiveOrderMembers(order, entries, now);
  }

  /** Sweeping at `t1` and then at a later `t2` is one sweep at `t2`; in particular a sweep is idempotent. */
  lemma {:induction false} LaterSweepSubsumes(order: seq<string>, entries: map<string, Entry>, t1: int, t2: int)
    requires t1 <= t2
    ensures LiveOrder(LiveOrder(order, entries, t1), LiveEntries(entries, t1), t2) == LiveOrder(order, entries, t2)
    ensures LiveEntries(LiveEntries(entries, t1), t2) == LiveEntries(entries, t2)
  {
    if order != [] {
      var init, id := order[..|order| - 1], order[|order| - 1];
      LaterSweepSubsumes(init, entries, t1, t2);
      var first := LiveOrder(init, entries, t1);
      if Live(entries, id, t1) {
        assert LiveOrder(order, entries, t1) == first + [id];
        assert (first + [id])[..|first + [id]| - 1] == first;
      }
    }
  }

  /** A sweep keeps the surviving ids in the order they were inserted. */
  lemma {:induction false} SweepKeepsOrder(order: seq<string>, entries: map<string, Entry>, now: int, a: string, b: string)
    requires Distinct(order)
    requires a in LiveOrder(order, entries, now) && b in LiveOrder(order, entries, now)
    ensures Before(LiveOrder(order, entries, now), a, b) <==> Before(order, a, b)
  {
    if order != [] {
      var init, id := order[..|order| - 1], order[|order| - 1];
      assert order == init + [id];
      var rest := LiveOrder(init, entries, now);
      LiveOrderMembers(order, entries, now);
      LiveOrderMembers(init, entries, now);
      LiveOrderDistinct(order, entries, now);
      LiveOrderSnoc(init, id, entries, now);
      if a != id && b != id {
        SweepKeepsOrder(init, entries, now, a, b);
        BeforeSnoc(init, id, a, b);
        if Live(entries, id, now) {
          BeforeSnoc(rest, id, a, b);
        }
      } else {
        assert Live(entries, id, now);
        BeforeLast(order, a, b);
        BeforeLast(rest + [id], a, b);
      }
    }
  }

  /** `a` is stored before `b`. */
  predicate Before(order: seq<string>, a: string, b: string) {
    exists i, j :: 0 <= i < j < |order| && order[i] == a && order[j] == b
  }

  lemma BeforeSnoc(order: seq<string>, x: string, a: string, b: string)
    requires a != x && b != x
    ensures Before(order + [x], a, b) <==> Before(order, a, b)
  {
    var o := order + [x];
    if Before(o, a, b) {
      var i, j :| 0 <= i < j < |o| && o[i] == a && o[j] == b;
      assert j < |order|;
      assert order[i] == a && order[j] == b;
    }
    if Before(order, a, b) {
      var i, j :| 0 <= i < j < |order| && order[i] == a && order[j] == b;
      assert o[i] == a && o[j] == b;
    }
  }

  /** In a list without repeats, the last id comes before nothing and after everything else. */
  lemma BeforeLast(order: seq<string>, a: string, b: string)
    requires Distinct(order) && order != []
    requires a in order && b in order
    requires a == order[|order| - 1] || b == order[|order| - 1]
    ensures Before(order, a, b) <==> a != b && b == order[|order| - 1]
  {
    var n := |order| - 1;
    if Before(order, a, b) {
      var i, j :| 0 <= i < j < |order| && order[i] == a && order[j] == b;
      assert i != n;
      assert a != order[n];
    }
    if a != b && b == order[n] {
      var i :| 0 <= i < |order| && order[i] == a;
      assert i != n;
    }
  }

  // ---- properties of the eviction ----

  /** Within capacity nothing is evicted; over it, exactly the oldest ids go and `max` remain. */
  lemma EvictKeepsNewest(order: seq<string>, max: int)
    ensures |order| <= max ==> Evict(order, max) == order
    ensures |order| > max >= 0 ==> |Evict(order, max)| == max && Evict(order, max) == order[|order| - max..]
    ensures |order| > max && max <= 0 ==> Evict(order, max) == []
  {
  }

  /** Inserting into a store at capacity evicts exactly the oldest id. */
  lemma InsertAtCapacityEvictsOldest(order: seq<string>, id: string, max: int)
    requires |order| == max >= 1
    ensures Evict(order + [id], max) == order[1..] + [id]
  {
    assert (order + [id])[1..] == order[1..] + [id];
  }

  /** With room for at least one session the id just inserted survives, as the newest. */
  lemma InsertedSurvives(order: seq<string>, id: string, max: int)
    requires max >= 1
    ensures var r := Evict(order + [id], max); r != [] && r[|r| - 1] == id
  {
  }

  /** The stored form of an accepted body: `title` and `createdAt` default, `meta` becomes `{}` when missing. */
  function Stored(id: string, body: Body, isoNow: string): (s: StoredSession)
    requires body.steps.Some?
    ensures s.id == id && s.steps == body.steps.value
    ensures s.title == Or(body.title, Reducer.DefaultTitle)
    ensures s.createdAt == Or(body.createdAt, isoNow)
    ensures s.meta == if body.meta.Some? then body.meta.value else map[]
  {
    StoredSession(id, Or(body.title, Reducer.DefaultTitle), Or(body.createdAt, isoNow), body.steps.value,
                  if body.meta.Some? then body.meta.value else map[])
  }

  /** The store's bookkeeping: each id listed once, and the list names exactly the stored ids. */
  ghost predicate Tracks(order: seq<string>, entries: map<string, Entry>) {
    Distinct(order) && forall id :: id in order <==> id in entries
  }

  lemma TracksInsert(order: seq<string>, entries: map<string, Entry>, id: string, e: Entry)
    requires Tracks(order, entries) && id !in entries
    ensures Tracks(order + [id], entries[id := e])
  {
    assert (order + [id])[..|order|] == order;
  }

  /** `m` after deleting each of `ids` in turn. */
  function Without(m: map<string, Entry>, ids: seq<string>): map<string, Entry> {
    if ids == [] then m else Without(m, ids[..|ids| - 1]) - {ids[|ids| - 1]}
  }

  lemma {:induction false} WithoutContents(m: map<string, Entry>, ids: seq<string>)
    ensures forall k :: k in Without(m, ids) <==> k in m && k !in ids
    ensures forall k :: k in Without(m, ids) ==> Without(m, ids)[k] == m[k]
  {
    if ids != [] {
      WithoutContents(m, ids[..|ids| - 1]);
      assert ids == ids[..|ids| - 1] + [ids[|ids| - 1]];
    }
  }

  /** Deleting the first `n` listed ids leaves the entries of the others, still tracked by the rest of the list. */
  lemma EvictDone(order: seq<string>, entries: map<string, Entry>, n: nat)
    requires Tracks(order, entries) && n <= |order|
    ensures Without(entries, order[..n]) == Restrict(entries, order[n..])
    ensures Tracks(order[n..], Without(entries, order[..n]))
  {
    WithoutContents(entries, order[..n]);
    SplitMembers(order, n);
    SuffixDistinct(order, n);
  }

  /** In a list without repeats, an id lies after position `n` exactly when it is listed but not before `n`. */
  lemma SplitMembers(order: seq<string>, n: nat)
    requires Distinct(order) && n <= |order|
    ensures forall k :: k in order[n..] <==> k in order && k !in order[..n]
  {
    DistinctIndices(order);
    forall k ensures k in order[n..] <==> k in order && k !in order[..n] {
      if k in order[n..] {
        var j :| 0 <= j < |order| - n && order[n..][j] == k;
        forall i | 0 <= i < n ensures order[..n][i] != k {
          assert order[n + j] == k;
        }
      }
      if k in order && k !in order[..n] {
        var j :| 0 <= j < |order| && order[j] == k;
        assert order[n..][j - n] == k;
      }
    }
  }

  lemma SuffixDistinct(order: seq<string>, n: nat)
    requires Distinct(order) && n <= |order|
    ensures Distinct(order[n..])
  {
    DistinctIndices(order);
    var rest := order[n..];
    forall i, j | 0 <= i < j < |rest| ensures rest[i] != rest[j] {
      assert rest[i] == order[n + i] && rest[j] == order[n + j];
    }
    DistinctIndices(rest);
  }

  lemma RestrictAll(m: map<string, Entry>, order: seq<string>)
    requires forall id :: id in order <==> id in m
    ensures Restrict(m, order) == m
  {
  }

  /** The module-level `store` with its settings. */
  class SessionStore {
    var order: seq<string>
    var entries: map<string, Entry>
    const ttlSeconds: int
    const maxSessions: int

    ghost predicate Valid()
      reads this
    {
      Tracks(order, entries)
    }

    constructor (ttlSeconds: int, maxSessions: int)
      ensures Valid()
      ensures order == [] && entries == map[]
      ensures this.ttlSeconds == ttlSeconds && this.maxSessions == maxSessions
    {
      order := [];
      entries := map[];
      this.ttlSeconds := ttlSeconds;
      this.maxSessions := maxSessions;
    }

    /** The store as the server starts it when the environment sets neither setting. */
    constructor WithDefaults()
      ensures Valid()
      ensures order == [] && entries == map[]
      ensures ttlSeconds == DefaultTtlSeconds && maxSessions == DefaultMaxSessions
    {
      order := [];
      entries := map[];
      ttlSeconds := DefaultTtlSeconds;
      maxSessions := DefaultMaxSessions;
    }

    /** pruneExpired: delete, in insertion order, every entry with `expiresAt <= now`. */
    method PruneExpired(now: int)
      requires Valid()
      modifies this
      ensures Valid()
      ensures order == LiveOrder(old(order), old(entries), now)
      ensures entries == LiveEntries(old(entries), now)
    {
      ghost var entries0 := entries;
      var ids := order;
      assert Tracks(ids, entries0);
      var kept := 0;
      for i := 0 to |ids|
        invariant kept == |LiveOrder(ids[..i], entries0, now)|
        invariant order == LiveOrder(ids[..i], entries0, now) + ids[i..]
        invariant entries == SweepMap(entries0, ids[..i], now)
      {
        var id := ids[i];
        PruneTurn(ids, i, kept, order, entries0, now);
        if entries[id].expiresAt <= now {
          var rest := order[..kept] + order[kept + 1..];
          entries := entries - {id};
          order := rest;
        } else {
          kept := kept + 1;
        }
      }
      assert ids[..|ids|] == ids && ids[|ids|..] == [];
      assert order == LiveOrder(ids, entries0, now) + [];
      assert order == LiveOrder(ids, entries0, now);
      PruneDone(ids, entries0, now);
      assert entries == SweepMap(entries0, ids, now);
      assert Tracks(order, entries);
    }

    /** enforceMaxSessions: over capacity, delete the oldest ids until `maxSessions` remain. */
    method EnforceMaxSessions()
      requires Valid()
      modifies this
      ensures Valid()
      ensures order == Evict(old(order), maxSessions)
      ensures entries == Restrict(old(entries), order)
    {
      if |order| <= maxSessions {
        RestrictAll(entries, order);
        assert entries == Restrict(entries, order);
        return;
      }
      ghost var order0, entries0 := order, entries;
      var overflow := |order| - maxSessions;
      var removed := 0;
      while order != []
        invariant 0 <= removed < overflow && removed <= |order0|
        invariant order == order0[removed..]
        invariant entries == Without(entries0, order0[..removed])
        decreases |order|
      {
        var key := order[0];
        assert order0[..removed + 1] == order0[..removed] + [key];
        assert order[1..] == order0[removed + 1..];
        entries := entries - {key};
        order := order[1..];
        removed := removed + 1;
        if removed >= overflow {
          break;
        }
      }
      assert removed == overflow || order == [];
      EvictDone(order0, entries0, removed);
    }

    /**
     * The POST handler: without an array of steps, 400 and nothing stored; otherwise the
     * session is stored under the fresh id, to expire `ttlSeconds` from `now`, and the
     * oldest sessions are evicted down to capacity.
     */
    method PostSession(body: Option<Body>, id: string, now: int, isoNow: string) returns (r: PostResult)
      requires Valid() && id !in entries
      modifies this
      ensures Valid()
      ensures (body.None? || body.value.steps.None?) ==>
                r == BadRequest("Missing steps[]") && order == old(order) && entries == old(entries)
      ensures body.Some? && body.value.steps.Some? ==>
                && r == Created(id, ttlSeconds)
                && order == Evict(old(order) + [id], maxSessions)
                && entries == Restrict(old(entries)[id := Entry(Stored(id, body.value, isoNow), now + ttlSeconds * 1000)], order)
      ensures body.Some? && body.value.steps.Some? && maxSessions >= 1 ==>
                id in entries && entries[id] == Entry(Stored(id, body.value, isoNow), now + ttlSeconds * 1000)
    {
      if body.None? || body.value.steps.None? {
        return BadRequest("Missing steps[]");
      }
      var b := body.value;
      var createdAt := Or(b.createdAt, isoNow);
      var expiresAt := now + ttlSeconds * 1000;
      var session := StoredSession(id, Or(b.title, Reducer.DefaultTitle), createdAt, b.steps.value,
                                   if b.meta.Some? then b.meta.value else map[]);
      assert session == Stored(id, b, isoNow);
      TracksInsert(order, entries, id, Entry(session, expiresAt));
      var inserted := entries[id := Entry(session, expiresAt)];
      var appended := order + [id];
      assert inserted == old(entries)[id := Entry(Stored(id, body.value, isoNow), now + ttlSeconds * 1000)];
      entries := inserted;
      order := appended;
      EnforceMaxSessions();
      assert entries == Restrict(inserted, order);
      if maxSessions >= 1 {
        InsertedSurvives(old(order), id, maxSessions);
      }
      r := Created(id, ttlSeconds);
    }

    /** The GET handler: sweep, then look the id up; `None` is the 404. */
    method GetSession(id: string, now: int) returns (r: Option<StoredSession>)
      requires Valid()
      modifies this
      ensures Valid()
      ensures order == LiveOrder(old(order), old(entries), now)
      ensures entries == LiveEntries(old(entries), now)
      ensures r == if Live(old(entries), id, now) then Some(old(entries)[id].data) else None
    {
      PruneExpired(now);
      if id in entries {
        r := Some(entries[id].data);
      } else {
        r := None;
      }
    }
  }
}
