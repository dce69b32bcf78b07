/** `FailureThrottle` of src/security_throttle.py: failure windows per key in a bounded, recency-ordered table, set
    against the whole history of calls. Keys stand for their digests, which are taken to be injective, and the clock
    values are taken to be non-decreasing in the order in which the calls hold the lock. */
module Throttle {
  import opened Sequences

  datatype Key = Digest(bytes: int)

  datatype Entry = Entry(count: nat, started: real)

  /** The OrderedDict: its keys from least to most recently touched, and their values. */
  datatype Table = Table(order: seq<Key>, entries: map<Key, Entry>)

  datatype Config = Config(limit: nat, window: nat, maxEntries: nat) {
    /** What the constructor establishes. */
    predicate Valid() {
      1 <= limit && 1 <= window && 1 <= maxEntries
    }
  }

  const EMPTY := Table([], map[])

  // ---------------------------------------------------------------------------------------------
  // The operations
  // ---------------------------------------------------------------------------------------------

  function Without(order: seq<Key>, k: Key): seq<Key> {
    if k in order then order[..IndexOf(order, k)] + order[IndexOf(order, k) + 1..] else order
  }

  function MoveToEnd(order: seq<Key>, k: Key): seq<Key> {
    Without(order, k) + [k]
  }

  function Delete(t: Table, k: Key): Table {
    Table(Without(t.order, k), t.entries - {k})
  }

  function Remaining(cfg: Config, e: Entry, now: real): real {
    e.started + cfg.window as real - now
  }

  /** `max(1, int(remaining + 0.999))` */
  function Seconds(remaining: real): int {
    var rounded := (remaining + 0.999).Floor;
    if rounded >= 1 then rounded else 1
  }

  /** The answer of `retry_after` for an entry, if there is one. */
  function Answer(cfg: Config, e: Option<Entry>, now: real): int {
    if e.None? || Remaining(cfg, e.value, now) <= 0.0 || e.value.count < cfg.limit then 0
    else Seconds(Remaining(cfg, e.value, now))
  }

  /** Whether a look-up at `now` finds a window that is still open. */
  predicate IsOpen(cfg: Config, entries: map<Key, Entry>, k: Key, now: real) {
    k in entries && Remaining(cfg, entries[k], now) > 0.0
  }

  function AfterQuery(cfg: Config, t: Table, k: Key, now: real): Table {
    if k !in t.entries then t
    else if IsOpen(cfg, t.entries, k, now) then t.(order := MoveToEnd(t.order, k))
    else Delete(t, k)
  }

  function Counted(cfg: Config, entries: map<Key, Entry>, k: Key, now: real): Entry {
    if IsOpen(cfg, entries, k, now) then entries[k].(count := entries[k].count + 1) else Entry(1, now)
  }

  function Inserted(cfg: Config, t: Table, k: Key, now: real): Table {
    Table(MoveToEnd(t.order, k), t.entries[k := Counted(cfg, t.entries, k, now)])
  }

  function Evicted(t: Table, max: nat): Table
    decreases |t.order|
  {
    if |t.order| <= max then t else Evicted(Table(t.order[1..], t.entries - {t.order[0]}), max)
  }

  function AfterFail(cfg: Config, t: Table, k: Key, now: real): Table {
    Evicted(Inserted(cfg, t, k, now), cfg.maxEntries)
  }

  class FailureThrottle {
    const limit: nat
    const windowSeconds: nat
    const maxEntries: nat
    var order: seq<Key>
    var entries: map<Key, Entry>

    function Cfg(): Config {
      Config(limit, windowSeconds, maxEntries)
    }

    function View(): Table
      reads this
    {
      Table(order, entries)
    }

    constructor (limit: int, windowSeconds: int, maxEntries: int)
      ensures View() == EMPTY && Cfg().Valid()
      ensures Cfg() == Config(Max(limit, 1), Max(windowSeconds, 1), Max(maxEntries, 1))
    {
      this.limit := if limit >= 1 then limit else 1;
      this.windowSeconds := if windowSeconds >= 1 then windowSeconds else 1;
      this.maxEntries := if maxEntries >= 1 then maxEntries else 1;
      order, entries := [], map[];
    }

    method RetryAfter(k: Key, now: real) returns (seconds: int)
      modifies this
      ensures seconds == Answer(Cfg(), Lookup(old(entries), k), now)
      ensures View() == AfterQuery(Cfg(), old(View()), k, now)
    {
      if k !in entries {
        return 0;
      }
      var e := entries[k];
      var remaining := e.started + windowSeconds as real - now;
      if remaining <= 0.0 {
        order, entries := Without(order, k), entries - {k};
        return 0;
      }
      order := MoveToEnd(order, k);
      if e.count >= limit {
        var rounded := (remaining + 0.999).Floor;
        return if rounded >= 1 then rounded else 1;
      }
      return 0;
    }

    method Fail(k: Key, now: real)
      modifies this
      ensures View() == AfterFail(Cfg(), old(View()), k, now)
    {
      if k !in entries || now - entries[k].started >= windowSeconds as real {
        entries := entries[k := Entry(1, now)];
      } else {
        entries := entries[k := Entry(entries[k].count + 1, entries[k].started)];
      }
      order := MoveToEnd(order, k);
      while |order| > maxEntries
        invariant AfterFail(Cfg(), old(View()), k, now) == Evicted(View(), maxEntries)
        decreases |order|
      {
        order, entries := order[1..], entries - {order[0]};
      }
    }

    method Reset(k: Key)
      modifies this
      ensures View() == Delete(old(View()), k)
    {
      order, entries := Without(order, k), entries - {k};
    }
  }

  // ---------------------------------------------------------------------------------------------
  // Histories
  // ---------------------------------------------------------------------------------------------

  datatype Call = Failed(key: Key, now: real) | Asked(key: Key, now: real) | Forgiven(key: Key, now: real)

  function After(cfg: Config, t: Table, c: Call): Table {
    match c
    case Failed(k, now) => AfterFail(cfg, t, k, now)
    case Asked(k, now) => AfterQuery(cfg, t, k, now)
    case Forgiven(k, _) => Delete(t, k)
  }

  function TableAfter(cfg: Config, calls: seq<Call>): Table {
    if calls == [] then EMPTY else After(cfg, TableAfter(cfg, Front(calls)), Last(calls))
  }

  /** The calls happened in order, none after `now`. */
  predicate InOrder(calls: seq<Call>, now: real) {
    calls == [] || (Last(calls).now <= now && InOrder(Front(calls), Last(calls).now))
  }

  /** Failures of `k` later than `since`, counted back to the last reset of `k`. */
  function RecentFailures(calls: seq<Call>, k: Key, since: real): nat {
    if calls == [] || (Last(calls).Forgiven? && Last(calls).key == k) then 0
    else
      var failure := Last(calls).Failed? && Last(calls).key == k && Last(calls).now > since;
      RecentFailures(Front(calls), k, since) + (if failure then 1 else 0)
  }

  // ---------------------------------------------------------------------------------------------
  // Every block is justified
  // ---------------------------------------------------------------------------------------------

  /** An entry's window began in the past, and it counts only failures that really happened since it began. */
  predicate Honest(calls: seq<Call>, k: Key, e: Entry, now: real, since: real) {
    e.started <= now && (since < e.started ==> e.count <= RecentFailures(calls, k, since))
  }

  lemma EvictedKeeps(t: Table, max: nat, k: Key)
    ensures k in Evicted(t, max).entries ==> k in t.entries && Evicted(t, max).entries[k] == t.entries[k]
    decreases |t.order|
  {
  }

  lemma {:induction false} EntriesAreHonest(cfg: Config, calls: seq<Call>, now: real, k: Key, since: real)
    requires InOrder(calls, now) && k in TableAfter(cfg, calls).entries
    ensures Honest(calls, k, TableAfter(cfg, calls).entries[k], now, since)
  {
    var before, c := TableAfter(cfg, Front(calls)), Last(calls);
    if k in before.entries {
      EntriesAreHonest(cfg, Front(calls), c.now, k, since);
    }
    if c.Failed? {
      EvictedKeeps(Inserted(cfg, before, c.key, c.now), cfg.maxEntries, k);
    }
  }

  /** A positive answer means: at least `limit` failures of the key within the last window with no reset since, and a
      wait between one second and the whole window. */
  lemma BlocksAreJustified(cfg: Config, calls: seq<Call>, k: Key, now: real)
    requires cfg.Valid() && InOrder(calls, now)
    ensures
      var answer := Answer(cfg, Lookup(TableAfter(cfg, calls).entries, k), now);
      answer > 0 ==>
        && 1 <= answer <= cfg.window
        && RecentFailures(calls, k, now - cfg.window as real) >= cfg.limit
  {
    if k in TableAfter(cfg, calls).entries {
      EntriesAreHonest(cfg, calls, now, k, now - cfg.window as real);
    }
  }

  // ---------------------------------------------------------------------------------------------
  // Without evictions: a plain map of windows
  // ---------------------------------------------------------------------------------------------

  /** The reference: one window per key, no bound, no order, nothing deleted because it expired. */
  function PlainAfter(cfg: Config, calls: seq<Call>): map<Key, Entry> {
    if calls == [] then map[] else
      var before, c := PlainAfter(cfg, Front(calls)), Last(calls);
      match c
      case Failed(k, now) => before[k := Counted(cfg, before, k, now)]
      case Asked(_, _) => before
      case Forgiven(k, _) => before - {k}
  }

  predicate Evicts(cfg: Config, t: Table, c: Call) {
    c.Failed? && |Inserted(cfg, t, c.key, c.now).order| > cfg.maxEntries
  }

  predicate NoEvictions(cfg: Config, calls: seq<Call>) {
    calls == [] || (NoEvictions(cfg, Front(calls)) && !Evicts(cfg, TableAfter(cfg, Front(calls)), Last(calls)))
  }

  /** The table agrees with the reference, up to windows that have closed by `now`. */
  predicate Agree(cfg: Config, entries: map<Key, Entry>, plain: map<Key, Entry>, k: Key, now: real) {
    Lookup(entries, k) == Lookup(plain, k) || (k !in entries && !IsOpen(cfg, plain, k, now))
  }

  lemma {:induction false} AgreesWithPlain(cfg: Config, calls: seq<Call>, k: Key, now: real)
    requires InOrder(calls, now) && NoEvictions(cfg, calls)
    ensures Agree(cfg, TableAfter(cfg, calls).entries, PlainAfter(cfg, calls), k, now)
  {
    if calls != [] {
      AgreesWithPlain(cfg, Front(calls), k, Last(calls).now);
    }
  }

  /** As long as nothing is evicted, every answer is that of the plain map. */
  lemma AnswersArePlain(cfg: Config, calls: seq<Call>, k: Key, now: real)
    requires InOrder(calls, now) && NoEvictions(cfg, calls)
    ensures Answer(cfg, Lookup(TableAfter(cfg, calls).entries, k), now) ==
            Answer(cfg, Lookup(PlainAfter(cfg, calls), k), now)
  {
    AgreesWithPlain(cfg, calls, k, now);
  }

  // ---------------------------------------------------------------------------------------------
  // The answer from the history alone
  // ---------------------------------------------------------------------------------------------

  /** When the key failed since it was last reset. */
  function FailureTimes(calls: seq<Call>, k: Key): seq<real> {
    if calls == [] then []
    else if Last(calls).key != k || Last(calls).Asked? then FailureTimes(Front(calls), k)
    else if Last(calls).Forgiven? then []
    else FailureTimes(Front(calls), k) + [Last(calls).now]
  }

  /** `ws` cuts the failures into windows: each holds those less than `window` after its first, and the next begins with
      the first failure that comes later. */
  ghost predicate Windows(times: seq<real>, ws: seq<seq<real>>, window: nat) {
    Flatten(ws) == times && InWindows(ws, window)
  }

  ghost predicate InWindows(ws: seq<seq<real>>, window: nat) {
    && (forall j :: 0 <= j < |ws| ==> IsWindow(ws[j], window))
    && (forall j :: 0 < j < |ws| ==> ws[j][0] >= ws[j - 1][0] + window as real)
  }

  ghost predicate IsWindow(w: seq<real>, window: nat) {
    w != [] && forall t :: t in w ==> t < w[0] + window as real
  }

  /** Every history has its windows. */
  lemma {:induction false} WindowsExist(times: seq<real>, window: nat) returns (ws: seq<seq<real>>)
    requires window >= 1
    ensures Windows(times, ws, window)
  {
    ws := [];
    if times != [] {
      ws := WindowsExist(Front(times), window);
      var t := Last(times);
      assert Front(times) + [t] == times;
      if ws == [] || t >= Last(ws)[0] + window as real {
        FlattenSnoc(ws, [t]);
        OneMoreWindow(ws, [t], window);
        ws := ws + [[t]];
      } else {
        var before, longer := Front(ws), Last(ws) + [t];
        WindowsWithoutLast(ws, window);
        FlattenSnoc(before, longer);
        assert Flatten(ws) == Flatten(before) + Last(ws);
        assert Flatten(before) + longer == Flatten(ws) + [t];
        OneMoreWindow(before, longer, window);
        ws := before + [longer];
      }
    }
  }

  lemma OneMoreWindow(ws: seq<seq<real>>, w: seq<real>, window: nat)
    requires InWindows(ws, window) && IsWindow(w, window)
    requires ws == [] || (Last(ws) != [] && w[0] >= Last(ws)[0] + window as real)
    ensures InWindows(ws + [w], window)
  {
    hide IsWindow;
    var more := ws + [w];
    forall j | 0 <= j < |more|
      ensures IsWindow(more[j], window)
    {
      assert j < |ws| ==> more[j] == ws[j];
    }
  }

  lemma WindowsWithoutLast(ws: seq<seq<real>>, window: nat)
    requires ws != [] && InWindows(ws, window)
    ensures Last(ws) != [] && InWindows(Front(ws), window) && (|ws| > 1 ==> Last(Front(ws)) != [])
    ensures |Last(ws)| > 1 ==> InWindows(Front(ws) + [Front(Last(ws))], window)
  {
    var last := Last(ws);
    assert IsWindow(ws[|ws| - 1], window);
    assert |ws| > 1 ==> IsWindow(ws[|ws| - 2], window);
    if |last| > 1 {
      assert forall t :: t in Front(last) ==> t in last;
      assert IsWindow(Front(last), window);
    }
  }

  /** The windows without the last failure. */
  lemma WindowsFront(times: seq<real>, ws: seq<seq<real>>, window: nat) returns (before: seq<seq<real>>)
    requires times != [] && Windows(times, ws, window)
    ensures ws != [] && Last(ws) != [] && Last(Last(ws)) == Last(times)
    ensures Windows(Front(times), before, window) && (before != [] ==> Last(before) != [])
    ensures before == if |Last(ws)| == 1 then Front(ws) else Front(ws) + [Front(Last(ws))]
  {
    assert ws != [] && Flatten(ws) == Flatten(Front(ws)) + Last(ws);
    WindowsWithoutLast(ws, window);
    hide InWindows, IsWindow, Flatten;
    FrontOfAppend(Flatten(Front(ws)), Last(ws));
    FlattenSnoc(Front(ws), Front(Last(ws)));
    before := if |Last(ws)| == 1 then Front(ws) else Front(ws) + [Front(Last(ws))];
    assert |Last(ws)| == 1 ==> Flatten(Front(ws)) + Front(Last(ws)) == Flatten(Front(ws));
  }

  lemma FrontOfAppend(a: seq<real>, b: seq<real>)
    requires b != []
    ensures Front(a + b) == a + Front(b) && Last(a + b) == Last(b)
  {
  }

  /** The plain map holds the last window of every key that failed since its last reset. */
  lemma {:induction false} PlainIsLastWindow(cfg: Config, calls: seq<Call>, k: Key, ws: seq<seq<real>>)
    requires cfg.Valid() && Windows(FailureTimes(calls, k), ws, cfg.window)
    ensures Lookup(PlainAfter(cfg, calls), k) == if ws == [] then None else Some(Entry(|Last(ws)|, Last(ws)[0]))
  {
    hide InWindows, Flatten, Counted;
    if calls != [] {
      var c, times := Last(calls), FailureTimes(calls, k);
      if c.Failed? && c.key == k {
        assert Front(times) == FailureTimes(Front(calls), k);
        var before := WindowsFront(times, ws, cfg.window);
        PlainIsLastWindow(cfg, Front(calls), k, before);
        CountedInWindow(cfg, PlainAfter(cfg, Front(calls)), k, c.now, ws);
      } else if !(c.Forgiven? && c.key == k) {
        PlainIsLastWindow(cfg, Front(calls), k, ws);
      } else {
        NoWindows(ws, cfg.window);
      }
    } else {
      NoWindows(ws, cfg.window);
    }
  }

  /** Counting one more failure is right if the entry was right for the failures before it. */
  lemma CountedInWindow(cfg: Config, entries: map<Key, Entry>, k: Key, now: real, ws: seq<seq<real>>)
    requires ws != [] && InWindows(ws, cfg.window) && Last(ws) != [] && Last(Last(ws)) == now
    requires
      var before := if |Last(ws)| == 1 then Front(ws) else Front(ws) + [Front(Last(ws))];
      && (before != [] ==> Last(before) != [])
      && Lookup(entries, k) == if before == [] then None else Some(Entry(|Last(before)|, Last(before)[0]))
    ensures Counted(cfg, entries, k, now) == Entry(|Last(ws)|, Last(ws)[0])
  {
    assert IsWindow(ws[|ws| - 1], cfg.window);
    assert Last(Last(ws)) in Last(ws);
  }

  lemma NoWindows(ws: seq<seq<real>>, window: nat)
    requires Windows([], ws, window)
    ensures ws == []
  {
  }

  /** Without evictions, blocking is decided by the calls: the key is blocked exactly when the last window of its
      failures is still open and holds at least `limit` of them. The answer is the time left, rounded up to whole
      seconds except that up to a thousandth is forgiven, and at least one. */
  lemma AnswerFromHistory(cfg: Config, calls: seq<Call>, k: Key, now: real, ws: seq<seq<real>>)
    requires cfg.Valid() && InOrder(calls, now) && NoEvictions(cfg, calls)
    requires Windows(FailureTimes(calls, k), ws, cfg.window)
    ensures
      var answer := Answer(cfg, Lookup(TableAfter(cfg, calls).entries, k), now);
      && answer >= 0
      && (ws == [] ==> answer == 0)
      && (ws != [] ==>
          var left := Last(ws)[0] + cfg.window as real - now;
          && (answer > 0 <==> left > 0.0 && |Last(ws)| >= cfg.limit)
          && (answer > 0 ==> left - 0.001 < answer as real && (answer == 1 || answer as real - 0.999 <= left)))
  {
    AnswersArePlain(cfg, calls, k, now);
    PlainIsLastWindow(cfg, calls, k, ws);
  }

  /** After a query the key is gone if its window has closed, and otherwise kept, as the most recently touched. */
  lemma AskedMeans(cfg: Config, calls: seq<Call>, k: Key, now: real)
    requires k in TableAfter(cfg, calls).entries
    ensures
      var before, after := TableAfter(cfg, calls), TableAfter(cfg, calls + [Asked(k, now)]);
      if before.entries[k].started + cfg.window as real <= now then after.entries == before.entries - {k}
      else after.entries == before.entries && after.order != [] && Last(after.order) == k
  {
    assert Front(calls + [Asked(k, now)]) == calls;
  }

  // ---------------------------------------------------------------------------------------------
  // Recency and capacity
  // ---------------------------------------------------------------------------------------------

  /** A failure touches its key; a query touches it when it finds an open window. */
  predicate Touches(cfg: Config, t: Table, c: Call) {
    c.Failed? || (c.Asked? && IsOpen(cfg, t.entries, c.key, c.now))
  }

  /** The keys touched by the calls, oldest touch first. */
  function TouchLog(cfg: Config, calls: seq<Call>): seq<Key> {
    if calls == [] then [] else
      var touched := Touches(cfg, TableAfter(cfg, Front(calls)), Last(calls));
      TouchLog(cfg, Front(calls)) + (if touched then [Last(calls).key] else [])
  }

  function LastTouch(log: seq<Key>, k: Key): (i: int)
    ensures -1 <= i < |log|
  {
    if log == [] then -1
    else if Last(log) == k then |log| - 1
    else LastTouch(Front(log), k)
  }

  lemma {:induction false} LastTouchIsLast(log: seq<Key>, k: Key)
    ensures
      var i := LastTouch(log, k);
      (i >= 0 ==> log[i] == k) && forall j :: i < j < |log| ==> log[j] != k
  {
    if log != [] && Last(log) != k {
      LastTouchIsLast(Front(log), k);
      assert forall j :: 0 <= j < |log| - 1 ==> Front(log)[j] == log[j];
    }
  }

  /** The table's order is the order of the last touches. */
  ghost predicate ByRecency(order: seq<Key>, log: seq<Key>) {
    && (forall i :: 0 <= i < |order| ==> 0 <= LastTouch(log, order[i]))
    && (forall i, j :: 0 <= i < j < |order| ==> LastTouch(log, order[i]) < LastTouch(log, order[j]))
  }

  ghost predicate SameKeys(t: Table) {
    forall k :: k in t.order <==> k in t.entries
  }

  lemma TouchOne(log: seq<Key>, k: Key, other: Key)
    ensures LastTouch(log + [k], other) == if other == k then |log| else LastTouch(log, other)
  {
    assert Front(log + [k]) == log;
  }

  lemma WithoutKeepsRecency(order: seq<Key>, log: seq<Key>, k: Key)
    requires ByRecency(order, log)
    ensures ByRecency(Without(order, k), log) && forall x :: x in Without(order, k) <==> x in order && x != k
    ensures |Without(order, k)| == |order| - if k in order then 1 else 0
  {
    hide LastTouch;
    if k in order {
      var at := IndexOf(order, k);
      assert order == order[..at] + [k] + order[at + 1..];
      assert forall i :: at < i < |order| ==> order[i] != k;
    }
  }

  lemma MoveKeepsRecency(order: seq<Key>, log: seq<Key>, k: Key)
    requires ByRecency(order, log)
    ensures ByRecency(MoveToEnd(order, k), log + [k])
    ensures forall x :: x in MoveToEnd(order, k) <==> x in order || x == k
    ensures |MoveToEnd(order, k)| == |order| + if k in order then 0 else 1
  {
    hide LastTouch, Without;
    WithoutKeepsRecency(order, log, k);
    var rest := Without(order, k);
    forall x | x in rest + [k]
      ensures LastTouch(log + [k], x) == (if x == k then |log| else LastTouch(log, x)) && LastTouch(log, x) < |log|
    {
      TouchOne(log, k, x);
      LastTouchIsLast(log, x);
    }
    assert forall i :: 0 <= i < |rest| ==> (rest + [k])[i] == rest[i] && rest[i] in rest;
    assert forall i :: 0 <= i < |rest| ==> LastTouch(log + [k], rest[i]) == LastTouch(log, rest[i]) < |log|;
  }

  /** At most one entry has to go, and it is the least recently touched. */
  lemma EvictsTheOldest(t: Table, max: nat, log: seq<Key>)
    requires SameKeys(t) && ByRecency(t.order, log) && |t.order| <= max + 1
    ensures
      var e := Evicted(t, max);
      && SameKeys(e) && ByRecency(e.order, log) && |e.order| <= max
      && e == if |t.order| <= max then t else Table(t.order[1..], t.entries - {t.order[0]})
  {
    if |t.order| > max {
      var rest := Table(t.order[1..], t.entries - {t.order[0]});
      assert Evicted(rest, max) == rest;
      assert t.order == [t.order[0]] + t.order[1..];
      assert forall i :: 1 <= i < |t.order| ==> t.order[i] != t.order[0];
    }
  }

  ghost predicate Ordered(cfg: Config, t: Table, log: seq<Key>) {
    SameKeys(t) && ByRecency(t.order, log) && |t.order| <= cfg.maxEntries
  }

  lemma CallKeepsOrder(cfg: Config, t: Table, c: Call, log: seq<Key>)
    requires Ordered(cfg, t, log)
    ensures Ordered(cfg, After(cfg, t, c), log + if Touches(cfg, t, c) then [c.key] else [])
  {
    hide LastTouch, Without, MoveToEnd, Evicted;
    if c.Failed? {
      MoveKeepsRecency(t.order, log, c.key);
      EvictsTheOldest(Inserted(cfg, t, c.key, c.now), cfg.maxEntries, log + [c.key]);
    } else {
      assert log + [] == log;
      WithoutKeepsRecency(t.order, log, c.key);
      MoveKeepsRecency(t.order, log, c.key);
    }
  }

  /** After any calls the table holds at most `maxEntries` keys, from the least to the most recently touched. */
  lemma {:induction false} TableIsBoundedAndOrdered(cfg: Config, calls: seq<Call>)
    ensures Ordered(cfg, TableAfter(cfg, calls), TouchLog(cfg, calls))
  {
    hide Ordered, After;
    if calls == [] {
      EmptyIsOrdered(cfg);
    } else {
      TableIsBoundedAndOrdered(cfg, Front(calls));
      CallKeepsOrder(cfg, TableAfter(cfg, Front(calls)), Last(calls), TouchLog(cfg, Front(calls)));
    }
  }

  lemma EmptyIsOrdered(cfg: Config)
    ensures Ordered(cfg, EMPTY, [])
  {
  }

  /** The other keys touched since `k` was last touched. */
  function TouchedSince(log: seq<Key>, k: Key): set<Key> {
    KeySet(log[LastTouch(log, k) + 1..])
  }

  function KeySet(keys: seq<Key>): set<Key> {
    set k | k in keys
  }

  lemma {:induction false} DistinctKeys(order: seq<Key>, log: seq<Key>)
    requires ByRecency(order, log)
    ensures |KeySet(order)| == |order|
  {
    hide LastTouch;
    if order != [] {
      DistinctKeys(Front(order), log);
      assert KeySet(order) == KeySet(Front(order)) + {Last(order)};
    }
  }

  /** A key is lost to capacity only when at least `maxEntries` other keys were touched since it was touched itself. */
  lemma EvictionNeedsManyOthers(cfg: Config, calls: seq<Call>, c: Call, k: Key)
    requires cfg.Valid() && c.Failed? && c.key != k
    requires k in TableAfter(cfg, calls).entries && k !in TableAfter(cfg, calls + [c]).entries
    ensures
      var log := TouchLog(cfg, calls + [c]);
      k in log && k !in TouchedSince(log, k) && |TouchedSince(log, k)| >= cfg.maxEntries
  {
    hide Evicted, LastTouch, TouchedSince, Without, MoveToEnd;
    var t := TableAfter(cfg, calls);
    assert Front(calls + [c]) == calls;
    assert TouchLog(cfg, calls + [c]) == TouchLog(cfg, calls) + [c.key];
    TableIsBoundedAndOrdered(cfg, calls);
    WhoIsEvicted(cfg, t, c, k, TouchLog(cfg, calls));
    LaterThanTheOldest(MoveToEnd(t.order, c.key), TouchLog(cfg, calls) + [c.key]);
  }

  lemma WhoIsEvicted(cfg: Config, t: Table, c: Call, k: Key, log: seq<Key>)
    requires cfg.Valid() && c.Failed? && c.key != k && Ordered(cfg, t, log)
    requires k in t.entries && k !in After(cfg, t, c).entries
    ensures
      var order := MoveToEnd(t.order, c.key);
      ByRecency(order, log + [c.key]) && |order| == cfg.maxEntries + 1 && order[0] == k
  {
    hide Evicted, LastTouch, Without, MoveToEnd;
    MoveKeepsRecency(t.order, log, c.key);
    EvictsTheOldest(Inserted(cfg, t, c.key, c.now), cfg.maxEntries, log + [c.key]);
  }

  lemma LaterThanTheOldest(order: seq<Key>, log: seq<Key>)
    requires order != [] && ByRecency(order, log)
    ensures
      var later := TouchedSince(log, order[0]);
      order[0] in log && order[0] !in later && |later| >= |order| - 1
  {
    hide LastTouch;
    LastTouchIsLast(log, order[0]);
    var at, rest := LastTouch(log, order[0]), order[1..];
    var later := TouchedSince(log, order[0]);
    forall x | x in rest
      ensures x in later
    {
      var j :| 1 <= j < |order| && order[j] == x;
      LastTouchIsLast(log, x);
      assert log[at + 1..][LastTouch(log, x) - at - 1] == x;
    }
    assert ByRecency(rest, log);
    DistinctKeys(rest, log);
    SubsetSize(KeySet(rest), later);
  }

  function FailedKeys(calls: seq<Call>): set<Key> {
    set c | c in calls && c.Failed? :: c.key
  }

  /** A condition on the calls alone under which nothing is ever evicted. */
  lemma {:induction false} FewKeysMeanNoEvictions(cfg: Config, calls: seq<Call>)
    requires |FailedKeys(calls)| <= cfg.maxEntries
    ensures NoEvictions(cfg, calls) && TableAfter(cfg, calls).entries.Keys <= FailedKeys(calls)
  {
    if calls != [] {
      var before, c := Front(calls), Last(calls);
      assert FailedKeys(before) <= FailedKeys(calls);
      SubsetSize(FailedKeys(before), FailedKeys(calls));
      FewKeysMeanNoEvictions(cfg, before);
      var t := TableAfter(cfg, before);
      if c.Failed? {
        TableIsBoundedAndOrdered(cfg, before);
        MoveKeepsRecency(t.order, TouchLog(cfg, before), c.key);
        var order := MoveToEnd(t.order, c.key);
        DistinctKeys(order, TouchLog(cfg, before) + [c.key]);
        assert c in calls;
        assert KeySet(order) <= FailedKeys(calls);
        SubsetSize(KeySet(order), FailedKeys(calls));
      }
    }
  }
}
