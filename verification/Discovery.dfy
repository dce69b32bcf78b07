/** Reconciling the `models` table with what the providers report: `run_discovery` of src/discover.py and
    `mark_models_not_seen` of src/db.py. Discovery only queues writes; the table is what they make of it, in order. */
module Discovery {
  import opened Sequences

  /** Columns discovery never touches on a row that exists. */
  datatype History = History(
    consecutiveFailures: int,
    backoffLevel: int,
    cooldownUntil: Option<int>,
    compositeScore: real,
    discoveredAt: int)

  /** `info` stands for the columns copied from the report: name, capabilities, ranks and so on. */
  datatype Row = Row(provider: string, isActive: bool, isHealthy: bool, lastSeenAt: int, info: string, history: History)

  type Table = map<string, Row>

  datatype Model = Model(id: string, provider: string, isHealthy: bool, info: string)

  /** A provider and the outcome of its `discover_models`; `None` is an exception. */
  datatype Provider = Provider(name: string, outcome: Option<seq<Model>>)

  datatype Write = Upsert(m: Model, now: int) | MarkNotSeen(provider: string, seen: seq<string>)

  function FreshHistory(now: int): History {
    History(0, 0, None, 0.0, now)
  }

  /** The row after `INSERT ... ON CONFLICT(id) DO UPDATE`. */
  function Upserted(row: Option<Row>, m: Model, now: int): Row {
    Row(m.provider, true, m.isHealthy, now, m.info, if row.Some? then row.value.history else FreshHistory(now))
  }

  function Apply(t: Table, w: Write): Table {
    match w
    case Upsert(m, now) => t[m.id := Upserted(Lookup(t, m.id), m, now)]
    case MarkNotSeen(provider, seen) =>
      map id | id in t :: if t[id].provider == provider && id !in seen then t[id].(isActive := false) else t[id]
  }

  function ApplyAll(t: Table, ws: seq<Write>): Table {
    if ws == [] then t else Apply(ApplyAll(t, Front(ws)), Last(ws))
  }

  lemma {:induction false} ApplyAllAppend(t: Table, a: seq<Write>, b: seq<Write>)
    ensures ApplyAll(t, a + b) == ApplyAll(ApplyAll(t, a), b)
  {
    if b == [] {
      assert a + b == a;
    } else {
      assert a + b == a + Front(b) + [Last(b)];
      assert Front(a + Front(b) + [Last(b)]) == a + Front(b);
      ApplyAllAppend(t, a, Front(b));
    }
  }

  // ---------------------------------------------------------------------------------------------
  // The writes of one run
  // ---------------------------------------------------------------------------------------------

  function Ids(models: seq<Model>): seq<string> {
    if models == [] then [] else Ids(Front(models)) + [Last(models).id]
  }

  function Upserts(models: seq<Model>, now: int): (ws: seq<Write>)
    ensures |ws| == |models|
  {
    if models == [] then [] else Upserts(Front(models), now) + [Upsert(Last(models), now)]
  }

  function VisitWrites(name: string, models: seq<Model>, now: int): seq<Write> {
    Upserts(models, now) + [MarkNotSeen(name, Ids(models))]
  }

  /** The providers whose models were read: those before the first exception. */
  function Visited(providers: seq<Provider>): seq<Provider> {
    if providers == [] || providers[0].outcome.None? then [] else [providers[0]] + Visited(providers[1..])
  }

  function RunWrites(visited: seq<Provider>, now: int): seq<Write>
    requires forall p :: p in visited ==> p.outcome.Some?
  {
    if visited == [] then [] else
      RunWrites(Front(visited), now) + VisitWrites(Last(visited).name, Last(visited).outcome.value, now)
  }

  lemma {:induction false} VisitedWereRead(providers: seq<Provider>)
    ensures forall p :: p in Visited(providers) ==> p in providers && p.outcome.Some?
  {
    if providers != [] && providers[0].outcome.Some? {
      VisitedWereRead(providers[1..]);
      assert providers == [providers[0]] + providers[1..];
    }
  }

  lemma {:induction false} VisitedFacts(providers: seq<Provider>)
    ensures forall p :: p in Visited(providers) ==> p in providers && p.outcome.Some?
    ensures Visited(providers) <= providers
    ensures Visited(providers) == providers || providers[|Visited(providers)|].outcome.None?
  {
    VisitedWereRead(providers);
    if providers != [] && providers[0].outcome.Some? {
      VisitedFacts(providers[1..]);
      assert Visited(providers) == [providers[0]] + Visited(providers[1..]);
      assert providers == [providers[0]] + providers[1..];
    }
  }

  lemma {:induction false} VisitedIs(providers: seq<Provider>, i: nat)
    requires i <= |providers| && forall j :: 0 <= j < i ==> providers[j].outcome.Some?
    requires i == |providers| || providers[i].outcome.None?
    ensures Visited(providers) == providers[..i]
  {
    if i > 0 {
      VisitedIs(providers[1..], i - 1);
      assert providers[..i] == [providers[0]] + providers[1..][..i - 1];
    }
  }

  /** The body of the provider loop: one upsert per model, then the mark of what was not seen. */
  method VisitProvider(name: string, models: seq<Model>, now: int) returns (queued: seq<Write>)
    ensures queued == VisitWrites(name, models, now)
  {
    var seen, j := [], 0;
    queued := [];
    while j < |models|
      invariant 0 <= j <= |models|
      invariant seen == Ids(models[..j]) && queued == Upserts(models[..j], now)
    {
      assert Front(models[..j + 1]) == models[..j];
      seen, queued := seen + [models[j].id], queued + [Upsert(models[j], now)];
      j := j + 1;
    }
    assert models[..j] == models;
    queued := queued + [MarkNotSeen(name, seen)];
  }

  /** Queues the writes provider by provider; an exception ends the run but leaves what was queued. */
  method RunDiscovery(providers: seq<Provider>, now: int) returns (queued: seq<Write>, discovered: nat, raised: bool)
    ensures forall p :: p in Visited(providers) ==> p.outcome.Some?
    ensures queued == RunWrites(Visited(providers), now)
    ensures raised <==> exists p :: p in providers && p.outcome.None?
    ensures discovered + |Visited(providers)| == |queued|
  {
    hide Visited, Upserts, Ids;
    VisitedFacts(providers);
    queued, discovered, raised := [], 0, false;
    var i := 0;
    while i < |providers|
      invariant 0 <= i <= |providers| && forall j :: 0 <= j < i ==> providers[j].outcome.Some?
      invariant queued == RunWrites(providers[..i], now) && discovered + i == |queued|
    {
      if providers[i].outcome.None? {
        VisitedIs(providers, i);
        return queued, discovered, true;
      }
      var models := providers[i].outcome.value;
      var visit := VisitProvider(providers[i].name, models, now);
      assert Front(providers[..i + 1]) == providers[..i];
      queued, discovered := queued + visit, discovered + |models|;
      i := i + 1;
    }
    VisitedIs(providers, i);
  }

  // ---------------------------------------------------------------------------------------------
  // Row by row
  // ---------------------------------------------------------------------------------------------

  predicate Reports(models: seq<Model>, id: string) {
    exists i :: 0 <= i < |models| && models[i].id == id
  }

  /** The last report of an id wins. */
  function LastReport(models: seq<Model>, id: string): (m: Model)
    requires Reports(models, id)
    ensures m in models && m.id == id
  {
    if Last(models).id == id then Last(models) else
      assert Reports(Front(models), id) by {
        var i :| 0 <= i < |models| && models[i].id == id;
        assert Front(models)[i] == models[i];
      }
      LastReport(Front(models), id)
  }

  /** What one provider's visit makes of one row. */
  function FateOfVisit(row: Option<Row>, name: string, models: seq<Model>, id: string, now: int): Option<Row> {
    if Reports(models, id) then Some(Upserted(row, LastReport(models, id), now))
    else if row.Some? && row.value.provider == name then Some(row.value.(isActive := false))
    else row
  }

  function Fate(row: Option<Row>, visited: seq<Provider>, id: string, now: int): Option<Row>
    requires forall p :: p in visited ==> p.outcome.Some?
  {
    if visited == [] then row else
      FateOfVisit(Fate(row, Front(visited), id, now), Last(visited).name, Last(visited).outcome.value, id, now)
  }

  lemma {:induction false} IdsAre(models: seq<Model>, id: string)
    ensures id in Ids(models) <==> Reports(models, id)
  {
    if models != [] {
      IdsAre(Front(models), id);
      assert forall i :: 0 <= i < |models| - 1 ==> Front(models)[i] == models[i];
      if Last(models).id == id {
        assert models[|models| - 1].id == id;
      }
    }
  }

  lemma ReportsOneMore(models: seq<Model>, id: string)
    requires models != []
    ensures Reports(models, id) == (Reports(Front(models), id) || Last(models).id == id)
  {
    assert forall i :: 0 <= i < |models| - 1 ==> Front(models)[i] == models[i];
    if Last(models).id == id {
      assert models[|models| - 1].id == id;
    }
    if Reports(Front(models), id) {
      var i :| 0 <= i < |models| - 1 && Front(models)[i].id == id;
      assert models[i].id == id;
    }
  }

  lemma {:induction false} UpsertsByRow(t: Table, models: seq<Model>, now: int, id: string)
    ensures Lookup(ApplyAll(t, Upserts(models, now)), id) ==
            if Reports(models, id) then Some(Upserted(Lookup(t, id), LastReport(models, id), now)) else Lookup(t, id)
  {
    if models != [] {
      hide Reports;
      UpsertsByRow(t, Front(models), now, id);
      ReportsOneMore(models, id);
      assert Front(Upserts(Front(models), now) + [Upsert(Last(models), now)]) == Upserts(Front(models), now);
    }
  }

  lemma VisitByRow(t: Table, name: string, models: seq<Model>, now: int, id: string)
    ensures Lookup(ApplyAll(t, VisitWrites(name, models, now)), id) == FateOfVisit(Lookup(t, id), name, models, id, now)
  {
    hide Reports, LastReport;
    UpsertsByRow(t, models, now, id);
    IdsAre(models, id);
    var upserts := Upserts(models, now);
    assert Front(upserts + [MarkNotSeen(name, Ids(models))]) == upserts;
  }

  /** Each row's fate under the queued writes depends on that row and the reports alone. */
  lemma {:induction false} RunByRow(t: Table, visited: seq<Provider>, now: int, id: string)
    requires forall p :: p in visited ==> p.outcome.Some?
    ensures Lookup(ApplyAll(t, RunWrites(visited, now)), id) == Fate(Lookup(t, id), visited, id, now)
  {
    if visited != [] {
      hide FateOfVisit, VisitWrites, Apply;
      var before, last := Front(visited), Last(visited);
      RunByRow(t, before, now, id);
      ApplyAllAppend(t, RunWrites(before, now), VisitWrites(last.name, last.outcome.value, now));
      VisitByRow(ApplyAll(t, RunWrites(before, now)), last.name, last.outcome.value, now, id);
    }
  }

  // ---------------------------------------------------------------------------------------------
  // What the table becomes
  // ---------------------------------------------------------------------------------------------

  ghost predicate AllRead(visited: seq<Provider>) {
    forall p :: p in visited ==> p.outcome.Some?
  }

  /** Distinct provider names, and ids that belong to one provider only, in the reports and in the table. */
  ghost predicate Separate(t: Table, visited: seq<Provider>)
    requires AllRead(visited)
  {
    && (forall i, j :: 0 <= i < j < |visited| ==> visited[i].name != visited[j].name)
    && (forall i, m :: 0 <= i < |visited| && m in visited[i].outcome.value ==> m.provider == visited[i].name)
    && (forall i, j, id ::
          0 <= i < |visited| && 0 <= j < |visited| && i != j && Reports(visited[i].outcome.value, id) ==>
        !Reports(visited[j].outcome.value, id))
    && (forall i, id :: 0 <= i < |visited| && Reports(visited[i].outcome.value, id) && id in t ==>
        t[id].provider == visited[i].name)
  }

  function After(t: Table, visited: seq<Provider>, now: int): Table
    requires AllRead(visited)
  {
    ApplyAll(t, RunWrites(visited, now))
  }

  lemma PrefixIsRead(visited: seq<Provider>, n: nat)
    requires AllRead(visited) && n <= |visited|
    ensures AllRead(visited[..n])
    ensures n > 0 ==> Front(visited[..n]) == visited[..n - 1] && Last(visited[..n]) == visited[n - 1]
  {
  }

  /** A row some provider reports: created or revived by that provider's visit, left alone by the others. */
  lemma {:induction false} FateOfReported(t: Table, visited: seq<Provider>, i: nat, id: string, now: int, n: nat)
    requires AllRead(visited) && Separate(t, visited)
    requires i < |visited| && n <= |visited| && Reports(visited[i].outcome.value, id)
    ensures AllRead(visited[..n])
    ensures Fate(Lookup(t, id), visited[..n], id, now) ==
            if n <= i then Lookup(t, id)
            else Some(Upserted(Lookup(t, id), LastReport(visited[i].outcome.value, id), now))
  {
    hide Reports, LastReport;
    PrefixIsRead(visited, n);
    if n > 0 {
      PrefixIsRead(visited, n - 1);
      FateOfReported(t, visited, i, id, now, n - 1);
    }
  }

  /** A row nobody reports: retired if its provider was visited, left alone otherwise. */
  lemma {:induction false} FateOfUnreported(row: Option<Row>, visited: seq<Provider>, id: string, now: int, n: nat)
    requires AllRead(visited) && n <= |visited|
    requires forall i :: 0 <= i < |visited| ==> !Reports(visited[i].outcome.value, id)
    ensures AllRead(visited[..n])
    ensures Fate(row, visited[..n], id, now) ==
            if row.Some? && (exists i :: 0 <= i < n && visited[i].name == row.value.provider)
            then Some(row.value.(isActive := false)) else row
  {
    hide Reports, LastReport;
    PrefixIsRead(visited, n);
    if n > 0 {
      PrefixIsRead(visited, n - 1);
      FateOfUnreported(row, visited, id, now, n - 1);
    }
  }

  /** Every row of the table after the run, in terms of the table before it and the reports. */
  lemma TableAfterRun(t: Table, visited: seq<Provider>, now: int, id: string)
    requires AllRead(visited) && Separate(t, visited)
    ensures forall i :: 0 <= i < |visited| && Reports(visited[i].outcome.value, id) ==>
      Lookup(After(t, visited, now), id) == Some(Upserted(Lookup(t, id), LastReport(visited[i].outcome.value, id), now))
    ensures (forall i :: 0 <= i < |visited| ==> !Reports(visited[i].outcome.value, id)) ==>
      Lookup(After(t, visited, now), id) ==
        if id in t && (exists i :: 0 <= i < |visited| && visited[i].name == t[id].provider)
        then Some(t[id].(isActive := false)) else Lookup(t, id)
  {
    hide Reports, LastReport, Separate, ApplyAll, RunWrites;
    RunByRow(t, visited, now, id);
    assert visited[..|visited|] == visited;
    if i: nat :| i < |visited| && Reports(visited[i].outcome.value, id) {
      forall j | 0 <= j < |visited| && Reports(visited[j].outcome.value, id)
        ensures Lookup(After(t, visited, now), id) ==
                Some(Upserted(Lookup(t, id), LastReport(visited[j].outcome.value, id), now))
      {
        FateOfReported(t, visited, j, id, now, |visited|);
      }
    } else {
      FateOfUnreported(Lookup(t, id), visited, id, now, |visited|);
    }
  }

  /** The columns of a reported row after the run: those reported last under its id, active, just seen, and for a new
      row a clean history that begins now. */
  lemma ReportedColumns(t: Table, visited: seq<Provider>, now: int, i: nat, j: nat)
    requires AllRead(visited) && Separate(t, visited) && i < |visited| && j < |visited[i].outcome.value|
    requires var models := visited[i].outcome.value; forall l :: j < l < |models| ==> models[l].id != models[j].id
    ensures
      var m, after := visited[i].outcome.value[j], After(t, visited, now);
      && m.id in after
      && after[m.id].provider == visited[i].name && after[m.id].isActive && after[m.id].lastSeenAt == now
      && after[m.id].isHealthy == m.isHealthy && after[m.id].info == m.info
      && after[m.id].history == if m.id in t then t[m.id].history else History(0, 0, None, 0.0, now)
  {
    hide After;
    var models := visited[i].outcome.value;
    assert Reports(models, models[j].id);
    TableAfterRun(t, visited, now, models[j].id);
    LastReportIs(models, j);
  }

  lemma {:induction false} LastReportIs(models: seq<Model>, j: nat)
    requires j < |models| && forall l :: j < l < |models| ==> models[l].id != models[j].id
    ensures Reports(models, models[j].id) && LastReport(models, models[j].id) == models[j]
  {
    if j < |models| - 1 {
      LastReportIs(Front(models), j);
    }
  }

  ghost function ActiveIds(t: Table, provider: string): set<string> {
    set id | id in t && t[id].provider == provider && t[id].isActive
  }

  /** A visited provider's active models are exactly those it reported. */
  lemma ActiveIsReported(t: Table, visited: seq<Provider>, now: int, k: nat)
    requires AllRead(visited) && Separate(t, visited) && k < |visited|
    ensures forall id :: id in ActiveIds(After(t, visited, now), visited[k].name) <==>
                         Reports(visited[k].outcome.value, id)
  {
    hide Reports, LastReport, After, Upserted;
    forall id
      ensures id in ActiveIds(After(t, visited, now), visited[k].name) <==> Reports(visited[k].outcome.value, id)
    {
      ActiveIsReportedFor(t, visited, now, k, id);
    }
  }

  lemma ActiveIsReportedFor(t: Table, visited: seq<Provider>, now: int, k: nat, id: string)
    requires AllRead(visited) && Separate(t, visited) && k < |visited|
    ensures id in ActiveIds(After(t, visited, now), visited[k].name) <==> Reports(visited[k].outcome.value, id)
  {
    hide Reports, LastReport, After;
    TableAfterRun(t, visited, now, id);
    var row := Lookup(After(t, visited, now), id);
    if i: nat :| i < |visited| && Reports(visited[i].outcome.value, id) {
      var m := LastReport(visited[i].outcome.value, id);
      assert row.value.provider == m.provider == visited[i].name;
    } else {
      assert row.Some? && row.value.provider == visited[k].name ==> !row.value.isActive;
    }
  }

  /** The rows of a provider that was not visited (not registered, or after the exception) stay as they are. */
  lemma UnvisitedIsUnchanged(t: Table, visited: seq<Provider>, now: int, provider: string, id: string)
    requires AllRead(visited) && Separate(t, visited) && forall i :: 0 <= i < |visited| ==> visited[i].name != provider
    ensures
      var before, after := Lookup(t, id), Lookup(After(t, visited, now), id);
      (before.Some? && before.value.provider == provider) || (after.Some? && after.value.provider == provider) ==>
        after == before
  {
    hide Reports, LastReport, After;
    TableAfterRun(t, visited, now, id);
    if i: nat :| i < |visited| && Reports(visited[i].outcome.value, id) {
      assert LastReport(visited[i].outcome.value, id).provider == visited[i].name;
    }
  }

  /** Whatever is reported, no row disappears, and failure count, back-off, cooldown and score of an existing row
      survive. */
  lemma HistoryIsKept(t: Table, visited: seq<Provider>, now: int, id: string)
    requires AllRead(visited) && id in t
    ensures id in After(t, visited, now) && After(t, visited, now)[id].history == t[id].history
  {
    RunByRow(t, visited, now, id);
    FateKeepsHistory(Some(t[id]), visited, id, now);
  }

  lemma {:induction false} FateKeepsHistory(row: Option<Row>, visited: seq<Provider>, id: string, now: int)
    requires AllRead(visited) && row.Some?
    ensures Fate(row, visited, id, now).Some? && Fate(row, visited, id, now).value.history == row.value.history
  {
    hide Reports, LastReport;
    if visited != [] {
      FateKeepsHistory(row, Front(visited), id, now);
    }
  }

  lemma SeparateAfter(t: Table, visited: seq<Provider>, now: int)
    requires AllRead(visited) && Separate(t, visited)
    ensures Separate(After(t, visited, now), visited)
  {
    hide Reports, LastReport, After;
    forall i, id | 0 <= i < |visited| && Reports(visited[i].outcome.value, id) && id in After(t, visited, now)
      ensures After(t, visited, now)[id].provider == visited[i].name
    {
      TableAfterRun(t, visited, now, id);
      assert LastReport(visited[i].outcome.value, id) in visited[i].outcome.value;
    }
  }

  /** Repeating the run with the same reports changes no row, except for the time it was last seen. */
  lemma SecondRunChangesNothing(t: Table, visited: seq<Provider>, now: int, later: int, id: string)
    requires AllRead(visited) && Separate(t, visited)
    ensures
      var once := After(t, visited, now);
      var again := Lookup(After(once, visited, later), id);
      var seen := if id in once then once[id].lastSeenAt else 0;
      Lookup(once, id) == if again.None? then None else Some(again.value.(lastSeenAt := seen))
  {
    hide Reports, LastReport, After, Separate;
    SeparateAfter(t, visited, now);
    var once := After(t, visited, now);
    TableAfterRun(t, visited, now, id);
    TableAfterRun(once, visited, later, id);
  }
}
