/** Choosing the candidates of a request: `pick_candidates` of src/routing.py. The eligible rows arrive as the query
    returned them; token estimation is a parameter. Scores are exact numbers. */
module Routing {
  import opened Sequences

  datatype Candidate = Candidate(
    id: string,
    providerId: string,
    providerModelId: string,
    compositeScore: real,
    avgLatencyMs: real,
    avgTtfbMs: real,
    contextWindow: int,
    consecutiveFailures: int,
    backoffLevel: int)

  datatype Preference = Balanced | Quality | Latency | Context | Reliability

  datatype Preferences = Preferences(preference: Preference, maxLatencyMs: Option<int>, minContextTokens: Option<int>)

  /** The id is the key of the table. */
  ghost predicate Keyed(cs: seq<Candidate>) {
    forall i, j :: 0 <= i < j < |cs| ==> cs[i].id != cs[j].id
  }

  // ---------------------------------------------------------------------------------------------
  // Filtering
  // ---------------------------------------------------------------------------------------------

  function Filter(cs: seq<Candidate>, keep: Candidate -> bool): seq<Candidate> {
    if cs == [] then []
    else Filter(Front(cs), keep) + if keep(Last(cs)) then [Last(cs)] else []
  }

  function HasRoom(minContext: int, estimate: Candidate -> int): Candidate -> bool {
    (c: Candidate) => c.contextWindow >= minContext && c.contextWindow >= estimate(c)
  }

  /** `_filter_candidates_by_tokenizer_estimate` */
  method FilterByEstimate(candidates: seq<Candidate>, minContext: int, estimate: Option<Candidate -> int>)
    returns (filtered: seq<Candidate>)
    ensures filtered == if estimate.None? then candidates else Filter(candidates, HasRoom(minContext, estimate.value))
    ensures forall c :: c in filtered <==>
      && c in candidates
      && (estimate.Some? ==> c.contextWindow >= minContext && c.contextWindow >= estimate.value(c))
    ensures Keyed(candidates) ==> Keyed(filtered)
  {
    if estimate.None? {
      return candidates;
    }
    filtered := [];
    var i := 0;
    while i < |candidates|
      invariant 0 <= i <= |candidates|
      invariant filtered == Filter(candidates[..i], HasRoom(minContext, estimate.value))
    {
      var c := candidates[i];
      assert Front(candidates[..i + 1]) == candidates[..i];
      var needed := estimate.value(c);
      var required := if minContext >= needed then minContext else needed;
      if c.contextWindow >= required {
        filtered := filtered + [c];
      }
      i := i + 1;
    }
    assert candidates[..i] == candidates;
    FilterMembers(candidates, HasRoom(minContext, estimate.value));
    if Keyed(candidates) {
      FilterKeepsKeyed(candidates, HasRoom(minContext, estimate.value));
    }
  }

  lemma {:induction false} FilterMembers(cs: seq<Candidate>, keep: Candidate -> bool)
    ensures forall c :: c in Filter(cs, keep) <==> c in cs && keep(c)
  {
    if cs != [] {
      FilterMembers(Front(cs), keep);
    }
  }

  lemma {:induction false} FilterKeepsKeyed(cs: seq<Candidate>, keep: Candidate -> bool)
    requires Keyed(cs)
    ensures Keyed(Filter(cs, keep))
  {
    if cs != [] {
      FilterKeepsKeyed(Front(cs), keep);
      FilterMembers(Front(cs), keep);
      assert forall c :: c in Front(cs) ==> c.id != Last(cs).id;
      var kept := Filter(Front(cs), keep);
      hide Filter;
      assert forall i :: 0 <= i < |kept| ==> kept[i] in kept && kept[i].id != Last(cs).id;
    }
  }

  /** What a filter keeps and what it drops together are the whole. */
  lemma {:induction false} FilterSplits(cs: seq<Candidate>, keep: Candidate -> bool, drop: Candidate -> bool)
    requires forall c :: c in cs ==> keep(c) == !drop(c)
    ensures multiset(Filter(cs, keep) + Filter(cs, drop)) == multiset(cs)
  {
    if cs != [] {
      FilterSplits(Front(cs), keep, drop);
      assert cs == Front(cs) + [Last(cs)];
    }
  }

  // ---------------------------------------------------------------------------------------------
  // Scores and the stable sort
  // ---------------------------------------------------------------------------------------------

  datatype Score = Score(a: real, b: real, c: real, d: real)

  /** Tuples compare lexicographically. */
  predicate AtLeast(x: Score, y: Score) {
    x.a > y.a || (x.a == y.a && (x.b > y.b || (x.b == y.b && (x.c > y.c || (x.c == y.c && x.d >= y.d)))))
  }

  function Positive(x: real): real {
    if x >= 0.0 then x else 0.0
  }

  function PreferenceScore(c: Candidate, preferences: Option<Preferences>): Score {
    if preferences.None? then Score(c.compositeScore, 0.0, 0.0, 0.0) else
      var p := preferences.value;
      var latency :=
        if c.avgTtfbMs != 0.0 then c.avgTtfbMs else if c.avgLatencyMs != 0.0 then c.avgLatencyMs else 999999.0;
      var context := c.contextWindow as real;
      var reliability := (c.consecutiveFailures + c.backoffLevel) as real;
      var slow := if p.maxLatencyMs.Some? && latency > p.maxLatencyMs.value as real then -25.0 else 0.0;
      var roomy := if p.minContextTokens.Some? && context >= p.minContextTokens.value as real then 10.0 else 0.0;
      var taste := match p.preference
        case Quality => c.compositeScore * 0.20
        case Latency => Positive(5000.0 - latency) / 100.0
        case Context => context / 1000.0
        case Reliability => -reliability * 15.0 + Positive(5000.0 - latency) / 500.0
        case Balanced => Positive(5000.0 - latency) / 500.0 + context / 10000.0 - reliability * 2.0;
      Score(c.compositeScore + (slow + roomy + taste), c.compositeScore, -latency, context)
  }

  /** What a candidate is taken to need before its first answer: measured, or else assumed to be very long. */
  function Wait(c: Candidate): (w: real)
    ensures c.avgTtfbMs != 0.0 ==> w == c.avgTtfbMs
    ensures c.avgTtfbMs == 0.0 && c.avgLatencyMs != 0.0 ==> w == c.avgLatencyMs
    ensures c.avgTtfbMs == 0.0 && c.avgLatencyMs == 0.0 ==> w == 999999.0
  {
    if c.avgTtfbMs == 0.0 then if c.avgLatencyMs == 0.0 then 999999.0 else c.avgLatencyMs else c.avgTtfbMs
  }

  function Trouble(c: Candidate): int {
    c.consecutiveFailures + c.backoffLevel
  }

  /** Under every preference, a candidate that is no worse in each respect never ranks behind. */
  lemma NoWorseNeverRanksBehind(c: Candidate, d: Candidate, preferences: Option<Preferences>)
    requires c.compositeScore >= d.compositeScore && Wait(c) <= Wait(d)
    requires c.contextWindow >= d.contextWindow && Trouble(c) <= Trouble(d)
    ensures AtLeast(PreferenceScore(c, preferences), PreferenceScore(d, preferences))
  {
  }

  /** The candidate is slower than the bound asked for, or has the context asked for. */
  predicate TooSlow(c: Candidate, p: Preferences) {
    p.maxLatencyMs.Some? && Wait(c) > p.maxLatencyMs.value as real
  }

  predicate HasContext(c: Candidate, p: Preferences) {
    p.minContextTokens.Some? && c.contextWindow >= p.minContextTokens.value
  }

  /** How much of a second's head start below five seconds counts. */
  function Seconds(c: Candidate): real {
    if Wait(c) < 5000.0 then (5000.0 - Wait(c)) / 1000.0 else 0.0
  }

  /** The points a candidate has beyond its composite score, preference by preference: quality counts the composite
      score once more by a fifth, a second is worth ten points for latency and two for reliability or balance, a
      thousand tokens one point for context and a tenth for balance, a failure costs fifteen points for reliability
      and two for balance; being too slow costs 25 points and having the context asked for earns 10. */
  function Points(c: Candidate, p: Preferences): real {
    var tokens, trouble := c.contextWindow as real / 1000.0, Trouble(c) as real;
    (if TooSlow(c, p) then -25.0 else 0.0) + (if HasContext(c, p) then 10.0 else 0.0) + match p.preference
      case Quality => c.compositeScore / 5.0
      case Latency => Seconds(c) * 10.0
      case Context => tokens
      case Reliability => Seconds(c) * 2.0 - trouble * 15.0
      case Balanced => Seconds(c) * 2.0 + tokens / 10.0 - trouble * 2.0
  }

  lemma PointsCount(c: Candidate, p: Preferences)
    ensures PreferenceScore(c, Some(p)) ==
            Score(c.compositeScore + Points(c, p), c.compositeScore, -Wait(c), c.contextWindow as real)
  {
  }

  /** More points in all rank ahead; ties go to the composite score, then to the shorter wait, then to the larger
      context. Without preferences only the composite score counts. */
  lemma RanksAheadIff(c: Candidate, d: Candidate, p: Preferences)
    ensures
      var x, y := c.compositeScore + Points(c, p), d.compositeScore + Points(d, p);
      AtLeast(PreferenceScore(c, Some(p)), PreferenceScore(d, Some(p))) <==>
        if x != y then x > y
        else if c.compositeScore != d.compositeScore then c.compositeScore > d.compositeScore
        else if Wait(c) != Wait(d) then Wait(c) < Wait(d)
        else c.contextWindow >= d.contextWindow
    ensures AtLeast(PreferenceScore(c, None), PreferenceScore(d, None)) <==> c.compositeScore >= d.compositeScore
  {
    PointsCount(c, p);
    PointsCount(d, p);
    hide Points, PreferenceScore;
    NoPreference(c);
    NoPreference(d);
  }

  lemma NoPreference(c: Candidate)
    ensures PreferenceScore(c, None) == Score(c.compositeScore, 0.0, 0.0, 0.0)
  {
  }

  /** Puts `c` behind every candidate of `sorted` that scores at least as high. */
  function Insert(sorted: seq<Candidate>, c: Candidate, score: Candidate -> Score): seq<Candidate> {
    if sorted == [] || AtLeast(score(Last(sorted)), score(c)) then sorted + [c]
    else Insert(Front(sorted), c, score) + [Last(sorted)]
  }

  /** `sorted(candidates, key=score, reverse=True)` */
  function SortDown(cs: seq<Candidate>, score: Candidate -> Score): seq<Candidate> {
    if cs == [] then [] else Insert(SortDown(Front(cs), score), Last(cs), score)
  }

  ghost predicate Descending(cs: seq<Candidate>, score: Candidate -> Score) {
    forall i, j :: 0 <= i < j < |cs| ==> AtLeast(score(cs[i]), score(cs[j]))
  }

  lemma {:induction false} InsertFacts(sorted: seq<Candidate>, c: Candidate, score: Candidate -> Score)
    requires Descending(sorted, score)
    ensures Descending(Insert(sorted, c, score), score)
    ensures multiset(Insert(sorted, c, score)) == multiset(sorted) + multiset{c}
  {
    hide AtLeast;
    if sorted == [] {
    } else if AtLeast(score(Last(sorted)), score(c)) {
      assert forall i :: 0 <= i < |sorted| ==> AtLeast(score(sorted[i]), score(c)) by {
        BelowLast(sorted, c, score);
      }
    } else {
      InsertFacts(Front(sorted), c, score);
      assert sorted == Front(sorted) + [Last(sorted)];
      var before := Insert(Front(sorted), c, score);
      forall i | 0 <= i < |before|
        ensures AtLeast(score(before[i]), score(Last(sorted)))
      {
        assert before[i] in multiset(before);
        if before[i] == c {
          Total(score(c), score(Last(sorted)));
        } else {
          assert before[i] in Front(sorted);
        }
      }
    }
  }

  lemma Total(x: Score, y: Score)
    ensures AtLeast(x, y) || AtLeast(y, x)
  {
  }

  lemma BelowLast(sorted: seq<Candidate>, c: Candidate, score: Candidate -> Score)
    requires Descending(sorted, score) && sorted != [] && AtLeast(score(Last(sorted)), score(c))
    ensures forall i :: 0 <= i < |sorted| ==> AtLeast(score(sorted[i]), score(c))
  {
    forall i | 0 <= i < |sorted| - 1
      ensures AtLeast(score(sorted[i]), score(c))
    {
      assert AtLeast(score(sorted[i]), score(Last(sorted)));
    }
  }

  /** The sort returns the same candidates, best first. */
  lemma {:induction false} SortDownFacts(cs: seq<Candidate>, score: Candidate -> Score)
    ensures Descending(SortDown(cs, score), score) && multiset(SortDown(cs, score)) == multiset(cs)
  {
    if cs != [] {
      SortDownFacts(Front(cs), score);
      InsertFacts(SortDown(Front(cs), score), Last(cs), score);
      assert cs == Front(cs) + [Last(cs)];
    }
  }

  function Tied(score: Candidate -> Score, s: Score): Candidate -> bool {
    (c: Candidate) => score(c) == s
  }

  lemma {:induction false} InsertIsStable(sorted: seq<Candidate>, c: Candidate, score: Candidate -> Score, s: Score)
    ensures Filter(Insert(sorted, c, score), Tied(score, s)) == Filter(sorted + [c], Tied(score, s))
  {
    var more := sorted + [c];
    assert Front(more) == sorted;
    if sorted != [] && !AtLeast(score(Last(sorted)), score(c)) {
      InsertIsStable(Front(sorted), c, score, s);
      assert Front(Front(sorted) + [c]) == Front(sorted);
      var before := Insert(Front(sorted), c, score);
      assert Front(before + [Last(sorted)]) == before;
      Total(score(c), score(Last(sorted)));
    }
  }

  /** Stability: candidates with equal scores keep their order. */
  lemma {:induction false} SortDownIsStable(cs: seq<Candidate>, score: Candidate -> Score, s: Score)
    ensures Filter(SortDown(cs, score), Tied(score, s)) == Filter(cs, Tied(score, s))
  {
    if cs != [] {
      var sorted, c := SortDown(Front(cs), score), Last(cs);
      SortDownIsStable(Front(cs), score, s);
      InsertIsStable(sorted, c, score, s);
      assert Front(sorted + [c]) == sorted;
    }
  }

  // ---------------------------------------------------------------------------------------------
  // Choosing
  // ---------------------------------------------------------------------------------------------

  function Named(model: string): Candidate -> bool {
    (c: Candidate) => c.id == model || c.providerModelId == model
  }

  const FREE_SUFFIX := ":free"

  predicate EndsWithFree(s: string) {
    |s| >= 5 && s[|s| - 5..] == FREE_SUFFIX
  }

  /** `_match_explicit_model` */
  function MatchExplicit(cs: seq<Candidate>, requested: string): seq<Candidate> {
    var exact := Filter(cs, Named(requested));
    if exact != [] then exact
    else if EndsWithFree(requested) then Filter(cs, Named(requested[..|requested| - 5]))
    else []
  }

  function NotAmong(cs: seq<Candidate>): Candidate -> bool {
    (c: Candidate) => forall i :: 0 <= i < |cs| ==> cs[i].id != c.id
  }

  /** The candidates that match an explicit request; empty for "auto" or no request at all. */
  function Explicit(cs: seq<Candidate>, requested: Option<string>): seq<Candidate> {
    if requested.None? || requested.value == "" || requested.value == "auto" then []
    else MatchExplicit(cs, requested.value)
  }

  function Ordered(cs: seq<Candidate>, requested: Option<string>, preferences: Option<Preferences>): seq<Candidate> {
    var explicit := Explicit(cs, requested);
    if explicit != [] then explicit + Filter(cs, NotAmong(explicit))
    else SortDown(cs, (c: Candidate) => PreferenceScore(c, preferences))
  }

  /** Python's `s[:n]` */
  function Take(s: seq<Candidate>, n: int): seq<Candidate> {
    if n >= |s| then s
    else if n >= 0 then s[..n]
    else if |s| + n >= 0 then s[..|s| + n]
    else []
  }

  predicate Has(s: seq<Candidate>, id: string) {
    exists i :: 0 <= i < |s| && s[i].id == id
  }

  function Find(s: seq<Candidate>, id: string): (c: Candidate)
    requires Has(s, id)
    ensures c in s && c.id == id
  {
    if s[0].id == id then s[0] else
      assert Has(s[1..], id) by {
        var i :| 0 <= i < |s| && s[i].id == id;
        assert s[1..][i - 1] == s[i];
      }
      Find(s[1..], id)
  }

  function Max0(n: int): nat {
    if n >= 0 then n else 0
  }

  /** The fallback goes in at position `limit - 1` when it is eligible and not among the first `limit`. */
  function WithFallback(ordered: seq<Candidate>, cs: seq<Candidate>, fallback: Option<string>, limit: int)
    : seq<Candidate>
  {
    if fallback.None? || fallback.value == "" || !Has(cs, fallback.value) then ordered
    else if Has(Take(ordered, limit), fallback.value) then ordered
    else Take(ordered, Max0(limit - 1)) + [Find(cs, fallback.value)] + ordered[|Take(ordered, Max0(limit - 1))|..]
  }

  /** `None` stands for NoHealthyModelsError. */
  function Pick(cs: seq<Candidate>, requested: Option<string>, preferences: Option<Preferences>,
                fallback: Option<string>, limit: int)
    : Option<seq<Candidate>>
  {
    if cs == [] then None
    else Some(Take(WithFallback(Ordered(cs, requested, preferences), cs, fallback, limit), limit))
  }

  // ---------------------------------------------------------------------------------------------
  // What the choice guarantees
  // ---------------------------------------------------------------------------------------------

  lemma ExplicitFacts(cs: seq<Candidate>, requested: Option<string>)
    requires Keyed(cs)
    ensures Keyed(Explicit(cs, requested)) && forall c :: c in Explicit(cs, requested) ==> c in cs
    ensures multiset(Explicit(cs, requested) + Filter(cs, NotAmong(Explicit(cs, requested)))) == multiset(cs)
  {
    var explicit := Explicit(cs, requested);
    if explicit == [] {
      KeepAll(cs, NotAmong([]));
      assert explicit + Filter(cs, NotAmong(explicit)) == cs;
    } else {
      var name :=
        if Filter(cs, Named(requested.value)) != [] then requested.value else requested.value[..|requested.value| - 5];
      FilterMembers(cs, Named(name));
      FilterKeepsKeyed(cs, Named(name));
      forall c | c in cs
        ensures Named(name)(c) == !NotAmong(explicit)(c)
      {
        if Named(name)(c) {
          var i :| 0 <= i < |explicit| && explicit[i] == c;
        } else {
          SameIdSameRow(cs, explicit, c);
        }
      }
      FilterSplits(cs, Named(name), NotAmong(explicit));
    }
  }

  predicate IsNamed(c: Candidate, name: string) {
    c.id == name || c.providerModelId == name
  }

  /** Which candidates match a request: those with that name, or, if there are none and the name ends in ":free", those
      with the name before it. They come first, and everything keeps the order of the query. */
  lemma ExplicitIff(cs: seq<Candidate>, requested: string, c: Candidate)
    requires requested != "" && requested != "auto"
    ensures c in Explicit(cs, Some(requested)) <==>
      && c in cs
      && (|| IsNamed(c, requested)
          || ((forall d :: d in cs ==> !IsNamed(d, requested)) &&
              exists base: string :: requested == base + ":free" && IsNamed(c, base)))
  {
    var base := if EndsWithFree(requested) then requested[..|requested| - 5] else "";
    assert EndsWithFree(requested) ==> requested == base + ":free";
    assert forall b: string :: requested == b + ":free" ==> EndsWithFree(requested) && b == base;
    FilterMembers(cs, Named(requested));
    FilterMembers(cs, Named(base));
    var exact := Filter(cs, Named(requested));
    if exact != [] {
      assert exact[0] in exact;
    }
  }

  /** Nothing is requested explicitly by no name, by an empty one or by "auto". */
  lemma AutoIsNotExplicit(cs: seq<Candidate>)
    ensures Explicit(cs, None) == [] && Explicit(cs, Some("")) == [] && Explicit(cs, Some("auto")) == []
  {
  }

  /** Without a match the preference decides: better candidates come first, and those that score the same keep the
      order of the query. */
  lemma PreferenceOrder(cs: seq<Candidate>, requested: Option<string>, preferences: Option<Preferences>, s: Score)
    requires Explicit(cs, requested) == []
    ensures
      var ordered := Ordered(cs, requested, preferences);
      && (forall i, j :: 0 <= i < j < |ordered| ==>
          AtLeast(PreferenceScore(ordered[i], preferences), PreferenceScore(ordered[j], preferences)))
      && Filter(ordered, (c: Candidate) => PreferenceScore(c, preferences) == s) ==
         Filter(cs, (c: Candidate) => PreferenceScore(c, preferences) == s)
  {
    hide PreferenceScore, AtLeast, Explicit;
    var score := (c: Candidate) => PreferenceScore(c, preferences);
    SortDownFacts(cs, score);
    SortDownIsStable(cs, score, s);
    var tied := (c: Candidate) => PreferenceScore(c, preferences) == s;
    SameFilter(SortDown(cs, score), Tied(score, s), tied);
    SameFilter(cs, Tied(score, s), tied);
  }

  lemma {:induction false} SameFilter(cs: seq<Candidate>, keep: Candidate -> bool, same: Candidate -> bool)
    requires forall c :: keep(c) == same(c)
    ensures Filter(cs, keep) == Filter(cs, same)
  {
    if cs != [] {
      SameFilter(Front(cs), keep, same);
    }
  }

  /** `part` is what is left of `whole` when some candidates are taken out. */
  ghost predicate InOrderOf(part: seq<Candidate>, whole: seq<Candidate>) {
    exists keep: Candidate -> bool :: part == Filter(whole, keep)
  }

  lemma ExplicitOrder(cs: seq<Candidate>, requested: Option<string>, preferences: Option<Preferences>)
    requires Explicit(cs, requested) != []
    ensures
      var matches, ordered := Explicit(cs, requested), Ordered(cs, requested, preferences);
      && matches <= ordered && InOrderOf(matches, cs) && InOrderOf(ordered[|matches|..], cs)
  {
    var matches := Explicit(cs, requested);
    var name := if Filter(cs, Named(requested.value)) != [] then requested.value
                else requested.value[..|requested.value| - 5];
    assert matches == Filter(cs, Named(name));
    assert Ordered(cs, requested, preferences)[|matches|..] == Filter(cs, NotAmong(matches));
  }

  lemma {:induction false} KeepAll(cs: seq<Candidate>, keep: Candidate -> bool)
    requires forall c :: c in cs ==> keep(c)
    ensures Filter(cs, keep) == cs
  {
    if cs != [] {
      assert forall c :: c in Front(cs) ==> c in cs;
      assert Last(cs) in cs && Filter(cs, keep) == Filter(Front(cs), keep) + [Last(cs)];
      hide Filter;
      KeepAll(Front(cs), keep);
      assert cs == Front(cs) + [Last(cs)];
    }
  }

  lemma SameIdSameRow(cs: seq<Candidate>, some: seq<Candidate>, c: Candidate)
    requires Keyed(cs) && c in cs && c !in some && forall x :: x in some ==> x in cs
    ensures NotAmong(some)(c)
  {
    forall i | 0 <= i < |some|
      ensures some[i].id != c.id
    {
      assert some[i] in some && some[i] in cs;
    }
  }

  /** The ordering is a rearrangement of the eligible candidates. */
  lemma OrderedIsPermutation(cs: seq<Candidate>, requested: Option<string>, preferences: Option<Preferences>)
    requires Keyed(cs)
    ensures multiset(Ordered(cs, requested, preferences)) == multiset(cs)
  {
    ExplicitFacts(cs, requested);
    SortDownFacts(cs, (c: Candidate) => PreferenceScore(c, preferences));
  }

  function Ids(s: seq<Candidate>): set<string> {
    set c | c in s :: c.id
  }

  lemma IdsSnoc(s: seq<Candidate>)
    requires s != []
    ensures Ids(s) == Ids(Front(s)) + {Last(s).id}
  {
    assert s == Front(s) + [Last(s)];
  }

  lemma {:induction false} KeyedMeansAsManyIds(s: seq<Candidate>)
    ensures |Ids(s)| <= |s| && (Keyed(s) ==> |Ids(s)| == |s|)
  {
    if s != [] {
      KeyedMeansAsManyIds(Front(s));
      IdsSnoc(s);
    }
  }

  lemma {:induction false} AsManyIdsMeansKeyed(s: seq<Candidate>)
    requires |Ids(s)| == |s|
    ensures Keyed(s)
  {
    if s != [] {
      IdsSnoc(s);
      KeyedMeansAsManyIds(Front(s));
      AsManyIdsMeansKeyed(Front(s));
      hide Keyed;
      assert Last(s).id !in Ids(Front(s));
      assert forall c :: c in Front(s) ==> c.id in Ids(Front(s));
      KeyedSnoc(s);
    }
  }

  lemma KeyedSnoc(s: seq<Candidate>)
    requires s != [] && Keyed(Front(s)) && forall c :: c in Front(s) ==> c.id != Last(s).id
    ensures Keyed(s)
  {
    assert forall i :: 0 <= i < |s| - 1 ==> s[i] in Front(s);
  }

  lemma PermutationFacts(a: seq<Candidate>, b: seq<Candidate>)
    requires Keyed(a) && multiset(a) == multiset(b)
    ensures Keyed(b) && |a| == |b| && forall c :: c in a <==> c in b
  {
    assert |multiset(a)| == |multiset(b)|;
    assert forall c :: c in a <==> c in multiset(a);
    assert forall c :: c in b <==> c in multiset(b);
    assert Ids(a) == Ids(b);
    KeyedMeansAsManyIds(a);
    AsManyIdsMeansKeyed(b);
  }

  predicate Inserts(ordered: seq<Candidate>, cs: seq<Candidate>, fallback: Option<string>, limit: int) {
    fallback.Some? && fallback.value != "" && Has(cs, fallback.value) && !Has(Take(ordered, limit), fallback.value)
  }

  /** What the request gets when the fallback has to be inserted, for every limit Python accepts. */
  lemma InsertedForm(ordered: seq<Candidate>, cs: seq<Candidate>, fallback: Option<string>, limit: int)
    requires Inserts(ordered, cs, fallback, limit) && forall c :: c in cs ==> c in ordered
    ensures
      var f, r := Find(cs, fallback.value), Take(WithFallback(ordered, cs, fallback, limit), limit);
      && (limit >= 1 ==> limit < |ordered| && r == ordered[..limit - 1] + [f])
      && (limit == 0 ==> r == [])
      && (limit < 0 ==> r == if |ordered| + 1 + limit <= 0 then [] else [f] + Take(ordered, limit))
  {
    var f := Find(cs, fallback.value);
    assert Has(ordered, fallback.value) by {
      var at :| 0 <= at < |ordered| && ordered[at] == f;
    }
    assert limit >= |ordered| ==> Take(ordered, limit) == ordered;
    if limit >= 1 {
      var k := limit - 1;
      assert (ordered[..k] + [f] + ordered[k..])[..limit] == ordered[..k] + [f];
    } else {
      assert WithFallback(ordered, cs, fallback, limit) == [f] + ordered;
    }
  }

  /** For every integer limit the result holds distinct eligible candidates; for a limit that is not negative it
      holds as many as the limit and the candidates allow. */
  lemma PickIsSound(cs: seq<Candidate>, requested: Option<string>, preferences: Option<Preferences>,
                    fallback: Option<string>, limit: int)
    requires Keyed(cs) && cs != []
    ensures
      var r := Pick(cs, requested, preferences, fallback, limit).value;
      && Keyed(r) && (forall c :: c in r ==> c in cs)
      && (limit >= 0 ==> |r| == if limit <= |cs| then limit else |cs|)
  {
    hide Ordered, Find, Keyed, Has;
    var ordered := Ordered(cs, requested, preferences);
    OrderedIsPermutation(cs, requested, preferences);
    PermutationFacts(cs, ordered);
    TakeKeepsKeyed(ordered, limit);
    if Inserts(ordered, cs, fallback, limit) {
      InsertedForm(ordered, cs, fallback, limit);
      var f := Find(cs, fallback.value);
      hide WithFallback, Inserts;
      if limit >= 1 {
        TakeKeepsKeyed(ordered, limit - 1);
        PrefixLacks(ordered, limit, f.id);
        KeyedAround(ordered[..limit - 1], f);
      } else if limit < 0 {
        KeyedAround(Take(ordered, limit), f);
      } else {
        KeyedNone();
      }
    }
  }

  lemma KeyedNone()
    ensures Keyed([])
  {
  }

  lemma TakeKeepsKeyed(s: seq<Candidate>, n: int)
    requires Keyed(s)
    ensures Keyed(Take(s, n)) && forall c :: c in Take(s, n) ==> c in s
    ensures n >= 0 ==> |Take(s, n)| == if n <= |s| then n else |s|
  {
  }

  lemma PrefixLacks(s: seq<Candidate>, limit: int, id: string)
    requires 1 <= limit <= |s| && !Has(Take(s, limit), id)
    ensures s[..limit - 1] == Take(s, limit - 1) && !Has(s[..limit - 1], id)
  {
    assert forall i :: 0 <= i < limit - 1 ==> s[..limit - 1][i] == Take(s, limit)[i];
  }

  lemma KeyedAround(s: seq<Candidate>, f: Candidate)
    requires Keyed(s) && !Has(s, f.id)
    ensures Keyed(s + [f]) && Keyed([f] + s)
  {
    assert forall i :: 0 <= i < |s| ==> s[i].id != f.id;
  }

  /** An eligible fallback is among the candidates exactly when the limit is positive or negative without dropping more
      than all of them; with a positive limit it costs at most the last place of the ordering. */
  lemma FallbackIsIncluded(cs: seq<Candidate>, requested: Option<string>, preferences: Option<Preferences>,
                           fallback: string, limit: int)
    requires Keyed(cs) && fallback != "" && Has(cs, fallback)
    ensures
      var r := Pick(cs, requested, preferences, Some(fallback), limit).value;
      var best := Take(Ordered(cs, requested, preferences), limit);
      && (Has(r, fallback) <==> limit >= 1 || -|cs| <= limit < 0)
      && (limit >= 1 ==> |r| == |best| && forall i :: 0 <= i < |r| - 1 ==> r[i] == best[i])
      && (Has(best, fallback) ==> r == best)
  {
    hide Ordered, Find;
    var ordered := Ordered(cs, requested, preferences);
    OrderedIsPermutation(cs, requested, preferences);
    PermutationFacts(cs, ordered);
    if Inserts(ordered, cs, Some(fallback), limit) {
      InsertedForm(ordered, cs, Some(fallback), limit);
      hide WithFallback;
      var f := Find(cs, fallback);
      assert limit >= 1 ==> (ordered[..limit - 1] + [f])[limit - 1].id == fallback;
      assert limit < 0 ==> ([f] + Take(ordered, limit))[0].id == fallback;
    }
  }

  /** An eligible fallback other than the requested model. */
  predicate Competes(cs: seq<Candidate>, fallback: Option<string>, wanted: string) {
    fallback.Some? && fallback.value != "" && Has(cs, fallback.value) && fallback.value != wanted
  }

  /** Exactly when the head of the ordering comes first in the result, for every integer limit: always with two
      places or more, with one place unless a fallback competes, and never with none. A negative limit drops that
      many candidates from the end; if any are left, the head is first unless a competing fallback is among those
      dropped, and if none are left it is first, and alone, just when it is itself the fallback and exactly all were
      dropped. */
  predicate KeepsFirst(ordered: seq<Candidate>, fallback: Option<string>, limit: int)
    requires ordered != []
  {
    var head := ordered[0].id;
    if limit >= 2 then true
    else if limit == 1 then !Competes(ordered, fallback, head)
    else if limit == 0 then false
    else if |ordered| + limit >= 1 then
      !Competes(ordered, fallback, head) || Has(ordered[..|ordered| + limit], fallback.value)
    else |ordered| + limit == 0 && fallback == Some(head) && head != ""
  }

  lemma HeadStaysFirstIff(ordered: seq<Candidate>, cs: seq<Candidate>, fallback: Option<string>, limit: int)
    requires Keyed(cs) && ordered != [] && forall c :: c in cs <==> c in ordered
    ensures
      var r := Take(WithFallback(ordered, cs, fallback, limit), limit);
      r != [] && r[0] == ordered[0] <==> KeepsFirst(ordered, fallback, limit)
  {
    hide Find, Keyed, Has;
    var kept, head := Take(ordered, limit), ordered[0];
    HeadIsIn(ordered);
    if fallback.Some? {
      SameMembersHave(ordered, cs, fallback.value);
    }
    if kept != [] {
      HeadIsIn(kept);
    } else if fallback.Some? {
      assert !Has(kept, fallback.value) by {
        NoneIn(fallback.value);
      }
    }
    if Inserts(ordered, cs, fallback, limit) {
      InsertedForm(ordered, cs, fallback, limit);
      FoundIs(cs, fallback.value, head);
      hide WithFallback;
    } else if limit == 1 && Competes(ordered, fallback, head.id) {
      assert kept == [head];
      OnlyIsIn(head, fallback.value);
    }
  }

  lemma NoneIn(id: string)
    ensures !Has([], id)
  {
  }

  lemma HeadIsIn(s: seq<Candidate>)
    requires s != []
    ensures Has(s, s[0].id)
  {
  }

  lemma OnlyIsIn(c: Candidate, id: string)
    ensures Has([c], id) <==> c.id == id
  {
    assert [c][0] == c;
  }

  lemma SameMembersHave(a: seq<Candidate>, b: seq<Candidate>, id: string)
    requires forall c :: c in a <==> c in b
    ensures Has(a, id) <==> Has(b, id)
  {
    if Has(a, id) {
      var i :| 0 <= i < |a| && a[i].id == id;
      assert a[i] in b;
    }
    if Has(b, id) {
      var i :| 0 <= i < |b| && b[i].id == id;
      assert b[i] in a;
    }
  }

  lemma FoundIs(cs: seq<Candidate>, id: string, c: Candidate)
    requires Keyed(cs) && Has(cs, id) && c in cs
    ensures Find(cs, id) == c <==> c.id == id
  {
  }

  /** An explicitly requested model heads the ordering, and comes first exactly when the head does. */
  lemma ExplicitFirstIff(cs: seq<Candidate>, requested: Option<string>, preferences: Option<Preferences>,
                         fallback: Option<string>, limit: int)
    requires Keyed(cs) && Explicit(cs, requested) != []
    ensures
      var r, ordered := Pick(cs, requested, preferences, fallback, limit).value, Ordered(cs, requested, preferences);
      r != [] && r[0] == Explicit(cs, requested)[0] <==> KeepsFirst(ordered, fallback, limit)
  {
    hide SortDown, Explicit, Filter, Take, WithFallback, KeepsFirst;
    var ordered := Ordered(cs, requested, preferences);
    OrderedIsPermutation(cs, requested, preferences);
    PermutationFacts(cs, ordered);
    HeadStaysFirstIff(ordered, cs, fallback, limit);
  }
}
