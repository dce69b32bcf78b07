/** Which models a health run probes: `_select_probe_candidates` of src/health.py. Three queries, two of them cut off at
    the size of the run, feed a loop that drops repeated ids and stops when it has enough. */
module ProbeSelection {
  import opened Sequences

  datatype Row = Row(id: string, provider: string, model: string)

  datatype Reason = CooldownRecovery | NeverProbed | Stale

  datatype Candidate = Candidate(row: Row, reason: Reason)

  /** SQLite's LIMIT: a negative bound means none. */
  function Limit(rows: seq<Row>, n: int): seq<Row> {
    if 0 <= n < |rows| then rows[..n] else rows
  }

  function Tag(rows: seq<Row>, reason: Reason): (tagged: seq<Candidate>)
    ensures |tagged| == |rows|
    ensures forall i :: 0 <= i < |rows| ==> tagged[i] == Candidate(rows[i], reason)
  {
    seq(|rows|, i requires 0 <= i < |rows| => Candidate(rows[i], reason))
  }

  function Ids(cs: seq<Candidate>): set<string> {
    set c | c in cs :: c.row.id
  }

  /** The first occurrence of every id, in order, with the reason it came first under. */
  function Distinct(cs: seq<Candidate>): seq<Candidate> {
    if cs == [] then []
    else if Last(cs).row.id in Ids(Front(cs)) then Distinct(Front(cs))
    else Distinct(Front(cs)) + [Last(cs)]
  }

  function First(cs: seq<Candidate>, n: nat): seq<Candidate> {
    if |cs| <= n then cs else cs[..n]
  }

  /** The buckets one after another, with the first two cut off at `n`. */
  function Queried(cooldown: seq<Row>, neverProbed: seq<Row>, stale: seq<Row>, n: int, topStale: int): seq<Candidate> {
    Tag(Limit(cooldown, n), CooldownRecovery) + Tag(Limit(neverProbed, n), NeverProbed)
    + Tag(Limit(stale, topStale), Stale)
  }

  /** The same without the cut-offs; only the stale bucket is bounded by design. */
  function Wanted(cooldown: seq<Row>, neverProbed: seq<Row>, stale: seq<Row>, topStale: int): seq<Candidate> {
    Tag(cooldown, CooldownRecovery) + Tag(neverProbed, NeverProbed) + Tag(Limit(stale, topStale), Stale)
  }

  /** Rows of one query on a table whose key is the id. */
  ghost predicate Keyed(rows: seq<Row>) {
    forall i, j :: 0 <= i < j < |rows| ==> rows[i].id != rows[j].id
  }

  // ---------------------------------------------------------------------------------------------
  // The loop
  // ---------------------------------------------------------------------------------------------

  /** The inner loop, over one bucket. It stops as soon as `n` candidates are there, which for `n <= 0` is only noticed
      after the first. */
  method TakeBucket(bucket: seq<Candidate>, n: int, seen: set<string>, candidates: seq<Candidate>,
                    ghost before: seq<Candidate>)
    returns (full: bool, seen': set<string>, candidates': seq<Candidate>)
    requires seen == Ids(before) && candidates == Distinct(before) && |candidates| < Enough(n)
    ensures !full ==> seen' == Ids(before + bucket) && candidates' == Distinct(before + bucket)
    ensures !full ==> |candidates'| < Enough(n)
    ensures full ==> |candidates'| == Enough(n) && candidates' <= Distinct(before + bucket)
  {
    hide Ids, Distinct;
    full, seen', candidates' := false, seen, candidates;
    var i := 0;
    assert before + bucket[..0] == before;
    while i < |bucket|
      invariant 0 <= i <= |bucket|
      invariant seen' == Ids(before + bucket[..i])
      invariant candidates' == Distinct(before + bucket[..i]) && |candidates'| < Enough(n)
    {
      var c := bucket[i];
      assert before + bucket[..i + 1] == before + bucket[..i] + [c];
      DistinctSnoc(before + bucket[..i], c);
      if c.row.id !in seen' {
        seen' := seen' + {c.row.id};
        candidates' := candidates' + [c];
        if |candidates'| >= n {
          DistinctGrows(before + bucket[..i + 1], bucket[i + 1..]);
          assert before + bucket[..i + 1] + bucket[i + 1..] == before + bucket;
          return true, seen', candidates';
        }
      }
      i := i + 1;
    }
    assert bucket[..|bucket|] == bucket;
  }

  /** How many candidates end the loop. */
  function Enough(n: int): nat {
    if n >= 1 then n else 1
  }

  method SelectProbeCandidates(cooldown: seq<Row>, neverProbed: seq<Row>, stale: seq<Row>, n: int, topStale: int)
    returns (candidates: seq<Candidate>)
    requires Keyed(cooldown) && Keyed(neverProbed)
    ensures candidates == First(Distinct(Queried(cooldown, neverProbed, stale, n, topStale)), Enough(n))
    ensures n >= 1 ==> candidates == First(Distinct(Wanted(cooldown, neverProbed, stale, topStale)), n)
  {
    hide Ids, Wanted, Tag, Limit, Distinct, Flatten, Keyed;
    if n >= 1 {
      CutOffsAreHarmless(cooldown, neverProbed, stale, n, topStale);
    }
    var buckets := [Tag(Limit(cooldown, n), CooldownRecovery), Tag(Limit(neverProbed, n), NeverProbed),
                    Tag(Limit(stale, topStale), Stale)];
    FlattenThree(buckets[0], buckets[1], buckets[2]);
    var seen: set<string> := {};
    NoIds();
    candidates := [];
    var b, full := 0, false;
    while b < |buckets| && !full
      invariant 0 <= b <= |buckets|
      invariant !full ==> seen == Ids(Flatten(buckets[..b])) && candidates == Distinct(Flatten(buckets[..b]))
      invariant !full ==> |candidates| < Enough(n)
      invariant full ==> |candidates| == Enough(n) && candidates <= Distinct(Flatten(buckets[..b]))
    {
      assert buckets[..b + 1] == buckets[..b] + [buckets[b]];
      FlattenSnoc(buckets[..b], buckets[b]);
      full, seen, candidates := TakeBucket(buckets[b], n, seen, candidates, Flatten(buckets[..b]));
      b := b + 1;
    }
    assert buckets == buckets[..b] + buckets[b..];
    FlattenAppend(buckets[..b], buckets[b..]);
    DistinctGrows(Flatten(buckets[..b]), Flatten(buckets[b..]));
    assert b == |buckets| ==> buckets[..b] == buckets;
  }

  lemma FlattenThree(a: seq<Candidate>, b: seq<Candidate>, c: seq<Candidate>)
    ensures Flatten([a, b, c]) == a + b + c
  {
    assert [] + [a] == [a] && [a] + [b] == [a, b] && [a, b] + [c] == [a, b, c];
    FlattenSnoc([], a);
    FlattenSnoc([a], b);
    FlattenSnoc([a, b], c);
  }

  lemma NoIds()
    ensures Flatten<Candidate>([]) == [] && Ids([]) == {} && Distinct([]) == []
  {
  }

  lemma DistinctSnoc(cs: seq<Candidate>, c: Candidate)
    ensures Distinct(cs + [c]) == if c.row.id in Ids(cs) then Distinct(cs) else Distinct(cs) + [c]
    ensures Ids(cs + [c]) == Ids(cs) + {c.row.id}
  {
    assert Front(cs + [c]) == cs;
  }

  /** What is appended later never disturbs what is already chosen. */
  lemma {:induction false} DistinctGrows(a: seq<Candidate>, b: seq<Candidate>)
    ensures Distinct(a) <= Distinct(a + b)
  {
    if b == [] {
      assert a + b == a;
    } else {
      DistinctGrows(a, Front(b));
      assert a + b == a + Front(b) + [Last(b)];
      DistinctSnoc(a + Front(b), Last(b));
    }
  }

  // ---------------------------------------------------------------------------------------------
  // Why the cut-offs in the queries are harmless
  // ---------------------------------------------------------------------------------------------

  lemma {:induction false} DistinctKeepsIds(cs: seq<Candidate>)
    ensures Ids(Distinct(cs)) == Ids(cs)
  {
    if cs != [] {
      DistinctKeepsIds(Front(cs));
      assert cs == Front(cs) + [Last(cs)];
      DistinctSnoc(Front(cs), Last(cs));
      DistinctSnoc(Distinct(Front(cs)), Last(cs));
    }
  }

  lemma {:induction false} FewerIdsThanCandidates(cs: seq<Candidate>)
    ensures |Ids(cs)| <= |cs|
  {
    if cs != [] {
      FewerIdsThanCandidates(Front(cs));
      assert cs == Front(cs) + [Last(cs)];
      DistinctSnoc(Front(cs), Last(cs));
    }
  }

  lemma {:induction false} KeyedIds(rows: seq<Row>, reason: Reason)
    requires Keyed(rows)
    ensures |Ids(Tag(rows, reason))| == |rows|
  {
    if rows != [] {
      var before, c := Tag(Front(rows), reason), Candidate(Last(rows), reason);
      KeyedIds(Front(rows), reason);
      assert Tag(rows, reason) == before + [c];
      DistinctSnoc(before, c);
    } else {
      assert Ids(Tag(rows, reason)) == {};
    }
  }

  /** `n` rows of one keyed query supply `n` distinct candidates, whatever was chosen before them. */
  lemma EnoughFromOneQuery(before: seq<Candidate>, rows: seq<Row>, reason: Reason, n: nat)
    requires Keyed(rows) && n < |rows|
    ensures |Distinct(before + Tag(Limit(rows, n), reason))| >= n
  {
    var cs := before + Tag(Limit(rows, n), reason);
    KeyedIds(Limit(rows, n), reason);
    DistinctKeepsIds(cs);
    FewerIdsThanCandidates(Distinct(cs));
    assert Ids(Tag(Limit(rows, n), reason)) <= Ids(cs);
    SubsetSize(Ids(Tag(Limit(rows, n), reason)), Ids(cs));
  }

  lemma CutOffIsHarmless(before: seq<Candidate>, rows: seq<Row>, reason: Reason, rest: seq<Candidate>,
                         other: seq<Candidate>, n: nat)
    requires Keyed(rows) && (|rows| <= n ==> rest == other)
    ensures First(Distinct(before + Tag(Limit(rows, n), reason) + rest), n) ==
            First(Distinct(before + Tag(rows, reason) + other), n)
  {
    hide Distinct, Tag, Keyed;
    if n < |rows| {
      var kept, dropped := Tag(Limit(rows, n), reason), Tag(rows[n..], reason);
      EnoughFromOneQuery(before, rows, reason, n);
      TagSplits(rows, reason, n);
      assert before + Tag(rows, reason) + other == before + kept + (dropped + other);
      SameFirst(before + kept, rest, dropped + other, n);
    }
  }

  lemma TagSplits(rows: seq<Row>, reason: Reason, n: nat)
    requires n <= |rows|
    ensures Tag(rows, reason) == Tag(Limit(rows, n), reason) + Tag(rows[n..], reason)
  {
  }

  /** Once there are enough, what follows does not matter. */
  lemma SameFirst(cs: seq<Candidate>, a: seq<Candidate>, b: seq<Candidate>, n: nat)
    requires |Distinct(cs)| >= n
    ensures First(Distinct(cs + a), n) == First(Distinct(cs + b), n)
  {
    hide Distinct;
    DistinctGrows(cs, a);
    DistinctGrows(cs, b);
  }

  lemma CutOffsAreHarmless(cooldown: seq<Row>, neverProbed: seq<Row>, stale: seq<Row>, n: nat, topStale: int)
    requires Keyed(cooldown) && Keyed(neverProbed)
    ensures First(Distinct(Queried(cooldown, neverProbed, stale, n, topStale)), n) ==
            First(Distinct(Wanted(cooldown, neverProbed, stale, topStale)), n)
  {
    hide First, Distinct;
    var a, b, c := Tag(cooldown, CooldownRecovery), Tag(neverProbed, NeverProbed), Tag(Limit(stale, topStale), Stale);
    var a', b' := Tag(Limit(cooldown, n), CooldownRecovery), Tag(Limit(neverProbed, n), NeverProbed);
    if |cooldown| <= n {
      assert a' == a;
      CutOffIsHarmless(a, neverProbed, NeverProbed, c, c, n);
    } else {
      CutOffIsHarmless([], cooldown, CooldownRecovery, b' + c, b + c, n);
      assert [] + a' + (b' + c) == a' + b' + c && [] + a + (b + c) == a + b + c;
    }
  }

  // ---------------------------------------------------------------------------------------------
  // What First(Distinct(...)) means
  // ---------------------------------------------------------------------------------------------

  /** The chosen candidates are the first of their id among all candidates: none is repeated, none that comes earlier
      is passed over, and the reason is that of the first bucket holding the id. */
  lemma {:induction false} DistinctIsFirstOccurrences(cs: seq<Candidate>, c: Candidate)
    ensures c in Distinct(cs) <==> exists i :: 0 <= i < |cs| && cs[i] == c && c.row.id !in Ids(cs[..i])
  {
    if cs == [] {
    } else {
      var before, last := Front(cs), |cs| - 1;
      DistinctIsFirstOccurrences(before, c);
      assert forall i :: 0 <= i < last ==> before[i] == cs[i] && before[..i] == cs[..i];
      assert cs[..last] == before;
      if c in Distinct(cs) && c !in Distinct(before) {
        assert cs[last] == c && c.row.id !in Ids(cs[..last]);
      }
    }
  }

  /** The reason under which a model is probed says which query found it, and that no query before that one did. */
  lemma ReasonMeans(cooldown: seq<Row>, neverProbed: seq<Row>, stale: seq<Row>, topStale: int, c: Candidate)
    ensures
      var top := if 0 <= topStale < |stale| then stale[..topStale] else stale;
      c in Distinct(Wanted(cooldown, neverProbed, stale, topStale)) ==>
        match c.reason
        case CooldownRecovery => c.row in cooldown
        case NeverProbed => c.row in neverProbed && !HasId(cooldown, c.row.id)
        case Stale => c.row in top && !HasId(cooldown, c.row.id) && !HasId(neverProbed, c.row.id)
  {
    hide Distinct, Tag, Ids, HasId, Limit;
    var a, b, d := Tag(cooldown, CooldownRecovery), Tag(neverProbed, NeverProbed), Tag(Limit(stale, topStale), Stale);
    LimitIs(stale, topStale);
    if c in Distinct(a + b + d) {
      match c.reason {
        case CooldownRecovery =>
          assert [] + a + (b + d) == a + b + d;
          FoundIn([], cooldown, CooldownRecovery, b + d, c);
        case NeverProbed =>
          FoundIn(a, neverProbed, NeverProbed, d, c);
          assert [] + a + [] == a;
          IdsOfTagged(cooldown, CooldownRecovery, [], [], c.row.id);
        case Stale =>
          assert a + b + d + [] == a + b + d;
          FoundIn(a + b, Limit(stale, topStale), Stale, [], c);
          assert [] + a + b == a + b && a + b + [] == a + b;
          IdsOfTagged(cooldown, CooldownRecovery, [], b, c.row.id);
          IdsOfTagged(neverProbed, NeverProbed, a, [], c.row.id);
      }
    }
  }

  /** A chosen candidate comes from the bucket of its reason, and its id from none before that. */
  lemma FoundIn(before: seq<Candidate>, rows: seq<Row>, reason: Reason, after: seq<Candidate>, c: Candidate)
    requires c.reason == reason && c in Distinct(before + Tag(rows, reason) + after)
    requires (forall d :: d in before ==> d.reason != reason) && (forall d :: d in after ==> d.reason != reason)
    ensures c.row in rows && c.row.id !in Ids(before)
  {
    hide Distinct;
    var cs := before + Tag(rows, reason) + after;
    DistinctIsFirstOccurrences(cs, c);
    var i :| 0 <= i < |cs| && cs[i] == c && c.row.id !in Ids(cs[..i]);
    assert |before| <= i < |before| + |rows|;
    assert c.row == rows[i - |before|];
    assert forall d :: d in before ==> d in cs[..i] by {
      assert cs[..i] == before + cs[|before|..i];
    }
  }

  lemma LimitIs(rows: seq<Row>, n: int)
    ensures Limit(rows, n) == if 0 <= n < |rows| then rows[..n] else rows
  {
  }

  ghost predicate HasId(rows: seq<Row>, id: string) {
    exists r :: r in rows && r.id == id
  }

  lemma IdsOfTagged(rows: seq<Row>, reason: Reason, before: seq<Candidate>, after: seq<Candidate>, id: string)
    requires id !in Ids(before + Tag(rows, reason) + after)
    ensures !HasId(rows, id)
  {
    var cs := before + Tag(rows, reason) + after;
    forall i | 0 <= i < |rows|
      ensures rows[i].id != id
    {
      assert cs[|before| + i] == Tag(rows, reason)[i] && cs[|before| + i] in cs;
    }
  }

  lemma {:induction false} DistinctHasNoRepeats(cs: seq<Candidate>)
    ensures forall i, j :: 0 <= i < j < |Distinct(cs)| ==> Distinct(cs)[i].row.id != Distinct(cs)[j].row.id
  {
    if cs != [] {
      DistinctHasNoRepeats(Front(cs));
      DistinctKeepsIds(Front(cs));
      assert forall c :: c in Distinct(Front(cs)) ==> c.row.id in Ids(Distinct(Front(cs)));
    }
  }
}
