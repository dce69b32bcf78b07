/** Reading the open LLM leaderboard page by page: `fetch_open_llm_scores` of src/benchmarks.py. The server is an
    arbitrary function of the call number, the offset and the length asked for. */
module Paging {
  import opened Sequences

  const MAX_ROWS_PAGE_SIZE := 100

  /** A row after `normalize_model_name` and `_open_llm_average_score`. */
  datatype Row = Row(name: string, score: Option<real>)

  type Scores = map<string, real>

  /** `TooLong` is a 422 whose message names a limit (0 if it names none); `Refused` is any other failure. */
  datatype Reply = Page(rows: seq<Row>) | TooLong(limit: nat) | Refused

  type Server = (nat, nat, nat) -> Reply

  /** `_update_score` */
  function Update(scores: Scores, row: Row): Scores {
    if row.name == "" || row.score.None? then scores
    else if row.name in scores && row.score.value <= scores[row.name] then scores
    else scores[row.name := row.score.value]
  }

  function Best(rows: seq<Row>): Scores {
    if rows == [] then map[] else Update(Best(Front(rows)), Last(rows))
  }

  predicate Scored(row: Row, name: string) {
    name != "" && row.name == name && row.score.Some?
  }

  /** `best` is the maximum score of `name` over all rows. */
  ghost predicate IsMaximum(rows: seq<Row>, name: string, best: real) {
    && (exists i :: 0 <= i < |rows| && Scored(rows[i], name) && rows[i].score.value == best)
    && (forall i :: 0 <= i < |rows| && Scored(rows[i], name) ==> rows[i].score.value <= best)
  }

  /** The table holds exactly the names that have a score, each with its maximum. */
  lemma {:induction false} BestIsMaximum(rows: seq<Row>, name: string)
    ensures name in Best(rows) <==> exists i :: 0 <= i < |rows| && Scored(rows[i], name)
    ensures name in Best(rows) ==> IsMaximum(rows, name, Best(rows)[name])
  {
    if rows != [] {
      var before, last := Front(rows), |rows| - 1;
      BestIsMaximum(before, name);
      assert forall i :: 0 <= i < last ==> before[i] == rows[i];
      if name in Best(before) {
        var i :| 0 <= i < last && Scored(before[i], name) && before[i].score.value == Best(before)[name];
        assert rows[i] == before[i];
      }
      if Scored(rows[last], name) {
        assert name in Best(rows);
      }
    }
  }

  /** The server answers every page request it answers at all with the rows that follow the offset, at least one. */
  ghost predicate Contiguous(server: Server, rows: seq<Row>) {
    forall call: nat, offset: nat, length: nat :: offset < |rows| && server(call, offset, length).Page? ==>
      var page := server(call, offset, length).rows;
      1 <= |page| <= |rows| - offset && page == rows[offset..offset + |page|]
  }

  /** A reply after which no shorter page is worth asking for. */
  predicate IsHopeless(reply: Reply, length: nat) {
    reply.Refused? || (reply.TooLong? && (reply.limit == 0 || length <= 1))
  }

  /** The server grants up to `most` rows and says so when it is asked for more. */
  ghost predicate HasLimit(server: Server, most: nat) {
    forall call: nat, offset: nat, length: nat ::
      if length <= most then server(call, offset, length).Page? else server(call, offset, length) == TooLong(most)
  }

  /** The server refuses every page and names limits that were respected. */
  ghost predicate IsStubborn(server: Server, pageSize: nat) {
    forall call: nat, offset: nat, length: nat ::
      server(call, offset, length).TooLong? && server(call, offset, length).limit >= pageSize
  }

  /** The inner loop: asks for shorter and shorter pages until one is granted or the reply is hopeless. A limit that the
      server names is learned from one refusal; against a server that names no smaller one the page is halved. */
  method FetchPage(server: Server, call: nat, offset: nat, pageSize: nat, ghost most: nat)
    returns (ok: bool, rows: seq<Row>, pageSize': nat, call': nat)
    requires 1 <= pageSize
    ensures 1 <= pageSize' <= pageSize && call < call' <= call + 1 + (pageSize - pageSize')
    ensures ok ==> server(call' - 1, offset, pageSize') == Page(rows)
    ensures !ok ==> IsHopeless(server(call' - 1, offset, pageSize'), pageSize')
    ensures server(call, offset, pageSize).Page? || IsHopeless(server(call, offset, pageSize), pageSize) ==>
      call' == call + 1 && pageSize' == pageSize
    ensures HasLimit(server, most) && most >= 1 ==>
      ok && pageSize' == Min(pageSize, most) && call' == call + if pageSize <= most then 1 else 2
    ensures IsStubborn(server, pageSize) ==> !ok && pageSize' == 1 && Pow2(call' - call - 1) <= pageSize
  {
    pageSize', call', rows := pageSize, call, [];
    while true
      invariant 1 <= pageSize' <= pageSize && call <= call' <= call + (pageSize - pageSize')
      invariant HasLimit(server, most) && most >= 1 ==>
        (pageSize' == pageSize && call' == call) || (pageSize' == most < pageSize && call' == call + 1)
      invariant server(call, offset, pageSize).Page? || IsHopeless(server(call, offset, pageSize), pageSize) ==>
        call' == call && pageSize' == pageSize
      invariant IsStubborn(server, pageSize) ==> pageSize' * Pow2(call' - call) <= pageSize
      decreases pageSize'
    {
      var reply := server(call', offset, pageSize');
      call' := call' + 1;
      if reply.Page? {
        return true, reply.rows, pageSize', call';
      }
      if reply.Refused? || reply.limit == 0 || pageSize' <= 1 {
        return false, [], pageSize', call';
      }
      if reply.limit >= pageSize' {
        HalfTwice(pageSize', Pow2(call' - call - 1));
        pageSize' := Max(pageSize' / 2, 1);
      } else {
        pageSize' := reply.limit;
      }
    }
  }

  lemma HalfTwice(size: nat, power: nat)
    requires size >= 2
    ensures (size / 2) * (2 * power) <= size * power
  {
    assert size / 2 * 2 <= size;
    assert (size / 2 * 2) * power <= size * power;
    assert (size / 2) * (2 * power) == (size / 2 * 2) * power;
  }

  /** The server never gives a hopeless reply to a request for at least one row. */
  ghost predicate IsCooperative(server: Server) {
    forall call: nat, offset: nat, length: nat :: length >= 1 ==> !IsHopeless(server(call, offset, length), length)
  }

  lemma BestOfOneMore(rows: seq<Row>, row: Row)
    ensures Best(rows + [row]) == Update(Best(rows), row)
  {
    hide Update;
    assert Front(rows + [row]) == rows;
  }

  method AddRows(scores: Scores, page: seq<Row>, ghost received: seq<Row>) returns (scores': Scores)
    requires scores == Best(received)
    ensures scores' == Best(received + page)
  {
    hide Update, Best;
    scores' := scores;
    var i := 0;
    assert received + page[..0] == received;
    while i < |page|
      invariant 0 <= i <= |page| && scores' == Best(received + page[..i])
    {
      BestOfOneMore(received + page[..i], page[i]);
      assert received + page[..i + 1] == received + page[..i] + [page[i]];
      scores' := Update(scores', page[i]);
      i := i + 1;
    }
    assert page[..|page|] == page;
  }

  /** The server grants requests for exactly `length` rows and refuses all others. */
  ghost predicate OnlyServes(server: Server, length: nat) {
    forall call: nat, offset: nat, n: nat ::
      if n == length then server(call, offset, n).Page? else server(call, offset, n).Refused?
  }

  lemma Served(server: Server, call: nat, offset: nat, length: nat)
    requires length >= 1
    ensures OnlyServes(server, length) ==> server(call, offset, length).Page?
    ensures IsCooperative(server) || OnlyServes(server, length) ==> !IsHopeless(server(call, offset, length), length)
  {
  }

  lemma NextRows(server: Server, rows: seq<Row>, call: nat, offset: nat, length: nat)
    requires server(call, offset, length).Page?
    ensures Contiguous(server, rows) && offset < |rows| ==>
      var page := server(call, offset, length).rows;
      1 <= |page| <= |rows| - offset && rows[..offset] + page == rows[..offset + |page|]
  {
  }

  lemma NoRows()
    ensures Best([]) == map[]
  {
  }

  /** Terminates for every server, within `numRows + 100` requests. `received` is everything the pages held; the
      result is always their best scores, and against a contiguous server it is the best scores of all rows, whatever
      the page sizes were. */
  method FetchOpenLlmScores(server: Server, numRows: int, pageSize: int, ghost rows: seq<Row>)
    returns (ok: bool, scores: Scores, calls: nat, ghost received: seq<Row>)
    ensures calls <= if numRows <= 0 then 0 else numRows + MAX_ROWS_PAGE_SIZE
    ensures scores == Best(received)
    ensures numRows <= 0 ==> ok && received == []
    ensures ok && |rows| == numRows && Contiguous(server, rows) ==> scores == Best(rows)
    ensures IsCooperative(server) ==> ok
    ensures OnlyServes(server, Max(Min(pageSize, 100), 1)) ==> ok
  {
    hide Update, HasLimit, IsStubborn, Pow2, OnlyServes, IsHopeless, IsCooperative, Contiguous, Best;
    scores, received, ok, calls := map[], [], true, 0;
    NoRows();
    if numRows <= 0 {
      return;
    }
    var size: nat := if pageSize < 1 then 1 else if pageSize < MAX_ROWS_PAGE_SIZE then pageSize else MAX_ROWS_PAGE_SIZE;
    var offset: nat, more := 0, true;
    ghost var rounds := 0;
    while offset < numRows && more
      invariant ok && 1 <= size && scores == Best(received)
      invariant OnlyServes(server, Max(Min(pageSize, 100), 1)) ==> size == Max(Min(pageSize, 100), 1)
      invariant 0 <= rounds <= numRows && (more ==> rounds <= offset) && calls + size <= rounds + MAX_ROWS_PAGE_SIZE
      invariant |rows| == numRows && Contiguous(server, rows) ==> more && offset <= |rows| && received == rows[..offset]
      decreases numRows - offset, more
    {
      var page: seq<Row>;
      Served(server, calls, offset, size);
      ok, page, size, calls := FetchPage(server, calls, offset, size, 0);
      rounds := rounds + 1;
      if !ok {
        Served(server, calls - 1, offset, size);
        return;
      }
      NextRows(server, rows, calls - 1, offset, size);
      scores := AddRows(scores, page, received);
      received := received + page;
      if |page| <= 0 {
        more := false;
      }
      offset := offset + |page|;
    }
    assert |rows| == numRows && Contiguous(server, rows) ==> rows[..offset] == rows;
  }
}
