/** The database trigger that allocates per-run event sequences, as a step on a counter table and the
    table of stored events. */
module EventSequence {
  import opened Wrappers

  type RunId = string

  const MAX_BIGINT: int := 0x7FFF_FFFF_FFFF_FFFF

  datatype Row = Row(runId: RunId, sequence: int)

  /** An insert: the sequence it asks for, if any, and whether the row satisfies every other constraint. */
  datatype Request = Request(runId: RunId, sequence: Option<int>, storable: bool)

  datatype Tables = Tables(counters: map<RunId, int>, rows: seq<Row>)

  /** The trigger's allocation: the new counter value, or nothing when it raises. A missing sequence is
      allocated by an upsert, a first one needs a missing counter, any other one the counter before it. */
  function Allocate(counters: map<RunId, int>, runId: RunId, requested: Option<int>): Option<int> {
    match requested
    case None =>
      if runId !in counters then Some(1)
      else if counters[runId] + 1 > MAX_BIGINT then None
      else Some(counters[runId] + 1)
    case Some(n) =>
      if n == 1 then (if runId in counters then None else Some(1))
      else if runId in counters && counters[runId] == n - 1 && n <= MAX_BIGINT then Some(n)
      else None
  }

  function Insert(t: Tables, r: Request): Tables {
    var n := Allocate(t.counters, r.runId, r.sequence);
    if n.None? || !r.storable || n.value <= 0 || Row(r.runId, n.value) in t.rows then t
    else Tables(t.counters[r.runId := n.value], t.rows + [Row(r.runId, n.value)])
  }

  function Play(requests: seq<Request>): Tables {
    if requests == [] then Tables(map[], [])
    else Insert(Play(requests[..|requests| - 1]), requests[|requests| - 1])
  }

  /** The sequences stored for a run, in the order of their storage. */
  function Stored(rows: seq<Row>, runId: RunId): (ns: seq<int>)
    ensures forall n :: n in ns <==> Row(runId, n) in rows
  {
    if rows == [] then []
    else
      assert rows == rows[..|rows| - 1] + [rows[|rows| - 1]];
      Stored(rows[..|rows| - 1], runId) + if rows[|rows| - 1].runId == runId then [rows[|rows| - 1].sequence] else []
  }

  /** Exactly 1, 2, ..., n, and the counter is n, or absent when nothing is stored. */
  ghost predicate Gapless(t: Tables, runId: RunId) {
    var ns := Stored(t.rows, runId);
    && (forall i :: 0 <= i < |ns| ==> ns[i] == i + 1)
    && (runId in t.counters <==> ns != [])
    && (ns != [] ==> t.counters[runId] == |ns| <= MAX_BIGINT)
  }

  ghost predicate Consistent(t: Tables) {
    forall runId :: Gapless(t, runId)
  }

  lemma StoredAppend(rows: seq<Row>, r: Row, runId: RunId)
    ensures Stored(rows + [r], runId) == if r.runId == runId then Stored(rows, runId) + [r.sequence]
                                         else Stored(rows, runId)
  {
    assert (rows + [r])[..|rows|] == rows;
  }

  /** What an insert asks for is granted. */
  predicate Granted(t: Tables, r: Request) {
    var n := |Stored(t.rows, r.runId)|;
    r.storable && n < MAX_BIGINT && (r.sequence.None? || r.sequence.value == n + 1)
  }

  /** In consistent tables the trigger accepts exactly the inserts that ask for no sequence or for the next
      one; it stores that next sequence and changes nothing else; a refused insert changes nothing. */
  lemma InsertIsExact(t: Tables, r: Request)
    requires Consistent(t)
    ensures var n := |Stored(t.rows, r.runId)|;
            Insert(t, r) == if Granted(t, r) then Tables(t.counters[r.runId := n + 1], t.rows + [Row(r.runId, n + 1)])
                            else t
  {
    assert Gapless(t, r.runId);
    var ns := Stored(t.rows, r.runId);
    assert |ns| + 1 !in ns;
    assert Row(r.runId, |ns| + 1) !in t.rows;
  }

  lemma InsertKeepsConsistent(t: Tables, r: Request)
    requires Consistent(t)
    ensures Consistent(Insert(t, r))
  {
    hide Insert, Allocate, Stored;
    InsertIsExact(t, r);
    var u := Insert(t, r);
    if Granted(t, r) {
      forall runId ensures Gapless(u, runId) {
        assert Gapless(t, runId);
        StoredAppend(t.rows, Row(r.runId, |Stored(t.rows, r.runId)| + 1), runId);
      }
    }
  }

  /** Inserts are played one after the other from empty tables: each that is granted adds exactly its row. */
  lemma EachInsertIsPlayed(requests: seq<Request>, r: Request)
    ensures Play([]) == Tables(map[], [])
    ensures var t := Play(requests);
            Play(requests + [r]).rows
            == t.rows + if Granted(t, r) then [Row(r.runId, |Stored(t.rows, r.runId)| + 1)] else []
  {
    hide Insert, Granted;
    assert (requests + [r])[..|requests|] == requests;
    EveryRunIsGapless(requests);
    InsertIsExact(Play(requests), r);
  }

  /** For every interleaving of inserts over many runs: each run's stored sequences are exactly 1 to n, its
      counter is n when n is positive and absent otherwise. */
  lemma {:induction false} EveryRunIsGapless(requests: seq<Request>)
    ensures Consistent(Play(requests))
  {
    if requests != [] {
      EveryRunIsGapless(requests[..|requests| - 1]);
      InsertKeepsConsistent(Play(requests[..|requests| - 1]), requests[|requests| - 1]);
    }
  }

  /** An insert for one run is invisible to every other run. */
  lemma OtherRunsAreUntouched(requests: seq<Request>, r: Request, runId: RunId)
    requires runId != r.runId
    ensures Stored(Play(requests + [r]).rows, runId) == Stored(Play(requests).rows, runId)
    ensures runId in Play(requests + [r]).counters <==> runId in Play(requests).counters
    ensures runId in Play(requests).counters ==> Play(requests + [r]).counters[runId] == Play(requests).counters[runId]
  {
    assert (requests + [r])[..|requests|] == requests;
    EveryRunIsGapless(requests);
    InsertIsExact(Play(requests), r);
    StoredAppend(Play(requests).rows, Row(r.runId, |Stored(Play(requests).rows, r.runId)| + 1), runId);
  }

  /** The two tables with the trigger installed. */
  class Database {
    var counters: map<RunId, int>
    var rows: seq<Row>

    constructor ()
      ensures counters == map[] && rows == [] && Valid()
    {
      counters, rows := map[], [];
    }

    ghost predicate Valid()
      reads this
    {
      Consistent(Tables(counters, rows))
    }

    /** One insert, atomically. */
    method Add(r: Request) returns (sequence: Option<int>)
      requires Valid()
      modifies this
      ensures Valid()
      ensures Tables(counters, rows) == Insert(old(Tables(counters, rows)), r)
      ensures sequence.Some? <==> Granted(old(Tables(counters, rows)), r)
      ensures sequence.Some? ==> sequence.value == |Stored(old(rows), r.runId)| + 1
      ensures sequence.None? ==> unchanged(this)
    {
      hide Consistent;
      InsertIsExact(Tables(counters, rows), r);
      InsertKeepsConsistent(Tables(counters, rows), r);
      sequence := None;
      var last := if r.runId in counters then counters[r.runId] else 0;
      var next: int;
      if r.sequence.None? {
        if last + 1 > MAX_BIGINT {
          return;
        }
        next := last + 1;
      } else if r.sequence.value == 1 {
        if r.runId in counters {
          return;
        }
        next := 1;
      } else {
        if r.runId !in counters || last != r.sequence.value - 1 || r.sequence.value > MAX_BIGINT {
          return;
        }
        next := r.sequence.value;
      }
      if !r.storable || next <= 0 || Row(r.runId, next) in rows {
        return;
      }
      counters := counters[r.runId := next];
      rows := rows + [Row(r.runId, next)];
      assert rows[|rows| - 1] == Row(r.runId, |Stored(old(rows), r.runId)| + 1);
      sequence := Some(next);
    }
  }
}
