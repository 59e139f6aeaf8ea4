/** The durable circular buffer of the edge node, as an object whose table changes in place. */
module EdgeBuffer {
  import opened Collections
  import opened BufferProtocol
  import opened StableSorting

  /** Older rows score higher, so that descending score is ascending timestamp. */
  function Age(r: Row): real {
    -(r.timestamp as real)
  }

  ghost predicate Ascending(rows: seq<Row>) {
    forall i, j :: 0 <= i < j < |rows| ==> rows[i].timestamp <= rows[j].timestamp
  }

  /** A legitimate answer to "the n oldest": that many rows, in order, and nothing older left out. */
  ghost predicate IsOldestBatch(rows: seq<Row>, batch: seq<Row>, n: nat) {
    && |batch| == (if n < |rows| then n else |rows|)
    && Ascending(batch)
    && (forall i, j :: 0 <= i < j < |batch| ==> batch[i] != batch[j])
    && (forall b :: b in batch ==> b in rows)
    && (forall b, r :: b in batch && r in rows && r !in batch ==> b.timestamp <= r.timestamp)
  }

  lemma {:induction false} OldestExists(rows: seq<Row>) returns (i: nat)
    requires rows != []
    ensures i < |rows| && IsOldest(rows, i)
  {
    var n := |rows| - 1;
    assert rows == rows[..n] + [rows[n]];
    if n == 0 {
      i := 0;
    } else {
      i := OldestExists(rows[..n]);
      if rows[n].timestamp < rows[i].timestamp {
        i := n;
      }
    }
  }

  lemma SortedPrefixIsOldest(rows: seq<Row>, n: nat)
    requires UniqueIds(rows) && n <= |rows|
    ensures |SortDescending(rows, Age)| == |rows|
    ensures IsOldestBatch(rows, SortDescending(rows, Age)[..n], n)
  {
    hide SortDescending;
    var s := SortDescending(rows, Age);
    SortPermutes(rows, Age);
    SortedDescending(rows, Age);
    assert |s| == |multiset(s)| == |multiset(rows)| == |rows|;
    DistinctSorted(rows, s);
    var batch := s[..n];
    forall b, r | b in batch && r in rows && r !in batch ensures b.timestamp <= r.timestamp {
      assert r in multiset(s);
      var i :| 0 <= i < n && batch[i] == b;
      var j :| 0 <= j < |s| && s[j] == r;
      assert Age(s[i]) >= Age(s[j]);
    }
    forall b | b in batch ensures b in rows {
      assert b in multiset(s);
    }
    forall i, j | 0 <= i < j < |batch| ensures batch[i].timestamp <= batch[j].timestamp {
      assert Age(s[i]) >= Age(s[j]);
    }
  }

  lemma DistinctSorted(rows: seq<Row>, s: seq<Row>)
    requires UniqueIds(rows) && multiset(s) == multiset(rows)
    ensures forall i, j :: 0 <= i < j < |s| ==> s[i] != s[j]
  {
    forall i, j | 0 <= i < j < |s| ensures s[i] != s[j] {
      if s[i] == s[j] {
        var x := s[i];
        assert s == s[..i] + [x] + s[i + 1..j] + [x] + s[j + 1..];
        assert multiset(s)[x] >= 2;
        AtMostOnce(rows, x);
      }
    }
  }

  lemma {:induction false} AtMostOnce(rows: seq<Row>, x: Row)
    requires UniqueIds(rows)
    ensures multiset(rows)[x] <= 1
  {
    if rows != [] {
      var t := rows[1..];
      AtMostOnce(t, x);
      assert rows == [rows[0]] + t;
    }
  }

  class CircularBuffer {
    const maxRows: int
    var rows: seq<Row>
    var overflowLog: seq<string>
    var nextRowId: nat
    ghost var inserted: seq<Row>
    ghost var acked: seq<Row>
    ghost var evicted: seq<Row>

    constructor (maxRows: int)
      ensures Valid() && Model() == EMPTY && this.maxRows == maxRows
    {
      this.maxRows := maxRows;
      rows, overflowLog, nextRowId := [], [], 0;
      inserted, acked, evicted := [], [], [];
    }

    ghost function Model(): State
      reads this
    {
      State(rows, overflowLog, inserted, acked, evicted)
    }

    ghost predicate Valid()
      reads this
    {
      Sound(maxRows, Model()) && nextRowId == |inserted|
    }

    /** `write`; `victim` is the oldest row the database picked when the table was full. */
    method Write(eventId: string, timestamp: int, payload: string) returns (ghost victim: nat)
      requires Valid()
      modifies this
      ensures Valid()
      ensures var e := Event.Write(eventId, timestamp, payload, victim);
              Legal(maxRows, old(Model()), e) && Model() == Step(maxRows, old(Model()), e)
    {
      hide Sound, Resident;
      ghost var before := Model();
      victim := 0;
      if |rows| >= maxRows && rows != [] {
        ghost var oldest := OldestExists(rows);
        var i: nat :| i < |rows| && IsOldest(rows, i);
        victim := i;
        overflowLog := overflowLog + [rows[i].eventId];
        evicted := evicted + [rows[i]];
        rows := Without(rows, i);
      }
      ghost var e := Event.Write(eventId, timestamp, payload, victim);
      if !Resident(rows, eventId) {
        var row := Row(nextRowId, eventId, timestamp, payload);
        rows := rows + [row];
        nextRowId := nextRowId + 1;
        inserted := inserted + [row];
      }
      assert Model() == Step(maxRows, before, e);
      StepSound(maxRows, before, e);
    }

    /** `ack` */
    method Ack(eventId: string)
      requires Valid()
      modifies this
      ensures Valid() && Model() == Step(maxRows, old(Model()), Event.Ack(eventId))
    {
      hide Sound, Resident;
      ghost var before := Model();
      var i := Find(rows, eventId);
      if i < |rows| {
        acked := acked + [rows[i]];
        rows := Without(rows, i);
      }
      StepSound(maxRows, before, Event.Ack(eventId));
    }

    /** `read_oldest` */
    method ReadOldest(n: nat) returns (batch: seq<Row>)
      requires Valid()
      ensures IsOldestBatch(rows, batch, n)
    {
      hide SortDescending;
      var k := if n < |rows| then n else |rows|;
      SortedPrefixIsOldest(rows, k);
      batch := SortDescending(rows, Age)[..k];
    }
  }
}
