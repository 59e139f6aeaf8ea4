/** The bounded event table of the edge node: what writes and acknowledgements do to it, over any interleaving. */
module BufferProtocol {
  import opened Collections

  /** A resident event; `rowId` is the autoincrement key, timestamps stand for their text in sort order. */
  datatype Row = Row(rowId: nat, eventId: string, timestamp: int, payload: string)

  /** The table and its overflow log, with complete ledgers of what was inserted, acknowledged and evicted. */
  datatype State = State(
    rows: seq<Row>,
    overflowLog: seq<string>,
    inserted: seq<Row>,
    acked: seq<Row>,
    evicted: seq<Row>)

  const EMPTY := State([], [], [], [], [])

  datatype Event =
    | Write(eventId: string, timestamp: int, payload: string, victim: nat)
    | Ack(eventId: string)

  predicate Resident(rows: seq<Row>, eventId: string) {
    exists r :: r in rows && r.eventId == eventId
  }

  /** A row no other row is older than. */
  predicate IsOldest(rows: seq<Row>, i: nat) {
    i < |rows| && forall r :: r in rows ==> rows[i].timestamp <= r.timestamp
  }

  /** The database may break ties of timestamp any way it likes; `victim` says how. */
  predicate Legal(maxRows: int, s: State, e: Event) {
    e.Write? && |s.rows| >= maxRows && s.rows != [] ==> IsOldest(s.rows, e.victim)
  }

  function Evict(s: State, i: nat): State
    requires i < |s.rows|
  {
    s.(rows := Without(s.rows, i),
       overflowLog := s.overflowLog + [s.rows[i].eventId],
       evicted := s.evicted + [s.rows[i]])
  }

  /** `INSERT OR IGNORE` */
  function Insert(s: State, eventId: string, timestamp: int, payload: string): State {
    if Resident(s.rows, eventId) then s
    else
      var row := Row(|s.inserted|, eventId, timestamp, payload);
      s.(rows := s.rows + [row], inserted := s.inserted + [row])
  }

  /** Position of the row with the given event id, or the number of rows. */
  function Find(rows: seq<Row>, eventId: string): (i: nat)
    ensures i <= |rows|
    ensures i < |rows| ==> rows[i].eventId == eventId
    ensures i == |rows| <==> !Resident(rows, eventId)
  {
    if rows == [] then 0
    else
      assert rows == [rows[0]] + rows[1..];
      if rows[0].eventId == eventId then assert rows[0] in rows; 0 else 1 + Find(rows[1..], eventId)
  }

  function Acknowledge(s: State, eventId: string): State {
    var i := Find(s.rows, eventId);
    if i == |s.rows| then s
    else s.(rows := Without(s.rows, i), acked := s.acked + [s.rows[i]])
  }

  function Step(maxRows: int, s: State, e: Event): State
    requires Legal(maxRows, s, e)
  {
    match e
    case Write(eventId, timestamp, payload, victim) =>
      var t := if |s.rows| >= maxRows && s.rows != [] then Evict(s, victim) else s;
      Insert(t, eventId, timestamp, payload)
    case Ack(eventId) => Acknowledge(s, eventId)
  }

  ghost predicate LegalRun(maxRows: int, events: seq<Event>)
    decreases |events|, 0
  {
    events == [] ||
    (LegalRun(maxRows, events[..|events| - 1])
     && Legal(maxRows, Run(maxRows, events[..|events| - 1]), events[|events| - 1]))
  }

  ghost function Run(maxRows: int, events: seq<Event>): State
    requires LegalRun(maxRows, events)
    decreases |events|, 1
  {
    if events == [] then EMPTY
    else Step(maxRows, Run(maxRows, events[..|events| - 1]), events[|events| - 1])
  }

  // ---- What every run keeps ----

  function Ids(rows: seq<Row>): (ids: seq<string>)
    ensures |ids| == |rows|
  {
    seq(|rows|, i requires 0 <= i < |rows| => rows[i].eventId)
  }

  ghost predicate UniqueIds(rows: seq<Row>) {
    forall i, j :: 0 <= i < j < |rows| ==> rows[i].eventId != rows[j].eventId
  }

  ghost predicate Sound(maxRows: int, s: State) {
    && |s.rows| <= (if maxRows >= 1 then maxRows else 1)
    && UniqueIds(s.rows)
    && s.overflowLog == Ids(s.evicted)
    && (forall k :: 0 <= k < |s.inserted| ==> s.inserted[k].rowId == k)
    && multiset(s.rows) + multiset(s.acked) + multiset(s.evicted) == multiset(s.inserted)
  }

  lemma EvictKeepsLedger(s: State, i: nat)
    requires i < |s.rows| && UniqueIds(s.rows) && s.overflowLog == Ids(s.evicted)
    ensures var n := Evict(s, i);
            && UniqueIds(n.rows) && n.overflowLog == Ids(n.evicted)
            && multiset(n.rows) + multiset(n.acked) + multiset(n.evicted)
            == multiset(s.rows) + multiset(s.acked) + multiset(s.evicted)
  {
    assert s.rows[i] in s.rows;
    WithoutMembers(s.rows, i);
  }

  lemma InsertKeepsLedger(s: State, eventId: string, timestamp: int, payload: string)
    requires UniqueIds(s.rows)
    requires forall k :: 0 <= k < |s.inserted| ==> s.inserted[k].rowId == k
    ensures var n := Insert(s, eventId, timestamp, payload);
            && UniqueIds(n.rows)
            && (forall k :: 0 <= k < |n.inserted| ==> n.inserted[k].rowId == k)
            && multiset(n.rows) + multiset(s.inserted) == multiset(s.rows) + multiset(n.inserted)
            && |n.rows| <= |s.rows| + 1
  {
    forall i | 0 <= i < |s.rows| && !Resident(s.rows, eventId) ensures s.rows[i].eventId != eventId {
      assert s.rows[i] in s.rows;
    }
  }

  lemma AcknowledgeKeepsLedger(s: State, eventId: string)
    requires UniqueIds(s.rows)
    ensures var n := Acknowledge(s, eventId);
            && UniqueIds(n.rows) && |n.rows| <= |s.rows|
            && multiset(n.rows) + multiset(n.acked) == multiset(s.rows) + multiset(s.acked)
  {
    var i := Find(s.rows, eventId);
    if i < |s.rows| {
      assert s.rows[i] in s.rows;
      WithoutMembers(s.rows, i);
    }
  }

  lemma StepSound(maxRows: int, s: State, e: Event)
    requires Sound(maxRows, s) && Legal(maxRows, s, e)
    ensures Sound(maxRows, Step(maxRows, s, e))
  {
    hide UniqueIds, Ids, Evict, Insert, Acknowledge;
    match e
    case Write(eventId, timestamp, payload, victim) =>
      var t := s;
      if |s.rows| >= maxRows && s.rows != [] {
        EvictKeepsLedger(s, victim);
        EvictFields(s, victim);
        t := Evict(s, victim);
      }
      InsertKeepsLedger(t, eventId, timestamp, payload);
      InsertFields(t, eventId, timestamp, payload);
      var n := Insert(t, eventId, timestamp, payload);
      Exchange(multiset(n.rows), multiset(t.rows), multiset(t.acked), multiset(t.evicted),
               multiset(t.inserted), multiset(n.inserted));
    case Ack(eventId) =>
      AcknowledgeKeepsLedger(s, eventId);
      AcknowledgeFields(s, eventId);
  }

  lemma Exchange(a: multiset<Row>, b: multiset<Row>, c: multiset<Row>, d: multiset<Row>,
                 i: multiset<Row>, j: multiset<Row>)
    requires a + i == b + j && b + c + d == i
    ensures a + c + d == j
  {
    forall r: Row ensures (a + c + d)[r] == j[r] {
      assert (a + i)[r] == (b + j)[r];
    }
  }

  lemma EvictFields(s: State, i: nat)
    requires i < |s.rows|
    ensures Evict(s, i).inserted == s.inserted && Evict(s, i).acked == s.acked && |Evict(s, i).rows| == |s.rows| - 1
  {
  }

  lemma InsertFields(s: State, eventId: string, timestamp: int, payload: string)
    ensures var n := Insert(s, eventId, timestamp, payload);
            n.acked == s.acked && n.evicted == s.evicted && n.overflowLog == s.overflowLog
  {
  }

  lemma AcknowledgeFields(s: State, eventId: string)
    ensures var n := Acknowledge(s, eventId);
            n.inserted == s.inserted && n.evicted == s.evicted && n.overflowLog == s.overflowLog
  {
  }

  /**
   * Over any interleaving of writes and acknowledgements the table never exceeds its bound, its event ids are
   * unique, and every insertion is exactly one of resident, acknowledged, or evicted and logged.
   */
  lemma {:induction false} RunSound(maxRows: int, events: seq<Event>)
    requires LegalRun(maxRows, events)
    ensures Sound(maxRows, Run(maxRows, events))
    decreases |events|
  {
    hide Step, Legal;
    if events == [] {
      EmptySound(maxRows);
    } else {
      var front := events[..|events| - 1];
      RunSound(maxRows, front);
      StepSound(maxRows, Run(maxRows, front), events[|events| - 1]);
    }
  }

  lemma EmptySound(maxRows: int)
    ensures Sound(maxRows, EMPTY)
  {
  }

  /** Each inserted row appears in exactly one of the three ledgers, once. */
  lemma ExactlyOneFate(maxRows: int, events: seq<Event>, k: nat)
    requires LegalRun(maxRows, events) && k < |Run(maxRows, events).inserted|
    ensures var s := Run(maxRows, events);
            var r := s.inserted[k];
            multiset(s.rows)[r] + multiset(s.acked)[r] + multiset(s.evicted)[r] == 1
  {
    hide Run;
    RunSound(maxRows, events);
    InsertedOnce(Run(maxRows, events).inserted, k);
  }

  lemma InsertedOnce(inserted: seq<Row>, k: nat)
    requires k < |inserted| && forall j :: 0 <= j < |inserted| ==> inserted[j].rowId == j
    ensures multiset(inserted)[inserted[k]] == 1
  {
    var r := inserted[k];
    assert inserted == inserted[..k] + [r] + inserted[k + 1..];
    assert r !in inserted[..k] && r !in inserted[k + 1..];
  }

  /** A write to a full table evicts a row that nothing resident is older than, and says so in the log. */
  lemma EvictionIsOldest(maxRows: int, s: State, e: Event)
    requires e.Write? && |s.rows| >= maxRows && s.rows != [] && Legal(maxRows, s, e)
    ensures var n := Step(maxRows, s, e);
            exists row :: row in s.rows && n.evicted == s.evicted + [row] && n.overflowLog == s.overflowLog + [row.eventId]
                       && forall r :: r in s.rows ==> row.timestamp <= r.timestamp
  {
    hide Insert;
    var row := s.rows[e.victim];
    InsertFields(Evict(s, e.victim), e.eventId, e.timestamp, e.payload);
    assert row in s.rows;
  }

  /** The rows afterwards are the rows before without the one lost. */
  ghost predicate OthersKept(before: seq<Row>, after: seq<Row>, lost: Option<Row>) {
    && (forall r :: r in before && lost != Some(r) ==> r in after)
    && (forall r :: r in after ==> r in before && lost != Some(r))
  }

  /**
   * After a write the event is resident: with the timestamp and payload written and a key never used before if no
   * resident row had its id, or the old row was the one evicted; otherwise as it was. Nothing else comes in, and
   * nothing but the evicted row goes.
   */
  lemma WriteLands(maxRows: int, s: State, e: Event)
    requires e.Write? && Legal(maxRows, s, e) && Sound(maxRows, s)
    ensures var n := Step(maxRows, s, e);
            var lost := if |s.rows| >= maxRows && s.rows != [] then Some(s.rows[e.victim]) else None;
            var row := Row(|s.inserted|, e.eventId, e.timestamp, e.payload);
            var kept := exists r :: r in s.rows && r.eventId == e.eventId && lost != Some(r);
            && (kept ==> OthersKept(s.rows, n.rows, lost) && n.inserted == s.inserted)
            && (!kept ==> && n.rows != [] && n.rows[|n.rows| - 1] == row && n.inserted == s.inserted + [row]
                          && OthersKept(s.rows, n.rows[..|n.rows| - 1], lost))
  {
    var t := if |s.rows| >= maxRows && s.rows != [] then Evict(s, e.victim) else s;
    var lost := if |s.rows| >= maxRows && s.rows != [] then Some(s.rows[e.victim]) else None;
    if lost.Some? {
      WithoutMembers(s.rows, e.victim);
      VictimGone(s.rows, e.victim);
    }
    assert OthersKept(s.rows, t.rows, lost);
    var n := Step(maxRows, s, e);
    assert Resident(t.rows, e.eventId) || n.rows[..|n.rows| - 1] == t.rows;
  }

  lemma VictimGone(rows: seq<Row>, i: nat)
    requires i < |rows| && UniqueIds(rows)
    ensures rows[i] !in Without(rows, i)
  {
  }

  /** An acknowledgement takes exactly the row with the id, if there is one. */
  lemma AckExactly(maxRows: int, s: State, eventId: string)
    requires Sound(maxRows, s)
    ensures var n := Step(maxRows, s, Ack(eventId));
            && (forall r :: r in n.rows <==> r in s.rows && r.eventId != eventId)
            && n.evicted == s.evicted && n.overflowLog == s.overflowLog && n.inserted == s.inserted
            && if Resident(s.rows, eventId) then |n.acked| == |s.acked| + 1 && n.acked[|s.acked|].eventId == eventId
               else n == s
  {
    var i := Find(s.rows, eventId);
    if i < |s.rows| {
      WithoutMembers(s.rows, i);
      VictimGone(s.rows, i);
      forall r | r in s.rows && r.eventId == eventId ensures r == s.rows[i] {
        var j :| 0 <= j < |s.rows| && s.rows[j] == r;
      }
    }
  }

  /**
   * Writing an event that is already buffered leaves table and log alone exactly when the table is not full:
   * a full table evicts first and only then notices the duplicate.
   */
  lemma DuplicateWriteHarmless(maxRows: int, s: State, e: Event)
    requires e.Write? && Resident(s.rows, e.eventId) && Legal(maxRows, s, e)
    ensures var n := Step(maxRows, s, e);
            n.rows == s.rows && n.overflowLog == s.overflowLog <==> |s.rows| < maxRows
  {
    hide Resident;
    var n := Step(maxRows, s, e);
    if |s.rows| >= maxRows {
      assert s.rows != [] by { NonEmptyResident(s.rows, e.eventId); }
      InsertFields(Evict(s, e.victim), e.eventId, e.timestamp, e.payload);
      assert |n.overflowLog| == |s.overflowLog| + 1;
    }
  }

  lemma NonEmptyResident(rows: seq<Row>, eventId: string)
    requires Resident(rows, eventId)
    ensures rows != []
  {
  }
}
