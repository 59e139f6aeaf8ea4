/** The fixed-size ring buffer that holds the latest sensor samples. */
module SampleRing {
  import opened Collections

  /** The last n values, or all of them if there are fewer. */
  function LastN(s: seq<real>, n: nat): (r: seq<real>)
    ensures |r| == if |s| <= n then |s| else n
  {
    if |s| <= n then s else s[|s| - n..]
  }

  // ---- Slots and ages ----

  /** How many pushes ago slot i of a full ring was written, counting from one. */
  function Age(i: nat, head: nat, capacity: nat): int {
    if i < head then head - i else capacity - (i - head)
  }

  /**
   * The slots, head and counter describe the history: an unfilled ring is the history itself;
   * in a full ring every slot holds the value of its age.
   */
  ghost predicate Holds(w: seq<real>, head: nat, count: nat, history: seq<real>) {
    var capacity := |w|;
    && head < capacity
    && (count < capacity ==> head == count == |history| && forall i :: 0 <= i < count ==> w[i] == history[i])
    && (count >= capacity ==>
          && |history| >= capacity
          && forall i :: 0 <= i < capacity ==> w[i] == history[|history| - Age(i, head, capacity)])
  }

  /** Positions wrap round the end once: `x % capacity`. */
  function Wrapped(x: nat, capacity: nat): (n: nat)
    requires x < 2 * capacity
    ensures n < capacity
  {
    if x >= capacity then x - capacity else x
  }

  lemma WrappedIsModulo(x: nat, capacity: nat)
    requires x < 2 * capacity
    ensures x % capacity == Wrapped(x, capacity)
  {
  }

  lemma PushKeeps(w: seq<real>, head: nat, count: nat, history: seq<real>, value: real)
    requires Holds(w, head, count, history)
    ensures head + 1 < 2 * |w|
    ensures Holds(w[head := value], Wrapped(head + 1, |w|), count + 1, history + [value])
  {
    var v, n, h := w[head := value], Wrapped(head + 1, |w|), history + [value];
    if count + 1 >= |w| {
      forall i | 0 <= i < |w| ensures v[i] == h[|h| - Age(i, n, |w|)] {
        if count >= |w| {
          if i != head {
            assert Age(i, n, |w|) == Age(i, head, |w|) + 1;
          }
        } else {
          assert n == 0 && Age(i, 0, |w|) == |w| - i;
        }
      }
    }
  }

  /** `w[at:at+len(v)] = v` */
  function Written(w: seq<real>, at: nat, v: seq<real>): (r: seq<real>)
    requires at + |v| <= |w|
    ensures |r| == |w|
  {
    w[..at] + v + w[at + |v|..]
  }

  lemma WrittenLast(w: seq<real>, at: nat, v: seq<real>, x: real)
    requires at + |v| < |w|
    ensures Written(w, at, v)[at + |v| := x] == Written(w, at, v + [x])
  {
  }

  /** Writing a block up to the end of the ring does what pushing its values one by one does. */
  lemma {:induction false} BlockKeeps(w: seq<real>, head: nat, count: nat, history: seq<real>, v: seq<real>)
    requires Holds(w, head, count, history) && head + |v| <= |w|
    ensures head + |v| < 2 * |w|
    ensures Holds(Written(w, head, v), Wrapped(head + |v|, |w|), count + |v|, history + v)
    decreases |v|
  {
    hide Holds, Written;
    HeadInRange(w, head, count, history);
    if v == [] {
      NothingWritten(w, head);
      assert history + v == history;
    } else {
      var front, x := v[..|v| - 1], v[|v| - 1];
      assert v == front + [x];
      BlockKeeps(w, head, count, history, front);
      WrittenLast(w, head, front, x);
      PushKeeps(Written(w, head, front), head + |front|, count + |front|, history + front, x);
      assert history + v == (history + front) + [x];
    }
  }

  lemma HeadInRange(w: seq<real>, head: nat, count: nat, history: seq<real>)
    requires Holds(w, head, count, history)
    ensures head < |w|
  {
  }

  lemma NothingWritten(w: seq<real>, at: nat)
    requires at <= |w|
    ensures Written(w, at, []) == w
  {
  }

  /** Writing round the end is writing one block to the end and another from the start. */
  lemma TwoBlocksKeep(w: seq<real>, head: nat, count: nat, history: seq<real>, v: seq<real>)
    requires Holds(w, head, count, history) && |v| < |w| && head + |v| > |w|
    ensures head < |w|
    ensures var space := |w| - head;
            Holds(Written(Written(w, head, v[..space]), 0, v[space..]), Wrapped(head + |v|, |w|), count + |v|, history + v)
  {
    HeadInRange(w, head, count, history);
    hide Holds, Written;
    var space := |w| - head;
    var first, second := v[..space], v[space..];
    BlockKeeps(w, head, count, history, first);
    BlockKeeps(Written(w, head, first), 0, count + |first|, history + first, second);
    assert history + v == (history + first) + second by { assert v == first + second; }
  }

  lemma WholeBufferHolds(history: seq<real>, v: seq<real>, capacity: nat)
    requires |v| >= capacity >= 1
    ensures Holds(v[|v| - capacity..], 0, capacity, history + v)
  {
  }

  /** The slots in chronological order. */
  function Ordered(w: seq<real>, head: nat, count: nat): (r: seq<real>)
    requires head <= |w|
  {
    if count < |w| then w[..count] else w[head..] + w[..head]
  }

  lemma OrderedIsLast(w: seq<real>, head: nat, count: nat, history: seq<real>)
    requires Holds(w, head, count, history)
    ensures Ordered(w, head, count) == LastN(history, |w|)
  {
    if count >= |w| {
      var r, s := Ordered(w, head, count), LastN(history, |w|);
      forall k | 0 <= k < |w| ensures r[k] == s[k] {
        var i := if k < |w| - head then head + k else k - (|w| - head);
        assert r[k] == w[i] && Age(i, head, |w|) == |w| - k;
      }
    }
  }

  /** The slot the k-th latest value is in. */
  function SlotBack(k: nat, head: nat, capacity: nat): int {
    if head - 1 - k >= 0 then head - 1 - k else head - 1 - k + capacity
  }

  /** `(x - 1) % capacity` */
  lemma StepBack(x: nat, capacity: nat)
    requires x < capacity
    ensures (x - 1) % capacity == if x == 0 then capacity - 1 else x - 1
  {
  }

  lemma SlotBackHolds(w: seq<real>, head: nat, count: nat, history: seq<real>, k: nat)
    requires Holds(w, head, count, history) && k < |LastN(history, |w|)|
    ensures 0 <= SlotBack(k, head, |w|) < |w|
    ensures var s := LastN(history, |w|); w[SlotBack(k, head, |w|)] == s[|s| - 1 - k]
  {
    if count >= |w| {
      assert Age(SlotBack(k, head, |w|), head, |w|) == k + 1;
    }
  }

  // ---- The object ----

  class RingBuffer {
    const capacity: nat
    const buf: array<real>
    var head: nat
    var count: nat
    ghost var history: seq<real>  // everything pushed since the last clear

    constructor (capacity: nat)
      requires capacity >= 1
      ensures Valid() && history == [] && this.capacity == capacity && fresh(buf)
    {
      this.capacity := capacity;
      buf := new real[capacity](_ => 0.0);
      head, count, history := 0, 0, [];
    }

    ghost predicate Valid()
      reads this, buf
    {
      buf.Length == capacity && Holds(buf[..], head, count, history)
    }

    /** `count` */
    function Available(): (n: nat)
      requires Valid()
      reads this, buf
      ensures n == |LastN(history, capacity)|
    {
      if count < capacity then count else capacity
    }

    /** `is_full` */
    predicate IsFull()
      requires Valid()
      reads this, buf
      ensures IsFull() <==> |history| >= capacity
    {
      count >= capacity
    }

    /** `push` */
    method Push(value: real)
      requires Valid()
      modifies this`head, this`count, this`history, buf
      ensures Valid() && history == old(history) + [value]
    {
      PushKeeps(buf[..], head, count, history, value);
      HeadInRange(buf[..], head, count, history);
      hide Holds;
      ghost var w := buf[..];
      buf[head] := value;
      assert buf[..] == w[head := value];
      WrappedIsModulo(head + 1, capacity);
      head := (head + 1) % capacity;
      count := count + 1;
      history := history + [value];
    }

    /** Slice assignment `buf[at:at+len(values)] = values`. */
    method Overwrite(at: nat, values: seq<real>)
      requires at + |values| <= buf.Length
      modifies buf
      ensures buf[..] == Written(old(buf[..]), at, values)
    {
      ghost var w := buf[..];
      for i := 0 to |values|
        invariant forall k {:trigger buf[k]} :: 0 <= k < buf.Length ==>
          buf[k] == if at <= k < at + i then values[k - at] else w[k]
      {
        buf[at + i] := values[i];
      }
    }

    /** The copy round the end in `push_batch`: one block up to the end, the rest from the start. */
    method OverwriteRound(at: nat, values: seq<real>)
      requires at <= buf.Length && |values| <= buf.Length < at + |values|
      modifies buf
      ensures var space := buf.Length - at;
              buf[..] == Written(Written(old(buf[..]), at, values[..space]), 0, values[space..])
    {
      hide Written;
      var spaceAtEnd := buf.Length - at;
      Overwrite(at, values[..spaceAtEnd]);
      Overwrite(0, values[spaceAtEnd..]);
    }

    /** The two block-copy cases of `push_batch`. */
    method CopyBlocks(values: seq<real>)
      requires Valid() && |values| < capacity
      modifies buf
      ensures head + |values| < 2 * capacity
      ensures Holds(buf[..], Wrapped(head + |values|, capacity), count + |values|, history + values)
    {
      HeadInRange(buf[..], head, count, history);
      hide Holds, Written, Wrapped;
      if |values| <= capacity - head {
        BlockKeeps(buf[..], head, count, history, values);
        Overwrite(head, values);
      } else {
        TwoBlocksKeep(buf[..], head, count, history, values);
        OverwriteRound(head, values);
      }
    }

    /** `push_batch`: a whole-buffer copy, one block, or two blocks around the end. */
    method PushBatch(values: seq<real>)
      requires Valid()
      modifies this`head, this`count, this`history, buf
      ensures Valid() && history == old(history) + values
    {
      HeadInRange(buf[..], head, count, history);
      hide Holds, Written, Wrapped;
      var n := |values|;
      if n >= capacity {
        var latest := values[n - capacity..];
        Overwrite(0, latest);
        WholeWritten(old(buf[..]), latest);
        WholeBufferHolds(history, values, capacity);
        head, count := 0, capacity;
      } else {
        CopyBlocks(values);
        WrappedIsModulo(head + n, capacity);
        head := (head + n) % capacity;
        count := count + n;
      }
      history := history + values;
    }

    /** `get_window`: the latest samples, most recent first. */
    method GetWindow(n: int) returns (window: seq<real>)
      requires Valid()
      ensures window == Reversed(LastN(LastN(history, capacity), if n < 0 then 0 else n))
    {
      var available := Available();
      HeadInRange(buf[..], head, count, history);
      hide Holds, LastN;
      var m := if n < available then n else available;
      ghost var s := LastN(history, capacity);
      window := [];
      var idx := (head - 1) % capacity;
      var i := 0;
      StepBack(head, capacity);
      assert m > 0 ==> idx == SlotBack(0, head, capacity);
      while i < m
        invariant 0 <= i <= |s| && (if m >= 0 then i <= m else i == 0) && |window| == i
        invariant i < m ==> idx == SlotBack(i, head, capacity)
        invariant forall k :: 0 <= k < i ==> window[k] == s[|s| - 1 - k]
      {
        SlotBackHolds(buf[..], head, count, history, i);
        StepBack(idx, capacity);
        window := window + [buf[idx]];
        idx := (idx - 1) % capacity;
        i := i + 1;
      }
      ReversedLast(s, if n < 0 then 0 else n, window);
    }

    /** `get_all_ordered`: oldest first. */
    method GetAllOrdered() returns (samples: seq<real>)
      requires Valid()
      ensures samples == LastN(history, capacity)
    {
      OrderedIsLast(buf[..], head, count, history);
      var available := Available();
      if available < capacity {
        return buf[..available];
      }
      return buf[head..] + buf[..head];
    }

    /** `clear` */
    method Clear()
      requires Valid()
      modifies this`head, this`count, this`history
      ensures Valid() && history == []
    {
      head, count, history := 0, 0, [];
    }
  }

  lemma WholeWritten(w: seq<real>, v: seq<real>)
    requires |v| == |w|
    ensures Written(w, 0, v) == v
  {
  }

  lemma ReversedLast(s: seq<real>, k: nat, window: seq<real>)
    requires |window| == if k < |s| then k else |s|
    requires forall j :: 0 <= j < |window| ==> window[j] == s[|s| - 1 - j]
    ensures window == Reversed(LastN(s, k))
  {
  }

  /** What readers see depends on the history alone, so a batch and the same pushes one by one cannot be told apart. */
  lemma HistoryDeterminesView(v: seq<real>, head: nat, count: nat, w: seq<real>, head': nat, count': nat, history: seq<real>)
    requires |v| == |w| && Holds(v, head, count, history) && Holds(w, head', count', history)
    ensures Ordered(v, head, count) == Ordered(w, head', count')
    ensures count >= |v| <==> count' >= |w|
    ensures forall k :: 0 <= k < |LastN(history, |v|)| ==> v[SlotBack(k, head, |v|)] == w[SlotBack(k, head', |w|)]
  {
    OrderedIsLast(v, head, count, history);
    OrderedIsLast(w, head', count', history);
    assert count >= |v| <==> count' >= |w|;
    hide Holds, LastN, SlotBack;
    forall k | 0 <= k < |LastN(history, |v|)|
      ensures v[SlotBack(k, head, |v|)] == w[SlotBack(k, head', |w|)]
    {
      SlotBackHolds(v, head, count, history, k);
      SlotBackHolds(w, head', count', history, k);
    }
  }
}
