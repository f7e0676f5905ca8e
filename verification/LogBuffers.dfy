/** The launcher's ring of log lines, against the whole log of the current run. */
module LogBuffers {
  import opened Basics

  /** How many lines a reader at this offset gets: those after it, as far as they are still held. */
  function Fresh(total: nat, capacity: nat, offset: int): (k: nat)
    ensures k <= total && k <= capacity
  {
    var held := if total <= capacity then total else capacity;
    if offset >= total then 0 else if total - offset <= held then total - offset else held
  }

  function Since(log: seq<string>, capacity: nat, offset: int): seq<string> {
    log[|log| - Fresh(|log|, capacity, offset)..]
  }

  /**
   * LogBuffer. The ghost log holds every line appended since the last Reset; the ring holds the
   * last of them, line number n in slot n modulo the capacity.
   */
  class LogBuffer {
    const ring: array<string>
    var length: nat
    var total: nat
    var runID: nat
    ghost var log: seq<string>

    ghost predicate Valid()
      reads this, ring
    {
      && total == |log| && (ring.Length == 0 ==> total == 0)
      && length == (if total <= ring.Length then total else ring.Length)
      && forall n :: total - length <= n < total ==> ring[Slot(n, ring.Length)] == log[n]
    }

    constructor (capacity: nat)
      ensures Valid() && fresh(ring) && ring.Length == capacity && log == [] && runID == 0
    {
      ring := new string[capacity](_ => "");
      length, total, runID := 0, 0, 0;
      log := [];
    }

    /** A buffer without room is not usable: the division by its capacity fails. */
    method Append(line: string)
      requires Valid() && ring.Length > 0
      modifies this, ring
      ensures Valid() && log == old(log) + [line] && runID == old(runID)
    {
      forall n | total - ring.Length < n < total && n >= 0
        ensures Slot(n, ring.Length) != Slot(total, ring.Length)
      {
        SlotsDiffer(n, total, ring.Length);
      }
      if length < ring.Length {
        ring[length] := line;
        length := length + 1;
      } else {
        ring[Slot(total, ring.Length)] := line;
      }
      total := total + 1;
      log := log + [line];
    }

    method Reset()
      requires Valid()
      modifies this
      ensures Valid() && log == [] && runID == old(runID) + 1
    {
      length, total := 0, 0;
      runID := runID + 1;
      log := [];
    }

    method LinesSince(offset: int) returns (lines: seq<string>, count: nat, run: nat)
      requires Valid()
      ensures lines == Since(log, ring.Length, offset)
      ensures |lines| == Max(0, Min(|log| - offset, Min(|log|, ring.Length))) && lines == log[|log| - |lines|..]
      ensures count == |log| && run == runID
    {
      count, run := total, runID;
      if offset >= total { return [], count, run; }
      var buffered := length;
      var newCount := total - offset;
      if newCount > buffered { newCount := buffered; }
      if total <= ring.Length {
        lines := ReadSlice(newCount);
      } else {
        lines := ReadRing(newCount);
      }
    }

    /** The ring has not wrapped round yet: the newest lines lie in one piece. */
    method ReadSlice(newCount: nat) returns (lines: seq<string>)
      requires Valid() && newCount <= length && total <= ring.Length
      ensures lines == log[total - newCount..]
    {
      lines := ring[length - newCount..length];
      forall n | 0 <= n < total ensures ring[n] == log[n] {
        SlotInOrder(n, ring.Length);
      }
    }

    /** The ring has wrapped round: the newest lines are read slot by slot. */
    method ReadRing(newCount: nat) returns (lines: seq<string>)
      requires Valid() && newCount <= length && total > ring.Length
      ensures lines == log[total - newCount..]
    {
      var first := total - newCount;
      var start := Slot(first, ring.Length);
      lines := [];
      for i := 0 to newCount
        invariant |lines| == i && forall j :: 0 <= j < i ==> lines[j] == log[first + j]
      {
        SlotPlus(first, i, ring.Length);
        lines := lines + [ring[Slot(start + i, ring.Length)]];
      }
    }
  }

  lemma SlotInOrder(n: nat, capacity: nat)
    requires n < capacity
    ensures Slot(n, capacity) == n
  {}

  /** The slot of line number n: n modulo the capacity (SlotIsMod). */
  function Slot(n: nat, capacity: nat): (r: nat)
    requires capacity > 0
    ensures r < capacity
  {
    if n < capacity then n else Slot(n - capacity, capacity)
  }

  lemma {:induction false} SlotIsMod(n: nat, capacity: nat)
    requires capacity > 0
    ensures Slot(n, capacity) == n % capacity
  {
    if n >= capacity {
      SlotIsMod(n - capacity, capacity);
      ModOnce(n - capacity, capacity);
    }
  }

  lemma ModOnce(x: nat, m: nat)
    requires m > 0
    ensures (m + x) % m == x % m
  {
    var q, r := (m + x) / m - (x / m + 1), x % m - (m + x) % m;
    assert q * m == r && 0 - m < r < m;
    assert q >= 1 ==> q * m >= m;
    assert q <= -1 ==> q * m <= 0 - m;
  }

  /** Lines fewer than the capacity apart lie in different slots. */
  lemma {:induction false} SlotsDiffer(m: nat, n: nat, capacity: nat)
    requires m < n < m + capacity
    ensures Slot(m, capacity) != Slot(n, capacity)
  {
    if m >= capacity { SlotsDiffer(m - capacity, n - capacity, capacity); }
  }

  lemma {:induction false} SlotPlus(a: nat, i: nat, capacity: nat)
    requires capacity > 0
    ensures Slot(Slot(a, capacity) + i, capacity) == Slot(a + i, capacity)
  {
    if a >= capacity { SlotPlus(a - capacity, i, capacity); }
  }
}
