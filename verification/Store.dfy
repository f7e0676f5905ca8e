/** JSONLStore: one log per session, behind a lock, in a directory of files. */
module Store {
  import opened Messages
  import opened SessionLog
  import opened SessionRuns

  /** The file name part of a session key: every colon becomes an underscore. */
  function SanitizeKey(key: string): (r: string)
    ensures |r| == |key|
  {
    seq(|key|, i requires 0 <= i < |key| => if key[i] == ':' then '_' else key[i])
  }

  type Disk = map<string, Session>

  function Lookup(disk: Disk, key: string): Session {
    var file := SanitizeKey(key);
    if file in disk then disk[file] else EMPTY_SESSION
  }

  /** The directory after `budget` writes of an operation. */
  function DiskAfter(disk: Disk, key: string, op: Op, budget: nat): Disk {
    if budget == 0 || Writes(Lookup(disk, key), key, op) == [] then disk
    else disk[SanitizeKey(key) := After(Lookup(disk, key), key, op, budget)]
  }

  /** All writes of the operation were made. */
  predicate Completes(disk: Disk, key: string, op: Op, budget: nat) {
    budget >= |Writes(Lookup(disk, key), key, op)|
  }

  /** The writes that are left over from the budget. */
  function Left(disk: Disk, key: string, op: Op, budget: nat): nat {
    if Completes(disk, key, op, budget) then budget - |Writes(Lookup(disk, key), key, op)| else 0
  }

  /** The scan of readMessages: the first lines that are not empty are skipped, then those that do not decode are dropped. */
  method ScanLines(lines: seq<Line>, skip: nat) returns (msgs: seq<Message>)
    ensures msgs == Decode(DropLines(NonBlank(lines), skip))
  {
    msgs := [];
    var lineNum := 0;
    ghost var read := [];
    for i := 0 to |lines|
      invariant ReadSoFar(lines, i, read) && lineNum == |read|
      invariant msgs == Decode(DropLines(read, skip))
    {
      ReadStep(lines, i, read);
      if lines[i].Blank? {
        assert read + [] == read;
        continue;
      }
      DecodeMore(read, lines[i], skip);
      read := read + [lines[i]];
      lineNum := lineNum + 1;
      if lineNum <= skip { continue; }
      if lines[i].Garbled? { continue; }
      msgs := msgs + [lines[i].msg];
    }
    assert lines[..|lines|] == lines;
  }

  /** The part of the lines already read, and what is still to come. */
  ghost predicate ReadSoFar(lines: seq<Line>, i: nat, read: seq<Line>)
    requires i <= |lines|
  {
    NonBlank(lines[..i]) == read
  }

  lemma ReadStep(lines: seq<Line>, i: nat, read: seq<Line>)
    requires i < |lines| && ReadSoFar(lines, i, read)
    ensures ReadSoFar(lines, i + 1, read + if lines[i].Blank? then [] else [lines[i]])
  {
    assert lines[..i + 1] == lines[..i] + [lines[i]];
    NonBlankConcat(lines[..i], [lines[i]]);
    NonBlankOne(lines[i]);
  }

  lemma NonBlankOne(x: Line)
    ensures NonBlank([x]) == if x.Blank? then [] else [x]
  {
    assert [x][1..] == [];
  }

  /**
   * The store over its durable files. Every operation that writes takes the number of
   * durable writes the process still makes before it stops, and returns what is left of
   * it; a write that fails ends the operation in the same way.
   */
  class JSONLStore {
    var disk: Disk

    constructor ()
      ensures disk == map[]
    {
      disk := map[];
    }

    method Put(key: string, s: Session, budget: nat) returns (ok: bool, left: nat)
      modifies this
      ensures ok == (budget > 0) && left == if ok then budget - 1 else 0
      ensures disk == if budget > 0 then old(disk)[SanitizeKey(key) := s] else old(disk)
    {
      if budget == 0 { return false, 0; }
      disk := disk[SanitizeKey(key) := s];
      return true, budget - 1;
    }

    method ReadMessages(key: string, skip: nat) returns (msgs: seq<Message>)
      ensures msgs == Decode(DropLines(NonBlank(Lookup(disk, key).lines), skip))
    {
      msgs := ScanLines(Lookup(disk, key).lines, skip);
    }

    method CountLines(key: string) returns (n: nat)
      ensures n == |NonBlank(Lookup(disk, key).lines)|
    {
      var lines := Lookup(disk, key).lines;
      n := 0;
      for i := 0 to |lines|
        invariant |NonBlank(lines)| == n + |NonBlank(lines[i..])|
      {
        NonBlankStep(lines, i);
        if !lines[i].Blank? { n := n + 1; }
      }
    }

    method GetHistory(key: string) returns (msgs: seq<Message>)
      ensures msgs == History(Lookup(disk, key), key)
    {
      var meta := MetaOf(Lookup(disk, key), key);
      msgs := ReadMessages(key, meta.skip);
    }

    method GetSummary(key: string) returns (summary: string)
      ensures summary == MetaOf(Lookup(disk, key), key).summary
    {
      summary := MetaOf(Lookup(disk, key), key).summary;
    }

    method AddFullMessage(key: string, msg: Message, budget: nat) returns (ok: bool, left: nat)
      modifies this
      ensures disk == DiskAfter(old(disk), key, Add(msg), budget)
      ensures ok == Completes(old(disk), key, Add(msg), budget) && left == Left(old(disk), key, Add(msg), budget)
      ensures ok && Valid(old(Lookup(disk, key)), key) ==>
                History(Lookup(disk, key), key) == History(old(Lookup(disk, key)), key) + [msg]
    {
      ghost var before := disk;
      ok, left := AddMsg(key, msg, budget);
      if ok && Valid(Lookup(before, key), key) { AddReaches(before, key, msg, budget); }
    }

    method AddMsg(key: string, msg: Message, budget: nat) returns (ok: bool, left: nat)
      modifies this
      ensures disk == DiskAfter(old(disk), key, Add(msg), budget)
      ensures ok == Completes(old(disk), key, Add(msg), budget) && left == Left(old(disk), key, Add(msg), budget)
    {
      var s := Lookup(disk, key);
      ok, left := Put(key, s.(lines := s.lines + [Json(msg)]), budget);
      if !ok { return; }
      var meta := MetaOf(Lookup(disk, key), key);
      ok, left := Put(key, Lookup(disk, key).(metaFile := HasMeta(meta.(count := meta.count + 1))), left);
    }

    method SetSummaryOf(key: string, summary: string, budget: nat) returns (ok: bool, left: nat)
      modifies this
      ensures disk == DiskAfter(old(disk), key, SetSummary(summary), budget)
      ensures ok == Completes(old(disk), key, SetSummary(summary), budget)
      ensures left == Left(old(disk), key, SetSummary(summary), budget)
    {
      var s := Lookup(disk, key);
      ok, left := Put(key, s.(metaFile := HasMeta(MetaOf(s, key).(summary := summary))), budget);
    }

    method TruncateHistory(key: string, keepLast: int, budget: nat) returns (ok: bool, left: nat)
      modifies this
      ensures disk == DiskAfter(old(disk), key, Truncate(keepLast), budget)
      ensures ok == Completes(old(disk), key, Truncate(keepLast), budget)
      ensures left == Left(old(disk), key, Truncate(keepLast), budget)
    {
      var s := Lookup(disk, key);
      var meta := MetaOf(s, key);
      var n := CountLines(key);
      meta := meta.(count := n);
      if keepLast <= 0 {
        meta := meta.(skip := meta.count);
      } else {
        var effective := meta.count - meta.skip;
        if keepLast < effective {
          meta := meta.(skip := meta.count - keepLast);
        }
      }
      ok, left := Put(key, s.(metaFile := HasMeta(meta)), budget);
    }

    /** The record is written before the lines: a stop in between shows too much rather than too little. */
    method SetHistoryOf(key: string, history: seq<Message>, budget: nat) returns (ok: bool, left: nat)
      modifies this
      ensures disk == DiskAfter(old(disk), key, SetHistory(history), budget)
      ensures ok == Completes(old(disk), key, SetHistory(history), budget)
      ensures left == Left(old(disk), key, SetHistory(history), budget)
      ensures ok ==> History(Lookup(disk, key), key) == history
    {
      var s := Lookup(disk, key);
      if budget >= 2 { SetHistoryReaches(s, key, history, budget); }
      var meta := MetaOf(s, key).(skip := 0, count := |history|);
      ok, left := Put(key, s.(metaFile := HasMeta(meta)), budget);
      if !ok { return; }
      ok, left := Put(key, Lookup(disk, key).(lines := Encode(history)), left);
    }

    method CompactSession(key: string, budget: nat) returns (ok: bool, left: nat)
      modifies this
      ensures disk == DiskAfter(old(disk), key, Compact, budget)
      ensures ok == Completes(old(disk), key, Compact, budget) && left == Left(old(disk), key, Compact, budget)
      ensures ok ==> History(Lookup(disk, key), key) == History(old(Lookup(disk, key)), key)
    {
      var s := Lookup(disk, key);
      var meta := MetaOf(s, key);
      if meta.skip == 0 { return true, budget; }
      if budget >= 2 { CompactKeeps(s, key, budget); }
      var active := ReadMessages(key, meta.skip);
      ok, left := Put(key, s.(metaFile := HasMeta(meta.(skip := 0, count := |active|))), budget);
      if !ok { return; }
      ok, left := Put(key, Lookup(disk, key).(lines := Encode(active)), left);
    }
  }

  lemma AddReaches(disk: Disk, key: string, msg: Message, budget: nat)
    requires Completes(disk, key, Add(msg), budget) && Valid(Lookup(disk, key), key)
    ensures History(Lookup(DiskAfter(disk, key, Add(msg), budget), key), key) == History(Lookup(disk, key), key) + [msg]
  {
    AddAppends(Lookup(disk, key), key, msg, budget);
  }

  /** No colon is left in a file name, and two keys share one exactly if they differ in nothing but colons against underscores. */
  lemma SameFileExactly(a: string, b: string)
    ensures ':' !in SanitizeKey(a)
    ensures SanitizeKey(a) == SanitizeKey(b)
       <==> |a| == |b| && forall i :: 0 <= i < |a| ==> a[i] == b[i] || (a[i] in ":_" && b[i] in ":_")
  {
    var x, y := SanitizeKey(a), SanitizeKey(b);
    if x == y {
      forall i | 0 <= i < |a| ensures a[i] == b[i] || (a[i] in ":_" && b[i] in ":_") { assert x[i] == y[i]; }
    }
  }

  /** Sessions whose file names differ do not touch each other. */
  lemma OtherSessionsUntouched(disk: Disk, key: string, other: string, op: Op, budget: nat)
    requires SanitizeKey(key) != SanitizeKey(other)
    ensures Lookup(DiskAfter(disk, key, op, budget), other) == Lookup(disk, other)
    ensures Lookup(DiskAfter(disk, key, op, budget), key) == After(Lookup(disk, key), key, op, budget)
  {
  }
}
