/**
 * The durable state of one session: an append-only file of lines and a metadata record.
 * Each operation is the list of states it makes durable one after the other, so a crash
 * leaves the state after some number of them.
 */
module SessionLog {
  import opened Messages

  /** A line that decodes, a line that does not, or an empty one. */
  datatype Line = Json(msg: Message) | Garbled | Blank

  datatype Meta = Meta(key: string, summary: string, skip: nat, count: nat)

  datatype MetaFile = NoMeta | HasMeta(meta: Meta)

  datatype Session = Session(lines: seq<Line>, metaFile: MetaFile)

  const EMPTY_SESSION := Session([], NoMeta)

  /** readMeta: a missing record reads as the zero record for the key. */
  function MetaOf(s: Session, key: string): Meta {
    if s.metaFile.NoMeta? then Meta(key, "", 0, 0) else s.metaFile.meta
  }

  function NonBlank(lines: seq<Line>): (r: seq<Line>)
    ensures |r| <= |lines|
  {
    if lines == [] then [] else (if lines[0].Blank? then [] else [lines[0]]) + NonBlank(lines[1..])
  }

  /** The messages of the lines that decode. */
  function Decode(lines: seq<Line>): (r: seq<Message>)
    ensures |r| <= |lines|
  {
    if lines == [] then [] else (if lines[0].Json? then [lines[0].msg] else []) + Decode(lines[1..])
  }

  function Encode(msgs: seq<Message>): (r: seq<Line>)
    ensures |r| == |msgs| && forall i :: 0 <= i < |r| ==> r[i] == Json(msgs[i])
  {
    seq(|msgs|, i requires 0 <= i < |msgs| => Json(msgs[i]))
  }

  function DropLines<T>(s: seq<T>, k: nat): seq<T> { if k <= |s| then s[k..] else [] }

  function LastN<T>(s: seq<T>, n: int): seq<T> {
    if n <= 0 then [] else if n < |s| then s[|s| - n..] else s
  }

  /** What GetHistory returns. */
  function History(s: Session, key: string): seq<Message> {
    Decode(DropLines(NonBlank(s.lines), MetaOf(s, key).skip))
  }

  datatype Op =
    | Add(msg: Message)
    | Truncate(keepLast: int)
    | SetHistory(history: seq<Message>)
    | SetSummary(summary: string)
    | Compact

  /** The offset that keeps the last keepLast of n lines, or the old one when it already keeps fewer. */
  function SkipFor(n: nat, skip: nat, keepLast: int): nat {
    if keepLast <= 0 then n else if keepLast < n - skip then n - keepLast else skip
  }

  /** The states the operation makes durable, in the order of its writes. */
  function Writes(s: Session, key: string, op: Op): seq<Session> {
    var meta := MetaOf(s, key);
    match op
    case Add(msg) =>
      var appended := s.(lines := s.lines + [Json(msg)]);
      [appended, appended.(metaFile := HasMeta(meta.(count := meta.count + 1)))]
    case Truncate(keepLast) =>
      var n := |NonBlank(s.lines)|;
      [s.(metaFile := HasMeta(meta.(count := n, skip := SkipFor(n, meta.skip, keepLast))))]
    case SetHistory(history) =>
      var marked := s.(metaFile := HasMeta(meta.(skip := 0, count := |history|)));
      [marked, marked.(lines := Encode(history))]
    case SetSummary(summary) =>
      [s.(metaFile := HasMeta(meta.(summary := summary)))]
    case Compact =>
      if meta.skip == 0 then [] else
      var active := History(s, key);
      var marked := s.(metaFile := HasMeta(meta.(skip := 0, count := |active|)));
      [marked, marked.(lines := Encode(active))]
  }

  /** The durable state when `budget` writes succeed before the process stops. */
  function After(s: Session, key: string, op: Op, budget: nat): Session {
    var w := Writes(s, key, op);
    if budget == 0 || w == [] then s else if budget < |w| then w[budget - 1] else w[|w| - 1]
  }

  // ----- lines -----

  lemma {:induction false} NonBlankConcat(a: seq<Line>, b: seq<Line>)
    ensures NonBlank(a + b) == NonBlank(a) + NonBlank(b)
  {
    if a == [] { assert a + b == b; } else { assert (a + b)[1..] == a[1..] + b; NonBlankConcat(a[1..], b); }
  }

  lemma NonBlankStep(lines: seq<Line>, i: nat)
    requires i < |lines|
    ensures NonBlank(lines[i..]) == (if lines[i].Blank? then [] else [lines[i]]) + NonBlank(lines[i + 1..])
  {
    assert lines[i..][1..] == lines[i + 1..];
  }

  lemma {:induction false} DecodeConcat(a: seq<Line>, b: seq<Line>)
    ensures Decode(a + b) == Decode(a) + Decode(b)
  {
    if a == [] {
      assert a + b == b;
    } else {
      var first := if a[0].Json? then [a[0].msg] else [];
      assert (a + b)[0] == a[0] && (a + b)[1..] == a[1..] + b;
      DecodeConcat(a[1..], b);
      assert first + (Decode(a[1..]) + Decode(b)) == first + Decode(a[1..]) + Decode(b);
    }
  }

  /** One more line after those that are skipped is one more message, if it decodes. */
  lemma DecodeMore(lines: seq<Line>, x: Line, skip: nat)
    ensures Decode(DropLines(lines + [x], skip))
         == Decode(DropLines(lines, skip)) + if |lines| >= skip && x.Json? then [x.msg] else []
  {
    if |lines| >= skip {
      assert (lines + [x])[skip..] == lines[skip..] + [x];
      DecodeConcat(lines[skip..], [x]);
      assert [x][1..] == [];
    }
  }

  /** Decoding what was encoded gives it back. */
  lemma {:induction false} DecodeEncode(msgs: seq<Message>)
    ensures NonBlank(Encode(msgs)) == Encode(msgs) && Decode(Encode(msgs)) == msgs
  {
    if msgs != [] {
      assert Encode(msgs)[1..] == Encode(msgs[1..]);
      DecodeEncode(msgs[1..]);
    }
  }

  /** Every line that is not blank decodes: no append was torn. */
  predicate Sound(lines: seq<Line>) {
    forall i :: 0 <= i < |lines| ==> !lines[i].Garbled?
  }

  lemma {:induction false} SoundDecode(lines: seq<Line>)
    requires Sound(lines)
    ensures forall i :: 0 <= i < |NonBlank(lines)| ==> NonBlank(lines)[i].Json?
    ensures |Decode(NonBlank(lines))| == |NonBlank(lines)|
    ensures forall i :: 0 <= i < |NonBlank(lines)| ==> NonBlank(lines)[i].msg == Decode(NonBlank(lines))[i]
  {
    if lines != [] {
      SoundDecode(lines[1..]);
      DecodeConcat(NonBlank(lines)[..|NonBlank(lines)| - |NonBlank(lines[1..])|], NonBlank(lines[1..]));
    }
  }
}
