/** The hash-chained audit log: its writer, its verifier, and what a verified log rules out. */
module Audit {
  import opened Results
  import opened JsonValues
  import opened Canonical
  import opened Tokens

  /** `GENESIS_HASH`: as many hex digits as a SHA-256 hash has. */
  function Genesis(): (r: string)
    ensures |r| == 64 && forall c :: c in r ==> c == '0'
  {
    seq(64, _ => '0')
  }

  /** A line of the file as the verifier sees it; member order within a line is not fixed. */
  datatype Line = Blank | Unparsable | NotAnObject | Entry(members: seq<Member>)

  function Without(ms: seq<Member>, key: string): (r: seq<Member>)
    ensures forall m :: m in r <==> m in ms && m.key != key
    ensures forall k :: Get(r, k) == if k == key then None else Get(ms, k)
  {
    if ms == [] then []
    else if ms[0].key == key then Without(ms[1..], key)
    else [ms[0]] + Without(ms[1..], key)
  }

  /** What `_chain_hash` hashes: every field except record_hash itself. */
  function Hashed(entry: seq<Member>): seq<Member> {
    Without(entry, "record_hash")
  }

  /** `_chain_hash`; None when it raises. */
  function ChainHash(h: Hash, entry: seq<Member>): Option<string> {
    HashPayload(h, Hashed(entry))
  }

  // ---------- verify_audit_chain ----------

  /** The record_hash of the last entry before line i. */
  function Previous(lines: seq<Line>, i: nat): string
    requires i <= |lines|
  {
    if i == 0 then Genesis()
    else
      match lines[i - 1]
      case Entry(ms) => RecordHash(ms)
      case _ => Previous(lines, i - 1)
  }

  function RecordHash(ms: seq<Member>): string {
    match Get(ms, "record_hash")
    case Some(Str(s)) => s
    case _ => ""
  }

  predicate LinksTo(ms: seq<Member>, previous: string) {
    Get(ms, "prev_hash") == Some(Str(previous))
  }

  predicate LineHolds(h: Hash, lines: seq<Line>, i: nat)
    requires i < |lines|
  {
    match lines[i]
    case Blank => true
    case Entry(ms) =>
      LinksTo(ms, Previous(lines, i)) && ChainHash(h, ms).Some?
      && Get(ms, "record_hash") == Some(Str(ChainHash(h, ms).value))
    case _ => false
  }

  /** Neither true nor false: `.get` on a non-object, or a linked entry that cannot be hashed. */
  predicate LineRaises(h: Hash, lines: seq<Line>, i: nat)
    requires i < |lines|
  {
    match lines[i]
    case NotAnObject => true
    case Entry(ms) => LinksTo(ms, Previous(lines, i)) && ChainHash(h, ms).None?
    case _ => false
  }

  datatype Verdict = Intact | Broken(number: nat) | Raised(number: nat)

  /** `verify_audit_chain`: the 1-based number of the first line that breaks the chain, blank lines counted. */
  method VerifyAuditChain(h: Hash, lines: seq<Line>) returns (r: Verdict)
    ensures r.Intact? <==> forall i {:trigger LineHolds(h, lines, i)} :: 0 <= i < |lines| ==> LineHolds(h, lines, i)
    ensures !r.Intact? ==>
      && 1 <= r.number <= |lines| && !LineHolds(h, lines, r.number - 1)
      && (forall i {:trigger LineHolds(h, lines, i)} :: 0 <= i < r.number - 1 ==> LineHolds(h, lines, i))
      && (r.Raised? <==> LineRaises(h, lines, r.number - 1))
  {
    hide ChainHash, Genesis;
    var previous := Genesis();
    for n := 0 to |lines|
      invariant previous == Previous(lines, n)
      invariant forall i {:trigger LineHolds(h, lines, i)} :: 0 <= i < n ==> LineHolds(h, lines, i)
    {
      assert LineHolds(h, lines, n) ==> lines[n].Blank? || lines[n].Entry?;
      match lines[n]
      case Blank =>
        continue;
      case Unparsable =>
        return Broken(n + 1);
      case NotAnObject =>
        return Raised(n + 1);
      case Entry(entry) =>
        if Get(entry, "prev_hash") != Some(Str(previous)) {
          return Broken(n + 1);
        }
        var digest := ChainHash(h, entry);
        if digest.None? {
          return Raised(n + 1);
        }
        if Get(entry, "record_hash") != Some(Str(digest.value)) {
          return Broken(n + 1);
        }
        previous := digest.value;
    }
    return Intact;
  }

  // ---------- FileAuditSink ----------

  /** The file and the sink's `_last_hash`, null before the first read. */
  datatype Sink = Sink(lines: seq<Line>, lastHash: Json)

  /** `_read_last_hash`; None when it raises. */
  function ReadLastHash(lines: seq<Line>): Option<Json> {
    if lines == [] then Some(Str(Genesis()))
    else
      match lines[|lines| - 1]
      case Blank => ReadLastHash(lines[..|lines| - 1])
      case Entry(ms) => Some(if Get(ms, "record_hash").Some? then Get(ms, "record_hash").value else Str(Genesis()))
      case _ => None
  }

  function Stamped(log: seq<Member>, timestamp: string, previous: Json): seq<Member> {
    Put(Put(log, "timestamp", Str(timestamp)), "prev_hash", previous)
  }

  /** What one `record` does: it appends one chained line, or logs an error and writes nothing. */
  function Recorded(h: Hash, sink: Sink, log: seq<Member>, timestamp: string): Sink {
    var last := if sink.lastHash == Null then ReadLastHash(sink.lines) else Some(sink.lastHash);
    if last.None? then sink
    else
      var entry := Stamped(log, timestamp, last.value);
      match ChainHash(h, entry)
      case None => Sink(sink.lines, last.value)
      case Some(digest) => Sink(sink.lines + [Entry(Put(entry, "record_hash", Str(digest)))], Str(digest))
  }

  class AuditFile {
    var lines: seq<Line>

    constructor ()
      ensures lines == []
    {
      lines := [];
    }
  }

  class FileAuditSink {
    const file: AuditFile
    var lastHash: Json

    constructor (file: AuditFile)
      ensures this.file == file && lastHash == Null
    {
      this.file := file;
      lastHash := Null;
    }

    method Record(h: Hash, log: seq<Member>, timestamp: string)
      modifies this, file
      ensures Sink(file.lines, lastHash) == Recorded(h, Sink(old(file.lines), old(lastHash)), log, timestamp)
    {
      if lastHash == Null {
        var last := ReadLastHash(file.lines);
        if last.None? {
          return;
        }
        lastHash := last.value;
      }
      var entry := log;
      entry := Put(entry, "timestamp", Str(timestamp));
      entry := Put(entry, "prev_hash", lastHash);
      var digest := ChainHash(h, entry);
      if digest.None? {
        return;
      }
      entry := Put(entry, "record_hash", Str(digest.value));
      file.lines := file.lines + [Entry(entry)];
      lastHash := Str(digest.value);
    }
  }

  // ---------- every log the sink writes verifies ----------

  ghost predicate Verifies(h: Hash, lines: seq<Line>) {
    forall i {:trigger LineHolds(h, lines, i)} :: 0 <= i < |lines| ==> LineHolds(h, lines, i)
  }

  ghost predicate Synced(h: Hash, sink: Sink) {
    Verifies(h, sink.lines) && (sink.lastHash == Null || sink.lastHash == Str(Previous(sink.lines, |sink.lines|)))
  }

  lemma {:induction false} PreviousOfPrefix(lines: seq<Line>, more: seq<Line>, i: nat)
    requires i <= |lines|
    ensures Previous(lines + more, i) == Previous(lines, i)
  {
    hide Genesis, RecordHash;
    if i > 0 {
      PreviousOfPrefix(lines, more, i - 1);
      assert (lines + more)[i - 1] == lines[i - 1];
    }
  }

  lemma {:induction false} ReadLastHashOfVerified(h: Hash, lines: seq<Line>)
    requires Verifies(h, lines)
    ensures ReadLastHash(lines) == Some(Str(Previous(lines, |lines|)))
  {
    hide Genesis;
    if lines != [] {
      var n := |lines| - 1;
      var init := lines[..n];
      assert lines == init + [lines[n]];
      PreviousOfPrefix(init, [lines[n]], n);
      if lines[n].Blank? {
        forall i | 0 <= i < n ensures LineHolds(h, init, i) {
          assert LineHolds(h, lines, i);
          PreviousOfPrefix(init, [lines[n]], i);
        }
        ReadLastHashOfVerified(h, init);
      } else {
        assert LineHolds(h, lines, n);
      }
    }
  }

  /** With the last hash known, a record writes its stamped entry, or nothing if it cannot be hashed. */
  lemma RecordedExactly(h: Hash, sink: Sink, log: seq<Member>, timestamp: string, previous: string)
    requires sink.lastHash == Str(previous)
      || (sink.lastHash == Null && ReadLastHash(sink.lines) == Some(Str(previous)))
    ensures var stamped := Stamped(log, timestamp, Str(previous));
      Recorded(h, sink, log, timestamp) ==
        match ChainHash(h, stamped)
        case None => Sink(sink.lines, Str(previous))
        case Some(digest) => Sink(sink.lines + [Entry(Put(stamped, "record_hash", Str(digest)))], Str(digest))
  {
    hide ChainHash, Stamped, ReadLastHash, Genesis;
  }

  /**
   The entry a record writes, key by key: the timestamp, the previous hash and its own, and every other
   field as it was logged. Its hash is that of the fields other than the hash.
   */
  lemma EntryExactly(h: Hash, sink: Sink, log: seq<Member>, timestamp: string, previous: string)
    requires sink.lastHash == Str(previous)
      || (sink.lastHash == Null && ReadLastHash(sink.lines) == Some(Str(previous)))
    requires |Recorded(h, sink, log, timestamp).lines| > |sink.lines|
    ensures var after := Recorded(h, sink, log, timestamp);
      && |after.lines| == |sink.lines| + 1 && after.lines[|sink.lines|].Entry? && after.lastHash.Str?
      && var entry := after.lines[|sink.lines|].members;
         && (forall key :: Get(entry, key) ==
               if key == "timestamp" then Some(Str(timestamp))
               else if key == "prev_hash" then Some(Str(previous))
               else if key == "record_hash" then Some(after.lastHash)
               else Get(log, key))
         && HashPayload(h, Without(entry, "record_hash")) == Some(after.lastHash.s)
  {
    RecordedExactly(h, sink, log, timestamp, previous);
    var stamped := Stamped(log, timestamp, Str(previous));
    var digest := ChainHash(h, stamped);
    hide Recorded, ReadLastHash, Genesis, HashPayload;
    if digest.Some? {
      HashedIgnoresRecordHash(stamped, Str(digest.value));
    }
  }

  lemma RecordKeepsSynced(h: Hash, sink: Sink, log: seq<Member>, timestamp: string)
    requires Synced(h, sink)
    ensures Synced(h, Recorded(h, sink, log, timestamp))
    ensures var after := Recorded(h, sink, log, timestamp);
      |sink.lines| <= |after.lines| <= |sink.lines| + 1 && after.lines[..|sink.lines|] == sink.lines
  {
    hide HashPayload, Stamped, Verifies, Genesis, ReadLastHash, Previous, Hashed, LinksTo, Recorded;
    var previous := Previous(sink.lines, |sink.lines|);
    ReadLastHashOfVerified(h, sink.lines);
    RecordedExactly(h, sink, log, timestamp, previous);
    var stamped := Stamped(log, timestamp, Str(previous));
    var digest := ChainHash(h, stamped);
    if digest.Some? {
      var entry := Put(stamped, "record_hash", Str(digest.value));
      StampedLinks(log, timestamp, previous, Str(digest.value));
      HashedIgnoresRecordHash(stamped, Str(digest.value));
      AppendVerifies(h, sink.lines, entry);
    }
  }

  lemma StampedLinks(log: seq<Member>, timestamp: string, previous: string, digest: Json)
    ensures LinksTo(Put(Stamped(log, timestamp, Str(previous)), "record_hash", digest), previous)
  {
  }

  /** A chained entry extends a verified file. */
  lemma AppendVerifies(h: Hash, lines: seq<Line>, ms: seq<Member>)
    requires Verifies(h, lines) && LinksTo(ms, Previous(lines, |lines|))
    requires ChainHash(h, ms).Some? && Get(ms, "record_hash") == Some(Str(ChainHash(h, ms).value))
    ensures Verifies(h, lines + [Entry(ms)])
    ensures Previous(lines + [Entry(ms)], |lines| + 1) == ChainHash(h, ms).value
  {
    hide LineHolds, Previous, ChainHash, LinksTo, Genesis;
    LastLineHolds(h, lines, ms);
    LineHoldsInPrefix(h, lines, [Entry(ms)]);
  }

  lemma LastLineHolds(h: Hash, lines: seq<Line>, ms: seq<Member>)
    requires LinksTo(ms, Previous(lines, |lines|))
    requires ChainHash(h, ms).Some? && Get(ms, "record_hash") == Some(Str(ChainHash(h, ms).value))
    ensures LineHolds(h, lines + [Entry(ms)], |lines|)
    ensures Previous(lines + [Entry(ms)], |lines| + 1) == ChainHash(h, ms).value
  {
    hide ChainHash, LinksTo, Genesis;
    PreviousOfPrefix(lines, [Entry(ms)], |lines|);
  }

  lemma LineHoldsInPrefix(h: Hash, lines: seq<Line>, more: seq<Line>)
    ensures forall i :: 0 <= i < |lines| ==> (LineHolds(h, lines + more, i) <==> LineHolds(h, lines, i))
  {
    hide ChainHash, LinksTo, Previous;
    forall i | 0 <= i < |lines| ensures LineHolds(h, lines + more, i) <==> LineHolds(h, lines, i) {
      PreviousOfPrefix(lines, more, i);
      assert (lines + more)[i] == lines[i];
    }
  }

  lemma {:induction false} HashedIgnoresRecordHash(ms: seq<Member>, v: Json)
    ensures Hashed(Put(ms, "record_hash", v)) == Hashed(ms)
  {
    var r := Put(ms, "record_hash", v);
    assert Without(r, "record_hash")
        == if r[0].key == "record_hash" then Without(r[1..], "record_hash")
          else [r[0]] + Without(r[1..], "record_hash");
    if ms == [] {
      assert r[1..] == [];
    } else {
      if ms[0].key == "record_hash" {
        assert r[1..] == ms[1..];
      } else {
        HashedIgnoresRecordHash(ms[1..], v);
        assert r[1..] == Put(ms[1..], "record_hash", v);
      }
    }
  }

  /** What can happen to a log: a record, or a restart that forgets the last hash. */
  datatype Op = Record(log: seq<Member>, timestamp: string) | Restart

  function Run(h: Hash, sink: Sink, ops: seq<Op>): Sink
    decreases |ops|
  {
    if ops == [] then sink
    else
      Run(h,
        match ops[0]
        case Record(log, timestamp) => Recorded(h, sink, log, timestamp)
        case Restart => Sink(sink.lines, Null),
        ops[1..])
  }

  lemma {:induction false} RunKeepsSynced(h: Hash, sink: Sink, ops: seq<Op>)
    requires Synced(h, sink)
    ensures Synced(h, Run(h, sink, ops))
    decreases |ops|
  {
    if ops != [] {
      match ops[0]
      case Record(log, timestamp) =>
        RecordKeepsSynced(h, sink, log, timestamp);
        RunKeepsSynced(h, Recorded(h, sink, log, timestamp), ops[1..]);
      case Restart => RunKeepsSynced(h, Sink(sink.lines, Null), ops[1..]);
    }
  }

  /** Every log any sequence of records and restarts writes, onto any verified log, verifies. */
  lemma EveryLogVerifies(h: Hash, lines: seq<Line>, ops: seq<Op>)
    requires Verifies(h, lines)
    ensures Verifies(h, Run(h, Sink(lines, Null), ops).lines)
  {
    RunKeepsSynced(h, Sink(lines, Null), ops);
  }

  /** The records among these operations, in order. */
  function LogsOf(ops: seq<Op>): seq<seq<Member>>
    decreases |ops|
  {
    if ops == [] then []
    else
      (match ops[0]
       case Record(log, _) => [log]
       case Restart => [])
      + LogsOf(ops[1..])
  }

  /** The line is an entry with the log's fields, but for the three the chain adds. */
  ghost predicate Logs(line: Line, log: seq<Member>) {
    line.Entry? && forall key :: key !in {"timestamp", "prev_hash", "record_hash"} ==>
      Get(line.members, key) == Get(log, key)
  }

  lemma StampedIsPrintable(log: seq<Member>, timestamp: string, previous: string)
    requires PrintableMembers(log)
    ensures PrintableMembers(Hashed(Stamped(log, timestamp, Str(previous))))
  {
    PutStaysPrintable(log, "timestamp", Str(timestamp));
    PutStaysPrintable(Put(log, "timestamp", Str(timestamp)), "prev_hash", Str(previous));
    var stamped := Stamped(log, timestamp, Str(previous));
    var r := Hashed(stamped);
    forall i | 0 <= i < |r| ensures Printable(r[i].value) {
      assert r[i] in stamped;
      var j :| 0 <= j < |stamped| && stamped[j] == r[i];
    }
  }

  lemma {:induction false} PutStaysPrintable(ms: seq<Member>, key: string, value: Json)
    requires PrintableMembers(ms) && Printable(value)
    ensures PrintableMembers(Put(ms, key, value))
  {
    if ms != [] && ms[0].key != key {
      PutStaysPrintable(ms[1..], key, value);
    }
  }

  lemma RecordWrites(h: Hash, sink: Sink, log: seq<Member>, timestamp: string)
    requires Synced(h, sink) && PrintableMembers(log)
    ensures var after := Recorded(h, sink, log, timestamp);
      |after.lines| == |sink.lines| + 1 && Logs(after.lines[|sink.lines|], log)
  {
    var previous := Previous(sink.lines, |sink.lines|);
    ReadLastHashOfVerified(h, sink.lines);
    StampedIsPrintable(log, timestamp, previous);
    RecordedExactly(h, sink, log, timestamp, previous);
    EntryExactly(h, sink, log, timestamp, previous);
  }

  /** The lines before are kept, and followed by entries with these logs' fields. */
  ghost predicate Writes(after: seq<Line>, before: seq<Line>, logs: seq<seq<Member>>) {
    && |after| == |before| + |logs| && after[..|before|] == before
    && forall k :: 0 <= k < |logs| ==> Logs(after[|before| + k], logs[k])
  }

  lemma WritesFirst(after: seq<Line>, next: seq<Line>, before: seq<Line>, log: seq<Member>, logs: seq<seq<Member>>)
    requires Writes(after, next, logs) && |next| == |before| + 1 && next[..|before|] == before
    requires Logs(next[|before|], log)
    ensures Writes(after, before, [log] + logs)
  {
    hide Logs;
    assert after[..|before|] == after[..|next|][..|before|];
    forall k | 0 <= k < |[log] + logs| ensures Logs(after[|before| + k], ([log] + logs)[k]) {
      if k == 0 {
        assert after[|before|] == after[..|next|][|before|];
      } else {
        assert Logs(after[|next| + (k - 1)], logs[k - 1]);
      }
    }
  }

  /**
   Records that can be hashed are all written, in order and as they were logged, whatever restarts come
   between: no line before them changes, and none is lost.
   */
  lemma {:induction false} EveryRecordIsWritten(h: Hash, sink: Sink, ops: seq<Op>)
    requires Synced(h, sink) && forall log :: log in LogsOf(ops) ==> PrintableMembers(log)
    ensures Writes(Run(h, sink, ops).lines, sink.lines, LogsOf(ops))
    decreases |ops|
  {
    hide Synced, Recorded, Logs, PrintableMembers;
    if ops != [] {
      match ops[0]
      case Record(log, timestamp) =>
        hide Writes;
        assert LogsOf(ops) == [log] + LogsOf(ops[1..]);
        var next := Recorded(h, sink, log, timestamp);
        RecordKeepsSynced(h, sink, log, timestamp);
        RecordWrites(h, sink, log, timestamp);
        EveryRecordIsWritten(h, next, ops[1..]);
        WritesFirst(Run(h, next, ops[1..]).lines, next.lines, sink.lines, log, LogsOf(ops[1..]));
      case Restart =>
        assert LogsOf(ops) == LogsOf(ops[1..]);
        Restarted(h, sink);
        EveryRecordIsWritten(h, Sink(sink.lines, Null), ops[1..]);
    }
  }

  lemma Restarted(h: Hash, sink: Sink)
    requires Synced(h, sink)
    ensures Synced(h, Sink(sink.lines, Null))
  {
  }

  // ---------- member order on disk ----------

  ghost predicate Reordered(l: Line, l': Line) {
    if l.Entry? && l'.Entry? then
      && WellFormed(Obj(l.members)) && WellFormed(Obj(l'.members))
      && |l.members| == |l'.members| && forall m :: m in l.members <==> m in l'.members
    else l == l'
  }

  lemma SameGet(ms: seq<Member>, ns: seq<Member>, key: string)
    requires DistinctKeys(ns) && forall m :: m in ms <==> m in ns
    ensures Get(ms, key) == Get(ns, key)
  {
    var g := Get(ms, key);
    if g.Some? {
      GetIsUnique(ns, Member(key, g.value));
    }
  }

  lemma {:induction false} WithoutKeepsWellFormed(ms: seq<Member>, key: string)
    requires WellFormed(Obj(ms))
    ensures WellFormed(Obj(Without(ms, key)))
  {
    var r := Without(ms, key);
    WithoutKeepsDistinct(ms, key);
    forall i | 0 <= i < |r| ensures WellFormed(r[i].value) {
      assert r[i] in r;
    }
  }

  lemma {:induction false} WithoutKeepsDistinct(ms: seq<Member>, key: string)
    requires DistinctKeys(ms)
    ensures DistinctKeys(Without(ms, key))
  {
    if ms != [] {
      WithoutKeepsDistinct(ms[1..], key);
      var tail := Without(ms[1..], key);
      forall i | 0 <= i < |tail| ensures tail[i].key != ms[0].key {
        assert tail[i] in tail;
      }
    }
  }

  lemma {:induction false} WithoutLength(ms: seq<Member>, key: string)
    requires DistinctKeys(ms)
    ensures |Without(ms, key)| == |ms| - (if Get(ms, key).Some? then 1 else 0)
  {
    if ms != [] {
      WithoutLength(ms[1..], key);
      assert forall m :: m in ms[1..] ==> m.key != ms[0].key;
    }
  }

  /** Writing a record's members in another order, as `sort_keys` does, changes no hash. */
  lemma ChainHashIgnoresOrder(h: Hash, ms: seq<Member>, ns: seq<Member>)
    requires Reordered(Entry(ms), Entry(ns))
    ensures ChainHash(h, ms) == ChainHash(h, ns)
  {
    WithoutKeepsWellFormed(ms, "record_hash");
    WithoutKeepsWellFormed(ns, "record_hash");
    WithoutLength(ms, "record_hash");
    WithoutLength(ns, "record_hash");
    SameGet(ms, ns, "record_hash");
    var a, b := Hashed(ms), Hashed(ns);
    assert forall m :: m in a <==> m in b;
    if PrintableMembers(a) {
      InsertionOrderIrrelevant(a, b);
    } else if PrintableMembers(b) {
      InsertionOrderIrrelevant(b, a);
    }
  }

  ghost predicate ReorderedLines(lines: seq<Line>, lines': seq<Line>) {
    |lines| == |lines'| && forall i :: 0 <= i < |lines| ==> Reordered(lines[i], lines'[i])
  }

  lemma ReorderedEntry(h: Hash, l: Line, l': Line, key: string)
    requires Reordered(l, l') && l.Entry?
    ensures l'.Entry? && Get(l.members, key) == Get(l'.members, key)
      && ChainHash(h, l.members) == ChainHash(h, l'.members)
  {
    hide ChainHash;
    SameGet(l.members, l'.members, key);
    ChainHashIgnoresOrder(h, l.members, l'.members);
  }

  lemma {:induction false} ReorderedPrevious(h: Hash, lines: seq<Line>, lines': seq<Line>, i: nat)
    requires ReorderedLines(lines, lines') && i <= |lines|
    ensures Previous(lines, i) == Previous(lines', i)
  {
    hide Genesis, Reordered, ChainHash;
    if i > 0 {
      var l, l' := lines[i - 1], lines'[i - 1];
      assert Reordered(l, l');
      if l.Entry? {
        ReorderedEntry(h, l, l', "record_hash");
      } else {
        ReorderedOther(l, l');
        ReorderedPrevious(h, lines, lines', i - 1);
      }
    }
  }

  lemma ReorderedOther(l: Line, l': Line)
    requires Reordered(l, l') && !l.Entry?
    ensures l == l'
  {
  }

  /** The file as it is written, each line's members sorted, verifies like the entries in the order they were built. */
  lemma ReorderedVerifies(h: Hash, lines: seq<Line>, lines': seq<Line>)
    requires ReorderedLines(lines, lines') && Verifies(h, lines)
    ensures Verifies(h, lines')
  {
    hide Genesis, Reordered, ChainHash, Previous;
    forall i | 0 <= i < |lines'| ensures LineHolds(h, lines', i) {
      assert LineHolds(h, lines, i);
      assert Reordered(lines[i], lines'[i]);
      ReorderedPrevious(h, lines, lines', i);
      if lines[i].Entry? {
        ReorderedEntry(h, lines[i], lines'[i], "record_hash");
        ReorderedEntry(h, lines[i], lines'[i], "prev_hash");
      } else {
        ReorderedOther(lines[i], lines'[i]);
      }
    }
  }

  /** An entry that holds a NaN cannot be hashed. */
  lemma NaNCannotBeHashed(h: Hash, ms: seq<Member>, key: string)
    requires key != "record_hash" && Member(key, Float(NaN)) in ms
    ensures ChainHash(h, ms).None?
  {
    hide Without;
    var r := Hashed(ms);
    assert Member(key, Float(NaN)) in r;
    var i :| 0 <= i < |r| && r[i] == Member(key, Float(NaN));
    assert !PrintableMembers(r);
  }

  /** A first line that is a list, or a linked entry holding NaN, makes the verifier raise. */
  lemma RaisingLines(h: Hash, rest: seq<Line>)
    ensures LineRaises(h, [NotAnObject] + rest, 0)
    ensures LineRaises(h, [Entry([Member("prev_hash", Str(Genesis())), Member("total", Float(NaN))])] + rest, 0)
  {
    hide Genesis, ChainHash;
    var ms := [Member("prev_hash", Str(Genesis())), Member("total", Float(NaN))];
    assert ms[1] in ms;
    NaNCannotBeHashed(h, ms, "total");
  }

  // ---------- tamper evidence ----------

  /** The chain of entries in a verified file. */
  ghost predicate Chained(h: Hash, es: seq<seq<Member>>) {
    forall i {:trigger EntryHolds(h, es, i)} :: 0 <= i < |es| ==> EntryHolds(h, es, i)
  }

  ghost predicate EntryHolds(h: Hash, es: seq<seq<Member>>, i: nat)
    requires i < |es|
  {
    WellFormed(Obj(es[i])) && ChainedEntry(h, es[i], Before(es, i))
  }

  function Entries(lines: seq<Line>): seq<seq<Member>> {
    if lines == [] then []
    else
      Entries(lines[..|lines| - 1])
      + (match lines[|lines| - 1] case Entry(ms) => [ms] case _ => [])
  }

  predicate ChainedEntry(h: Hash, ms: seq<Member>, previous: string) {
    && LinksTo(ms, previous)
    && ChainHash(h, ms).Some? && Get(ms, "record_hash") == Some(Str(ChainHash(h, ms).value))
  }

  /** What precedes entry i. */
  function Before(es: seq<seq<Member>>, i: nat): string
    requires i <= |es|
  {
    if i == 0 then Genesis() else RecordHash(es[i - 1])
  }

  lemma {:induction false} VerifiedIsChained(h: Hash, lines: seq<Line>)
    requires Verifies(h, lines) && forall i :: 0 <= i < |lines| && lines[i].Entry? ==> WellFormed(Obj(lines[i].members))
    ensures Chained(h, Entries(lines))
    ensures Previous(lines, |lines|) == Before(Entries(lines), |Entries(lines)|)
  {
    hide ChainedEntry, WellFormed, Genesis, RecordHash;
    if lines != [] {
      var n := |lines| - 1;
      var init := lines[..n];
      assert lines == init + [lines[n]];
      forall i | 0 <= i < n ensures LineHolds(h, init, i) {
        assert LineHolds(h, lines, i);
        PreviousOfPrefix(init, [lines[n]], i);
      }
      PreviousOfPrefix(init, [lines[n]], n);
      VerifiedIsChained(h, init);
      assert LineHolds(h, lines, n);
      if lines[n].Entry? {
        LineIsChained(h, lines, n);
        ChainedAppend(h, Entries(init), lines[n].members);
      } else {
        assert Entries(lines) == Entries(init);
      }
    }
  }

  lemma LineIsChained(h: Hash, lines: seq<Line>, i: nat)
    requires i < |lines| && lines[i].Entry? && LineHolds(h, lines, i)
    ensures ChainedEntry(h, lines[i].members, Previous(lines, i))
  {
  }

  lemma ChainedAppend(h: Hash, es: seq<seq<Member>>, ms: seq<Member>)
    requires Chained(h, es) && WellFormed(Obj(ms)) && ChainedEntry(h, ms, Before(es, |es|))
    ensures Chained(h, es + [ms])
  {
    hide ChainedEntry, WellFormed, RecordHash, Genesis;
    var t := es + [ms];
    forall i | 0 <= i < |t| ensures EntryHolds(h, t, i) {
      assert Before(t, i) == Before(es, i);
      assert t[i] == if i < |es| then es[i] else ms;
      assert i < |es| ==> EntryHolds(h, es, i);
    }
  }

  /** The hash failed on these two logs: it collides across them, or it took the genesis value. */
  ghost predicate HashFailed(h: Hash, a: seq<seq<Member>>, b: seq<seq<Member>>) {
    || (exists i, j :: 0 <= i < |a| && 0 <= j < |b| && PrintableMembers(Hashed(a[i])) && PrintableMembers(Hashed(b[j]))
                       && Collision(h, Hashed(a[i]), Hashed(b[j])))
    || (exists i :: 0 <= i < |a| && ChainHash(h, a[i]) == Some(Genesis()))
    || (exists j :: 0 <= j < |b| && ChainHash(h, b[j]) == Some(Genesis()))
  }

  /** The same record: the same JSON in every hashed field, and the same record_hash. */
  ghost predicate SameRecord(e: seq<Member>, f: seq<Member>) {
    Equiv(Obj(Hashed(e)), Obj(Hashed(f))) && RecordHash(e) == RecordHash(f)
  }

  lemma SameHashSameRecord(h: Hash, e: seq<Member>, p: string, f: seq<Member>, q: string)
    requires WellFormed(Obj(e)) && WellFormed(Obj(f)) && ChainedEntry(h, e, p) && ChainedEntry(h, f, q)
    requires RecordHash(e) == RecordHash(f)
    ensures PrintableMembers(Hashed(e)) && PrintableMembers(Hashed(f))
    ensures Collision(h, Hashed(e), Hashed(f)) || (SameRecord(e, f) && p == q)
  {
    var d := RecordHash(e);
    assert HashPayload(h, Hashed(e)) == Some(d) && HashPayload(h, Hashed(f)) == Some(d);
    assert Get(Hashed(e), "prev_hash") == Some(Str(p)) && Get(Hashed(f), "prev_hash") == Some(Str(q));
    HashedWellFormed(e);
    HashedWellFormed(f);
    hide Hashed, WellFormed, ChainedEntry, Collision;
    SameHashSamePayload(h, Hashed(e), Hashed(f));
    if Equiv(Obj(Hashed(e)), Obj(Hashed(f))) {
      EquivGet(Hashed(e), Hashed(f), "prev_hash");
    }
  }

  lemma HashedWellFormed(ms: seq<Member>)
    requires WellFormed(Obj(ms))
    ensures WellFormed(Obj(Hashed(ms))) && DistinctKeys(Hashed(ms))
  {
    WithoutKeepsWellFormed(ms, "record_hash");
  }

  lemma ChainedAt(h: Hash, es: seq<seq<Member>>, i: nat)
    requires Chained(h, es) && i < |es|
    ensures WellFormed(Obj(es[i])) && ChainedEntry(h, es[i], Before(es, i))
    ensures ChainHash(h, es[i]) == Some(RecordHash(es[i]))
  {
    assert EntryHolds(h, es, i);
  }

  /**
   Tamper evidence: two verified logs that share a record_hash agree on everything up to it, in length
   and content, unless the hash itself failed on them.
   */
  lemma {:induction false} TamperEvidence(h: Hash, a: seq<seq<Member>>, b: seq<seq<Member>>, i: nat, j: nat)
    requires Chained(h, a) && Chained(h, b)
    requires i < |a| && j < |b| && RecordHash(a[i]) == RecordHash(b[j])
    ensures HashFailed(h, a, b) || (i == j && forall k :: 0 <= k <= i ==> SameRecord(a[k], b[k]))
    decreases i
  {
    hide Genesis, SameRecord, Chained, RecordHash, HashFailed;
    Paired(h, a, b, i, j);
    if !HashFailed(h, a, b) {
      if i > 0 && j > 0 {
        TamperEvidence(h, a, b, i - 1, j - 1);
      } else {
        FirstStands(h, a, b, i, j);
      }
    }
  }

  /** Entries with one record_hash are the same record after the same hash. */
  lemma Paired(h: Hash, a: seq<seq<Member>>, b: seq<seq<Member>>, i: nat, j: nat)
    requires Chained(h, a) && Chained(h, b)
    requires i < |a| && j < |b| && RecordHash(a[i]) == RecordHash(b[j])
    ensures HashFailed(h, a, b) || (SameRecord(a[i], b[j]) && Before(a, i) == Before(b, j))
  {
    hide Genesis, WellFormed, ChainHash, ChainedEntry, SameRecord, Chained, Collision, RecordHash, Hashed, Before;
    ChainedAt(h, a, i);
    ChainedAt(h, b, j);
    SameHashSameRecord(h, a[i], Before(a, i), b[j], Before(b, j));
  }

  /** A first entry stands against a later one only if the hash took the genesis value. */
  lemma FirstStands(h: Hash, a: seq<seq<Member>>, b: seq<seq<Member>>, i: nat, j: nat)
    requires Chained(h, a) && Chained(h, b) && i < |a| && j < |b| && Before(a, i) == Before(b, j)
    requires i == 0 || j == 0
    ensures HashFailed(h, a, b) || (i == 0 && j == 0)
  {
    hide Genesis, WellFormed, ChainHash, ChainedEntry, Chained, Collision, RecordHash, Hashed;
    if i > 0 {
      ChainedAt(h, a, i - 1);
    }
    if j > 0 {
      ChainedAt(h, b, j - 1);
    }
  }

  /** The same, for two files `verify_audit_chain` calls intact. */
  lemma VerifiedFilesAgree(h: Hash, f: seq<Line>, g: seq<Line>, i: nat, j: nat)
    requires Verifies(h, f) && forall n :: 0 <= n < |f| && f[n].Entry? ==> WellFormed(Obj(f[n].members))
    requires Verifies(h, g) && forall n :: 0 <= n < |g| && g[n].Entry? ==> WellFormed(Obj(g[n].members))
    requires i < |Entries(f)| && j < |Entries(g)| && RecordHash(Entries(f)[i]) == RecordHash(Entries(g)[j])
    ensures HashFailed(h, Entries(f), Entries(g))
      || (i == j && forall k :: 0 <= k <= i ==> SameRecord(Entries(f)[k], Entries(g)[k]))
  {
    hide Verifies, WellFormed, Entries, HashFailed, SameRecord;
    VerifiedIsChained(h, f);
    VerifiedIsChained(h, g);
    TamperEvidence(h, Entries(f), Entries(g), i, j);
  }
}
