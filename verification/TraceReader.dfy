/** agent/trace/reader.py: reading the JSONL trace file from the start and from its tail. What
    stripping and parsing a line gives (None for a blank or broken one) is a parameter. */
module TraceReader {
  import opened Basics
  import opened Ordering

  const NEWLINE: Byte := 10
  const RETURN: Byte := 13

  /** How far the first line reaches, its newline included. */
  function LineEnd(s: seq<Byte>): (n: nat)
    ensures n <= |s| && (s != [] ==> n > 0)
  {
    if s == [] then 0 else if s[0] == NEWLINE then 1 else 1 + LineEnd(s[1..])
  }

  /** The lines of a file opened for bytes, each with its newline; the last may lack it. */
  function Lines(s: seq<Byte>): seq<seq<Byte>> {
    if s == [] then [] else [s[..LineEnd(s)]] + Lines(s[LineEnd(s)..])
  }

  /** The same file opened as text, where carriage returns end lines too. */
  function Translated(s: seq<Byte>): seq<Byte> {
    if s == [] then []
    else if s[0] != RETURN then [s[0]] + Translated(s[1..])
    else if |s| > 1 && s[1] == NEWLINE then [NEWLINE] + Translated(s[2..])
    else [NEWLINE] + Translated(s[1..])
  }

  function TextLines(s: seq<Byte>): seq<seq<Byte>> {
    Lines(Translated(s))
  }

  lemma {:induction false} NothingToTranslate(s: seq<Byte>)
    requires RETURN !in s
    ensures Translated(s) == s
  {
    if s != [] {
      NothingToTranslate(s[1..]);
    }
  }

  /** The records one after another, each closed by the same line end. */
  function Joined(records: seq<seq<Byte>>, end: seq<Byte>): seq<Byte> {
    if records == [] then [] else records[0] + end + Joined(records[1..], end)
  }

  lemma {:induction false} TranslatedRecord(record: seq<Byte>, end: seq<Byte>, rest: seq<Byte>)
    requires RETURN !in record && (end == [RETURN, NEWLINE] || end == [RETURN])
    requires end == [RETURN] ==> rest == [] || rest[0] != NEWLINE
    ensures Translated(record + end + rest) == record + [NEWLINE] + Translated(rest)
  {
    var s := record + end + rest;
    if record == [] {
      assert s == end + rest && s[|end|..] == rest;
    } else {
      assert s[1..] == record[1..] + end + rest;
      TranslatedRecord(record[1..], end, rest);
      assert record + [NEWLINE] + Translated(rest) == [record[0]] + (record[1..] + [NEWLINE] + Translated(rest));
    }
  }

  lemma {:induction false} JoinedStart(records: seq<seq<Byte>>)
    requires forall i :: 0 <= i < |records| ==> NEWLINE !in records[i]
    ensures Joined(records, [RETURN]) != [] ==> Joined(records, [RETURN])[0] != NEWLINE
  {
    if records != [] && records[0] != [] { assert records[0][0] in records[0]; }
  }

  /** Opened as text, a file with other line ends reads as the one with newlines. */
  lemma {:induction false} LineEndsAreTranslated(records: seq<seq<Byte>>, end: seq<Byte>)
    requires forall i :: 0 <= i < |records| ==> NEWLINE !in records[i] && RETURN !in records[i]
    requires end == [RETURN, NEWLINE] || end == [RETURN]
    ensures Translated(Joined(records, end)) == Joined(records, [NEWLINE])
  {
    if records != [] {
      LineEndsAreTranslated(records[1..], end);
      JoinedStart(records[1..]);
      TranslatedRecord(records[0], end, Joined(records[1..], end));
    }
  }

  /** What parsing yields, in order, without the lines that give nothing. */
  function Parsed<E>(parse: seq<Byte> -> Option<E>, lines: seq<seq<Byte>>): seq<E> {
    if lines == [] then []
    else
      var n := |lines| - 1;
      Parsed(parse, lines[..n]) + (if parse(lines[n]).None? then [] else [parse(lines[n]).value])
  }

  lemma {:induction false} ParsedAppends<E>(parse: seq<Byte> -> Option<E>, a: seq<seq<Byte>>, b: seq<seq<Byte>>)
    ensures Parsed(parse, a + b) == Parsed(parse, a) + Parsed(parse, b)
  {
    if b == [] {
      assert a + b == a;
    } else {
      var n := |b| - 1;
      ParsedAppends(parse, a, b[..n]);
      assert (a + b)[..|a + b| - 1] == a + b[..n];
    }
  }

  // ---------------------------------------------------------------- the two readers

  /** _iter_trace_events */
  method AllEvents<E>(file: seq<Byte>, parse: seq<Byte> -> Option<E>) returns (events: seq<E>)
    ensures events == Parsed(parse, TextLines(file))
  {
    events := ParseLines(TextLines(file), parse);
  }

  method ParseLines<E>(lines: seq<seq<Byte>>, parse: seq<Byte> -> Option<E>) returns (events: seq<E>)
    ensures events == Parsed(parse, lines)
  {
    events := [];
    for i := 0 to |lines|
      invariant events == Parsed(parse, lines[..i])
    {
      assert lines[..i + 1][..i] == lines[..i];
      var event := parse(lines[i]);
      if event.Some? {
        events := events + [event.value];
      }
    }
    assert lines[..|lines|] == lines;
  }

  /** Where reading starts: `file_size - max_bytes`, at most the end of the file. */
  function Start(file: seq<Byte>, maxBytes: int): nat
    requires |file| > maxBytes
    ensures Start(file, maxBytes) <= |file|
  {
    if maxBytes < 0 then |file| else |file| - maxBytes
  }

  function LastOf<T>(s: seq<T>, n: int): seq<T> {
    if 0 < n < |s| then s[|s| - n..] else s
  }

  function AfterFirstLine(s: seq<Byte>): seq<Byte> {
    s[LineEnd(s)..]
  }

  /** What is left to read after the jump towards the end. */
  function TailBytes(file: seq<Byte>, maxBytes: int): seq<Byte> {
    if |file| > maxBytes then AfterFirstLine(file[Start(file, maxBytes)..]) else file
  }

  /** The lines the tail reader looks at. */
  function TailLines(file: seq<Byte>, maxEvents: int, maxBytes: int): seq<seq<Byte>> {
    LastOf(Lines(TailBytes(file, maxBytes)), maxEvents)
  }

  /** _iter_recent_trace_events */
  method RecentEvents<E>(file: seq<Byte>, parse: seq<Byte> -> Option<E>, maxEvents: int, maxBytes: int)
    returns (events: seq<E>)
    ensures events == Parsed(parse, TailLines(file, maxEvents, maxBytes))
  {
    var rest := file;
    if |file| > maxBytes {
      rest := file[Start(file, maxBytes)..];
      rest := AfterFirstLine(rest);
    }
    var lines := Lines(rest);
    if maxEvents > 0 && |lines| > maxEvents {
      lines := lines[|lines| - maxEvents..];
    }
    assert lines == LastOf(Lines(rest), maxEvents);
    events := ParseLines(lines, parse);
  }

  // ---------------------------------------------------------------- the tail is a tail

  /** The offset at which line k starts. */
  function Offset(lines: seq<seq<Byte>>, k: nat): nat
    requires k <= |lines|
  {
    if k == 0 then 0 else Offset(lines, k - 1) + |lines[k - 1]|
  }

  /** Line k is the first to start after `pos`. */
  predicate IsFirstAfter(lines: seq<seq<Byte>>, k: nat, pos: int) {
    0 < k <= |lines| && Offset(lines, k - 1) <= pos < Offset(lines, k)
  }

  lemma {:induction false} OffsetOfRest(lines: seq<seq<Byte>>, k: nat)
    requires 0 < k <= |lines|
    ensures Offset(lines, k) == |lines[0]| + Offset(lines[1..], k - 1)
  {
    if k > 1 {
      OffsetOfRest(lines, k - 1);
      assert lines[1..][k - 2] == lines[k - 1];
    }
  }

  /** Jumping to `pos` and leaving the line there unread gives exactly the lines that start
      after `pos`. */
  lemma {:induction false} LinesAfter(file: seq<Byte>, pos: nat) returns (k: nat)
    requires pos < |file|
    ensures var lines := Lines(file);
      && k <= |lines| && Lines(AfterFirstLine(file[pos..])) == lines[k..]
      && IsFirstAfter(lines, k, pos)
    decreases |file|
  {
    var e := LineEnd(file);
    var lines := Lines(file);
    assert lines[0] == file[..e] && lines[1..] == Lines(file[e..]);
    assert Offset(lines, 1) == Offset(lines, 0) + |lines[0]|;
    if pos < e {
      LineEndFrom(file, pos);
      assert file[pos..][e - pos..] == file[e..];
      k := 1;
    } else {
      var j := LinesAfter(file[e..], pos - e);
      k := j + 1;
      assert file[e..][pos - e..] == file[pos..];
      OffsetOfRest(lines, k);
      if j > 0 { OffsetOfRest(lines, j); }
    }
  }

  lemma {:induction false} LineEndFrom(s: seq<Byte>, pos: nat)
    requires pos < LineEnd(s)
    ensures LineEnd(s[pos..]) == LineEnd(s) - pos
  {
    if pos > 0 {
      LineEndFrom(s[1..], pos - 1);
      assert s[1..][pos - 1..] == s[pos..];
    }
  }

  predicate IsSuffix<E(==)>(a: seq<E>, b: seq<E>) {
    |a| <= |b| && b[|b| - |a|..] == a
  }

  lemma NothingPastTheEnd(file: seq<Byte>, maxBytes: int)
    requires maxBytes <= 0 && maxBytes < |file|
    ensures Lines(TailBytes(file, maxBytes)) == Lines(file)[|Lines(file)|..]
  {
    assert file[Start(file, maxBytes)..] == [];
  }

  lemma AfterTheJump(file: seq<Byte>, maxBytes: int) returns (k: nat)
    requires 0 < maxBytes < |file|
    ensures IsFirstAfter(Lines(file), k, |file| - maxBytes) && Lines(TailBytes(file, maxBytes)) == Lines(file)[k..]
  {
    k := LinesAfter(file, |file| - maxBytes);
  }

  lemma TailBytesAreSuffix(file: seq<Byte>, maxBytes: int) returns (k: nat)
    ensures k <= |Lines(file)| && Lines(TailBytes(file, maxBytes)) == Lines(file)[k..]
    ensures |file| <= maxBytes ==> k == 0
    ensures 0 < maxBytes < |file| ==> IsFirstAfter(Lines(file), k, |file| - maxBytes)
  {
    if |file| <= maxBytes {
      k := 0;
    } else if maxBytes > 0 {
      k := AfterTheJump(file, maxBytes);
    } else {
      k := |Lines(file)|;
      NothingPastTheEnd(file, maxBytes);
    }
  }

  lemma LastOfSuffix<T>(s: seq<T>, k: nat, n: int) returns (j: nat)
    requires k <= |s|
    ensures k <= j <= |s| && LastOf(s[k..], n) == s[j..]
    ensures n <= 0 || |s| - k <= n ==> j == k
    ensures 0 < n < |s| - k ==> j == |s| - n
  {
    if 0 < n < |s| - k {
      j := |s| - n;
    } else {
      j := k;
    }
  }

  /** For every file and all limits, the tail reader looks at the last lines of the file: with a
      limit on bytes alone exactly those that start after the point it jumps to, and all of them
      when they fit both limits. */
  lemma TailLinesAreSuffix(file: seq<Byte>, maxEvents: int, maxBytes: int) returns (k: nat)
    ensures k <= |Lines(file)| && TailLines(file, maxEvents, maxBytes) == Lines(file)[k..]
    ensures |file| <= maxBytes ==> k == (if 0 < maxEvents < |Lines(file)| then |Lines(file)| - maxEvents else 0)
    ensures 0 < maxBytes < |file| && maxEvents <= 0 ==>
              IsFirstAfter(Lines(file), k, |file| - maxBytes)
  {
    var first := TailBytesAreSuffix(file, maxBytes);
    k := LastOfSuffix(Lines(file), first, maxEvents);
  }

  lemma ParsedSuffix<E>(parse: seq<Byte> -> Option<E>, lines: seq<seq<Byte>>, k: nat)
    requires k <= |lines|
    ensures IsSuffix(Parsed(parse, lines[k..]), Parsed(parse, lines))
  {
    assert lines == lines[..k] + lines[k..];
    ParsedAppends(parse, lines[..k], lines[k..]);
  }

  /** For every file of newline-separated records, the tail reader yields a suffix of what the
      full scan yields. */
  lemma TailIsSuffixOfScan<E>(file: seq<Byte>, parse: seq<Byte> -> Option<E>, maxEvents: int, maxBytes: int)
    requires RETURN !in file
    ensures IsSuffix(Parsed(parse, TailLines(file, maxEvents, maxBytes)), Parsed(parse, TextLines(file)))
  {
    NothingToTranslate(file);
    var k := TailLinesAreSuffix(file, maxEvents, maxBytes);
    ParsedSuffix(parse, Lines(file), k);
  }

  // ---------------------------------------------------------------- one task's events

  /** list_task_traces, from the tail, is a suffix of the task's whole trace. */
  lemma TaskTracesAreSuffix<E(!new)>(file: seq<Byte>, parse: seq<Byte> -> Option<E>, ofTask: E -> bool,
      maxEvents: int, maxBytes: int)
    requires RETURN !in file
    ensures IsSuffix(Select(Parsed(parse, TailLines(file, maxEvents, maxBytes)), ofTask),
      Select(Parsed(parse, TextLines(file)), ofTask))
  {
    var tail, all := Parsed(parse, TailLines(file, maxEvents, maxBytes)), Parsed(parse, TextLines(file));
    TailIsSuffixOfScan(file, parse, maxEvents, maxBytes);
    var front := all[..|all| - |tail|];
    assert all == front + tail;
    SelectAppend(front, tail, ofTask);
  }

  // ---------------------------------------------------------------- what the writer wrote

  /** The file after these events were appended, a line each. */
  function FileOf<E>(encode: E -> seq<Byte>, events: seq<E>): seq<Byte> {
    if events == [] then [] else encode(events[0]) + [NEWLINE] + FileOf(encode, events[1..])
  }

  function LinesOf<E>(encode: E -> seq<Byte>, events: seq<E>): seq<seq<Byte>> {
    seq(|events|, i requires 0 <= i < |events| => encode(events[i]) + [NEWLINE])
  }

  lemma {:induction false} LineEndOfLine(line: seq<Byte>, rest: seq<Byte>)
    requires NEWLINE !in line
    ensures LineEnd(line + [NEWLINE] + rest) == |line| + 1
  {
    var s := line + [NEWLINE] + rest;
    if line != [] {
      assert s[1..] == line[1..] + [NEWLINE] + rest;
      LineEndOfLine(line[1..], rest);
    }
  }

  lemma {:induction false} WrittenLines<E>(encode: E -> seq<Byte>, events: seq<E>)
    requires forall e :: NEWLINE !in encode(e)
    ensures Lines(FileOf(encode, events)) == LinesOf(encode, events)
  {
    if events != [] {
      var rest := FileOf(encode, events[1..]);
      var line := encode(events[0]);
      LineEndOfLine(line, rest);
      var file := FileOf(encode, events);
      assert file[..|line| + 1] == line + [NEWLINE] && file[|line| + 1..] == rest;
      WrittenLines(encode, events[1..]);
      assert LinesOf(encode, events) == [line + [NEWLINE]] + LinesOf(encode, events[1..]);
    }
  }

  lemma {:induction false} ParsedLines<E>(encode: E -> seq<Byte>, parse: seq<Byte> -> Option<E>, events: seq<E>)
    requires forall e :: parse(encode(e) + [NEWLINE]) == Some(e)
    ensures Parsed(parse, LinesOf(encode, events)) == events
  {
    if events != [] {
      var n := |events| - 1;
      ParsedLines(encode, parse, events[..n]);
      assert LinesOf(encode, events)[..n] == LinesOf(encode, events[..n]);
      assert LinesOf(encode, events)[n] == encode(events[n]) + [NEWLINE];
    }
  }

  /** Reading back what was written: the tail reader yields the last of the written events, all
      that the limit on events allows when they fit the limit on bytes. */
  lemma ReadsBackWhatWasWritten<E>(encode: E -> seq<Byte>, parse: seq<Byte> -> Option<E>, events: seq<E>,
      maxEvents: int, maxBytes: int)
    requires forall e :: NEWLINE !in encode(e) && parse(encode(e) + [NEWLINE]) == Some(e)
    ensures var file := FileOf(encode, events); var read := Parsed(parse, TailLines(file, maxEvents, maxBytes));
      IsSuffix(read, events) && (|file| <= maxBytes ==> read == LastOf(events, maxEvents))
  {
    WrittenLines(encode, events);
    var k := TailLinesAreSuffix(FileOf(encode, events), maxEvents, maxBytes);
    LinesOfRest(encode, events, k);
    ParsedLines(encode, parse, events[k..]);
  }

  lemma LinesOfRest<E>(encode: E -> seq<Byte>, events: seq<E>, k: nat)
    requires k <= |events|
    ensures LinesOf(encode, events)[k..] == LinesOf(encode, events[k..])
  {}
}
