/** The bounded journal reader: chunks of at most one line and one byte, against
    plain splitting at newlines. */
module JournalReader {
  import opened Bytes
  import opened Tables

  const NEWLINE: Byte := 10
  const MAX_LINE: nat := 8192

  // ------------------------------------------------------ plain splitting

  /** Length of the first line, its newline included. */
  function LineEnd(s: seq<Byte>): (n: nat)
    ensures n <= |s| && (s != [] ==> n > 0)
    ensures forall k | 0 <= k < n - 1 :: s[k] != NEWLINE
    ensures n < |s| ==> s[n - 1] == NEWLINE
  {
    if s == [] then 0 else if s[0] == NEWLINE then 1 else 1 + LineEnd(s[1..])
  }

  /** The lines of a file, newlines included; only the last one may lack its own. */
  function Lines(s: seq<Byte>): seq<seq<Byte>>
    decreases |s|
  {
    if s == [] then [] else [s[..LineEnd(s)]] + Lines(s[LineEnd(s)..])
  }

  predicate Terminated(line: seq<Byte>) {
    line != [] && line[|line| - 1] == NEWLINE
  }

  predicate Oversized(line: seq<Byte>) {
    |line| > MAX_LINE
  }

  predicate Accepted<R>(line: seq<Byte>, parse: seq<Byte> -> Option<R>) {
    !Oversized(line) && parse(line).Some?
  }

  function Records<R>(lines: seq<seq<Byte>>, parse: seq<Byte> -> Option<R>): seq<R> {
    if lines == [] then [] else
    var last := lines[|lines| - 1];
    Records(lines[..|lines| - 1], parse) + if Accepted(last, parse) then [parse(last).value] else []
  }

  /** Lines that yield no record. */
  function Rejects<R>(lines: seq<seq<Byte>>, parse: seq<Byte> -> Option<R>): nat {
    if lines == [] then 0 else
    Rejects(lines[..|lines| - 1], parse) + if Accepted(lines[|lines| - 1], parse) then 0 else 1
  }

  /** Lines that use up the record limit: all but an oversized last one without newline. */
  function Attempts(lines: seq<seq<Byte>>): nat {
    if lines == [] then 0 else
    var last := lines[|lines| - 1];
    Attempts(lines[..|lines| - 1]) + if Oversized(last) && !Terminated(last) then 0 else 1
  }

  lemma OneMore<R>(lines: seq<seq<Byte>>, m: nat, parse: seq<Byte> -> Option<R>)
    requires m < |lines|
    ensures Records(lines[..m + 1], parse) ==
            Records(lines[..m], parse) + if Accepted(lines[m], parse) then [parse(lines[m]).value] else []
    ensures Rejects(lines[..m + 1], parse) == Rejects(lines[..m], parse) + if Accepted(lines[m], parse) then 0 else 1
    ensures Attempts(lines[..m + 1]) ==
            Attempts(lines[..m]) + if Oversized(lines[m]) && !Terminated(lines[m]) then 0 else 1
  {
    assert lines[..m + 1][..m] == lines[..m];
  }

  /** What one line is worth: a record if it has at most 8192 bytes and parses, and
      else a rejection; it uses up an attempt unless it is longer and lacks its newline. */
  lemma OneLineYields<R>(line: seq<Byte>, parse: seq<Byte> -> Option<R>)
    ensures Records([line], parse) == if |line| <= 8192 && parse(line).Some? then [parse(line).value] else []
    ensures Rejects([line], parse) == if |line| <= 8192 && parse(line).Some? then 0 else 1
    ensures Attempts([line]) == if |line| > 8192 && line[|line| - 1] != 10 then 0 else 1
  {
    var lines := [line];
    assert lines[|lines| - 1] == line && lines[..|lines| - 1] == [];
  }

  /** Splitting loses and invents nothing. */
  lemma {:induction false} LinesJoin(s: seq<Byte>)
    ensures Joined(Lines(s)) == s
    decreases |s|
  {
    if s == [] {
    } else {
      var first, rest := s[..LineEnd(s)], s[LineEnd(s)..];
      assert Lines(s) == [first] + Lines(rest);
      hide Lines, LineEnd;
      LinesJoin(rest);
      assert ([first] + Lines(rest))[1..] == Lines(rest);
      assert first + rest == s;
    }
  }

  ghost predicate OneLine(line: seq<Byte>) {
    line != [] && forall k | 0 <= k < |line| - 1 :: line[k] != NEWLINE
  }

  lemma {:induction false} LinesAreLines(s: seq<Byte>)
    ensures forall i | 0 <= i < |Lines(s)| :: OneLine(Lines(s)[i]) && (i < |Lines(s)| - 1 ==> Terminated(Lines(s)[i]))
    decreases |s|
  {
    if s == [] {
    } else {
      var first, rest := s[..LineEnd(s)], s[LineEnd(s)..];
      assert OneLine(first) && (rest != [] ==> Terminated(first));
      assert Lines(s) == [first] + Lines(rest);
      assert rest == [] ==> Lines(rest) == [];
      hide Lines, LineEnd;
      LinesAreLines(rest);
    }
  }

  function Joined(lines: seq<seq<Byte>>): seq<Byte> {
    if lines == [] then [] else lines[0] + Joined(lines[1..])
  }

  // ---------------------------------------------------------- line ends

  lemma {:induction false} LineEndAfter(s: seq<Byte>, k: nat)
    requires k <= |s| && NEWLINE !in s[..k]
    ensures LineEnd(s) == k + LineEnd(s[k..])
    decreases k
  {
    if k == 0 {
      assert s[0..] == s;
    } else {
      assert s[0] == s[..k][0];
      assert s[1..][..k - 1] == s[..k][1..];
      LineEndAfter(s[1..], k - 1);
      assert s[1..][k - 1..] == s[k..];
    }
  }

  /** The first m lines end at offset `at`. */
  ghost predicate Boundary(data: seq<Byte>, at: nat, m: nat) {
    at <= |data| && m <= |Lines(data)| && Lines(data)[m..] == Lines(data[at..]) && |Joined(Lines(data)[..m])| == at
  }

  lemma {:induction false} JoinedConcat(a: seq<seq<Byte>>, b: seq<seq<Byte>>)
    ensures Joined(a + b) == Joined(a) + Joined(b)
    decreases |a|
  {
    if a == [] {
      assert a + b == b;
    } else {
      assert (a + b)[1..] == a[1..] + b;
      JoinedConcat(a[1..], b);
    }
  }

  lemma JoinedNext(lines: seq<seq<Byte>>, m: nat)
    requires m < |lines|
    ensures |Joined(lines[..m + 1])| == |Joined(lines[..m])| + |lines[m]|
  {
    assert lines[..m + 1] == lines[..m] + [lines[m]];
    JoinedConcat(lines[..m], [lines[m]]);
    assert Joined([lines[m]]) == lines[m] + Joined([lines[m]][1..]);
  }

  lemma LinesHead(s: seq<Byte>)
    requires s != []
    ensures 0 < LineEnd(s) <= |s| && Lines(s) == [s[..LineEnd(s)]] + Lines(s[LineEnd(s)..])
  {
    hide LineEnd;
  }

  lemma HeadOf<T>(s: seq<T>, m: nat, x: T, tail: seq<T>)
    requires m <= |s| && s[m..] == [x] + tail
    ensures m < |s| && s[m] == x && s[m + 1..] == tail
  {
    assert |s[m..]| > 0 && s[m..][0] == x && s[m..][1..] == tail;
  }

  lemma NextBoundary(data: seq<Byte>, at: nat, m: nat)
    requires Boundary(data, at, m) && at < |data|
    ensures m < |Lines(data)| && Lines(data)[m] == data[at..][..LineEnd(data[at..])]
    ensures Boundary(data, at + LineEnd(data[at..]), m + 1)
  {
    hide Lines, LineEnd, Joined;
    var rest := data[at..];
    LinesHead(rest);
    assert rest[LineEnd(rest)..] == data[at + LineEnd(rest)..];
    HeadOf(Lines(data), m, rest[..LineEnd(rest)], Lines(rest[LineEnd(rest)..]));
    JoinedNext(Lines(data), m);
  }

  // ----------------------------------------------------------- the reader

  datatype Progress<R> = Progress(records: seq<R>, bytesRead: nat, rejected: nat, attempts: nat)

  /** `stream.readline(limit)` on what is left of the stream: at most `limit` bytes
      from its start, up to and with the first newline. */
  function ReadLine(rest: seq<Byte>, limit: nat): (chunk: seq<Byte>)
    ensures chunk <= rest && |chunk| <= limit && (chunk == [] <==> rest == [] || limit == 0)
    ensures forall k | 0 <= k < |chunk| - 1 :: chunk[k] != NEWLINE
    ensures |chunk| < limit ==> chunk == rest || (chunk != [] && chunk[|chunk| - 1] == NEWLINE)
  {
    rest[..Min(limit, LineEnd(rest))]
  }

  /** Line m cannot be taken after those before it: it goes past the byte limit,
      or the record limit is used up. */
  ghost predicate Refused(lines: seq<seq<Byte>>, m: nat, bytesRead: nat, attempts: nat, maxBytes: nat, maxRecords: nat)
    requires m < |lines|
  {
    bytesRead + |Joined(lines[..m + 1])| > maxBytes || attempts + Attempts(lines[..m]) >= maxRecords
  }

  /** How many of the first n lines can be taken, one after the other. */
  ghost function Fitting(lines: seq<seq<Byte>>, n: nat, maxBytes: nat, maxRecords: nat): (m: nat)
    requires n <= |lines|
    ensures m <= n && forall k | 0 <= k < m :: !Refused(lines, k, 0, 0, maxBytes, maxRecords)
    ensures m < n ==> Refused(lines, m, 0, 0, maxBytes, maxRecords)
  {
    if n == 0 then 0 else
    var m := Fitting(lines, n - 1, maxBytes, maxRecords);
    if m < n - 1 || Refused(lines, n - 1, 0, 0, maxBytes, maxRecords) then m else n
  }

  /** The bytes read when line m is refused: the chunk that was too much, or the
      first chunk of a line for which no record was left. */
  ghost predicate StopsAt(lines: seq<seq<Byte>>, m: nat, bytesRead: nat, attempts: nat, maxBytes: nat, maxRecords: nat, end: nat)
    requires m < |lines|
  {
    end == if attempts + Attempts(lines[..m]) < maxRecords then maxBytes + 1
           else Min(bytesRead + |Joined(lines[..m])| + Min(|lines[m]|, MAX_LINE + 1), maxBytes + 1)
  }

  /** What plain splitting of the first m lines adds. */
  ghost predicate Took<R>(start: Progress<R>, end: Progress<R>, lines: seq<seq<Byte>>, m: nat, parse: seq<Byte> -> Option<R>) {
    && m <= |lines|
    && end.records == start.records + Records(lines[..m], parse)
    && end.rejected == start.rejected + Rejects(lines[..m], parse)
    && end.attempts == start.attempts + Attempts(lines[..m])
  }

  /** Every line before the first refused one is parsed or rejected, and no other. */
  method ReadFile<R>(data: seq<Byte>, parse: seq<Byte> -> Option<R>, start: Progress<R>, maxBytes: nat, maxRecords: nat)
    returns (end: Progress<R>, stopped: bool, ghost taken: nat)
    requires start.bytesRead <= maxBytes
    ensures taken <= |Lines(data)| && Took(start, end, Lines(data), taken, parse)
    ensures forall m | 0 <= m < taken :: !Refused(Lines(data), m, start.bytesRead, start.attempts, maxBytes, maxRecords)
    ensures stopped <==> taken < |Lines(data)|
    ensures stopped ==> Refused(Lines(data), taken, start.bytesRead, start.attempts, maxBytes, maxRecords)
                        && StopsAt(Lines(data), taken, start.bytesRead, start.attempts, maxBytes, maxRecords, end.bytesRead)
    ensures !stopped ==> end.bytesRead == start.bytesRead + |data| <= maxBytes
  {
    hide Lines, LineEnd, Records, Rejects, Attempts, Joined, ReadLine, Boundary, Refused, StopsAt;
    var records, oversized := start.records, false;
    var bytesRead: nat, rejected: nat, attempts: nat := start.bytesRead, start.rejected, start.attempts;
    var pos: nat := 0;
    ghost var lines := Lines(data);
    ghost var lineStart: nat := 0;
    taken := 0;
    TookNothing(start, data, parse);
    while true
      invariant pos <= |data| && bytesRead == start.bytesRead + pos <= maxBytes
      invariant Boundary(data, lineStart, taken) && taken <= |lines|
      invariant if oversized then lineStart + MAX_LINE < pos && NEWLINE !in data[lineStart..pos] else lineStart == pos
      invariant Took(start, Progress(records, bytesRead, rejected, attempts), lines, taken, parse)
      invariant forall m | 0 <= m < taken :: !Refused(lines, m, start.bytesRead, start.attempts, maxBytes, maxRecords)
      invariant oversized ==> attempts < maxRecords
      decreases |data| - pos
    {
      var remaining := maxBytes - bytesRead;
      ghost var soFar := Progress(records, bytesRead, rejected, attempts);
      var chunk := ReadLine(data[pos..], Min(MAX_LINE + 1, remaining + 1));
      if chunk == [] {
        assert pos == |data|;
        if oversized {
          LastOversized(data, lineStart, taken);
          NotRefused(data, lineStart, taken, pos, start, soFar, parse, maxBytes, maxRecords);
          rejected := rejected + 1;
          TookOne(start, soFar, Progress(records, bytesRead, rejected, attempts), lines, taken, parse);
          taken := taken + 1;
        } else {
          AtEnd(data, taken);
        }
        break;
      }
      ChunkOf(data, lineStart, taken, pos, chunk, Min(MAX_LINE + 1, remaining + 1));
      bytesRead := bytesRead + |chunk|;
      if |chunk| > remaining || attempts >= maxRecords {
        StopMeans(data, lineStart, taken, pos, chunk, start, soFar, parse, maxBytes, maxRecords);
        return Progress(records, bytesRead, rejected, attempts), true, taken;
      }
      assert chunk == data[pos..pos + |chunk|];
      pos := pos + |chunk|;
      if oversized || |chunk| > MAX_LINE {
        oversized := chunk[|chunk| - 1] != NEWLINE;
        if !oversized {
          NotRefused(data, lineStart, taken, pos, start, soFar, parse, maxBytes, maxRecords);
          rejected := rejected + 1;
          attempts := attempts + 1;
          TookOne(start, soFar, Progress(records, bytesRead, rejected, attempts), lines, taken, parse);
          lineStart, taken := pos, taken + 1;
        }
        continue;
      }
      NotRefused(data, lineStart, taken, pos, start, soFar, parse, maxBytes, maxRecords);
      attempts := attempts + 1;
      var parsed := parse(chunk);
      if parsed.Some? {
        records := records + [parsed.value];
      } else {
        rejected := rejected + 1;
      }
      TookOne(start, soFar, Progress(records, bytesRead, rejected, attempts), lines, taken, parse);
      lineStart, taken := pos, taken + 1;
    }
    return Progress(records, bytesRead, rejected, attempts), false, taken;
  }

  lemma TookNothing<R>(start: Progress<R>, data: seq<Byte>, parse: seq<Byte> -> Option<R>)
    ensures Boundary(data, 0, 0) && Took(start, start, Lines(data), 0, parse)
  {
    assert data[0..] == data && Lines(data)[0..] == Lines(data);
  }

  /** Taking one more line. */
  lemma TookOne<R>(start: Progress<R>, end: Progress<R>, more: Progress<R>, lines: seq<seq<Byte>>, m: nat, parse: seq<Byte> -> Option<R>)
    requires m < |lines| && Took(start, end, lines, m, parse)
    requires more.records == end.records + (if Accepted(lines[m], parse) then [parse(lines[m]).value] else [])
    requires more.rejected == end.rejected + (if Accepted(lines[m], parse) then 0 else 1)
    requires more.attempts == end.attempts + (if Oversized(lines[m]) && !Terminated(lines[m]) then 0 else 1)
    ensures Took(start, more, lines, m + 1, parse)
  {
    hide Records, Rejects, Attempts, Accepted, Oversized, Terminated;
    OneMore(lines, m, parse);
  }

  /** A line read to its end within the limits is not refused. */
  lemma NotRefused<R>(data: seq<Byte>, lineStart: nat, taken: nat, pos: nat, start: Progress<R>, end: Progress<R>,
                      parse: seq<Byte> -> Option<R>, maxBytes: nat, maxRecords: nat)
    requires Took(start, end, Lines(data), taken, parse) && taken < |Lines(data)|
    requires |Joined(Lines(data)[..taken + 1])| == pos && start.bytesRead + pos <= maxBytes && end.attempts < maxRecords
    ensures !Refused(Lines(data), taken, start.bytesRead, start.attempts, maxBytes, maxRecords)
  {
    hide Lines, Joined, Attempts, Records, Rejects;
  }

  lemma StopMeans<R>(data: seq<Byte>, lineStart: nat, taken: nat, pos: nat, chunk: seq<Byte>, start: Progress<R>, end: Progress<R>,
                     parse: seq<Byte> -> Option<R>, maxBytes: nat, maxRecords: nat)
    requires Took(start, end, Lines(data), taken, parse) && taken < |Lines(data)|
    requires start.bytesRead + pos <= maxBytes && chunk != [] && pos + |chunk| <= |Joined(Lines(data)[..taken + 1])|
    requires |chunk| <= maxBytes - start.bytesRead - pos + 1
    requires |chunk| > maxBytes - start.bytesRead - pos || end.attempts >= maxRecords
    requires end.attempts >= maxRecords ==>
               && pos == |Joined(Lines(data)[..taken])|
               && |chunk| == Min(|Lines(data)[taken]|, Min(MAX_LINE + 1, maxBytes - start.bytesRead - pos + 1))
    ensures Refused(Lines(data), taken, start.bytesRead, start.attempts, maxBytes, maxRecords)
    ensures StopsAt(Lines(data), taken, start.bytesRead, start.attempts, maxBytes, maxRecords, start.bytesRead + pos + |chunk|)
  {
    hide Lines, Joined, Attempts, Records, Rejects;
  }

  lemma AtEnd(data: seq<Byte>, taken: nat)
    requires Boundary(data, |data|, taken)
    ensures taken == |Lines(data)|
  {
    assert data[|data|..] == [];
  }

  /** An unterminated line that reaches the end of the file is the last one. */
  lemma LastOversized(data: seq<Byte>, lineStart: nat, taken: nat)
    requires Boundary(data, lineStart, taken) && lineStart < |data| && NEWLINE !in data[lineStart..]
    ensures |Lines(data)| == taken + 1 && Lines(data)[taken] == data[lineStart..]
    ensures |Joined(Lines(data)[..taken + 1])| == |data|
  {
    hide Lines, LineEnd, Joined;
    var rest := data[lineStart..];
    LineEndAfter(rest, |rest|);
    assert LineEnd(rest) == |rest|;
    NextBoundary(data, lineStart, taken);
    NoLines(data[|data|..]);
    assert data[|data|..] == [];
  }

  lemma NoLines(data: seq<Byte>)
    ensures data == [] ==> Lines(data) == [] && LineEnd(data) == 0
  {
  }

  lemma Slices(s: seq<Byte>, a: nat, b: nat, n: nat)
    requires a <= b <= |s| && a + n <= |s|
    ensures s[a..][..n] == s[a..a + n] && s[a..][..b - a] == s[a..b] && s[a..][b - a..] == s[b..]
  {
  }

  /** A piece of a line without newline, and the next chunk without one, are a longer such piece. */
  lemma LongerPiece(data: seq<Byte>, a: nat, b: nat, chunk: seq<Byte>)
    requires a <= b <= b + |chunk| <= |data| && chunk == data[b..][..|chunk|]
    requires NEWLINE !in data[a..b] && NEWLINE !in chunk
    ensures NEWLINE !in data[a..b + |chunk|]
  {
    forall k | a <= k < b + |chunk|
      ensures data[k] != NEWLINE
    {
      if k < b {
        assert data[k] == data[a..b][k - a];
      } else {
        assert data[k] == chunk[k - b];
      }
    }
  }

  /** From inside a line, the rest of the data starts with the rest of that line. */
  lemma InsideLine(data: seq<Byte>, lineStart: nat, taken: nat, pos: nat)
    requires Boundary(data, lineStart, taken) && lineStart <= pos < |data| && NEWLINE !in data[lineStart..pos]
    ensures taken < |Lines(data)| && Boundary(data, pos + LineEnd(data[pos..]), taken + 1)
    ensures Lines(data)[taken] == data[lineStart..pos + LineEnd(data[pos..])]
  {
    hide Lines, LineEnd, Boundary;
    var rest := data[lineStart..];
    Slices(data, lineStart, pos, LineEnd(rest));
    LineEndAfter(rest, pos - lineStart);
    NextBoundary(data, lineStart, taken);
  }

  /** What a chunk is: the rest of its line when it ends with a newline or stops
      short of the limit, and otherwise a piece of the line without newline. */
  lemma ChunkOf(data: seq<Byte>, lineStart: nat, taken: nat, pos: nat, chunk: seq<Byte>, limit: nat)
    requires Boundary(data, lineStart, taken) && lineStart <= pos < |data| && NEWLINE !in data[lineStart..pos]
    requires limit > 0 && chunk == ReadLine(data[pos..], limit)
    ensures chunk != [] && pos + |chunk| <= |data| && taken < |Lines(data)|
    ensures pos + |chunk| <= |Joined(Lines(data)[..taken + 1])|
    ensures chunk[|chunk| - 1] == NEWLINE || |chunk| < limit ==>
              Lines(data)[taken] == data[lineStart..pos + |chunk|] && Boundary(data, pos + |chunk|, taken + 1)
              && pos + |chunk| == |Joined(Lines(data)[..taken + 1])|
    ensures chunk[|chunk| - 1] != NEWLINE ==> NEWLINE !in data[lineStart..pos + |chunk|]
    ensures lineStart == pos ==> pos == |Joined(Lines(data)[..taken])| && |chunk| == Min(|Lines(data)[taken]|, limit)
  {
    hide Lines, LineEnd, Joined;
    assert |Joined(Lines(data)[..taken])| == lineStart;
    InsideLine(data, lineStart, taken, pos);
    var rest := data[pos..];
    var end := pos + LineEnd(rest);
    assert |Joined(Lines(data)[..taken + 1])| == end && |chunk| == Min(limit, LineEnd(rest));
    hide Boundary, ReadLine;
    if chunk[|chunk| - 1] == NEWLINE {
      assert rest[|chunk| - 1] == NEWLINE;
    } else {
      assert NEWLINE !in chunk;
      LongerPiece(data, lineStart, pos, chunk);
    }
  }

  // ----------------------------------------------------- the whole journal

  const MAX_FILES: nat := 64

  /** A journal file as it was found: not a regular file (or replaced while it
      was opened), or its bytes. */
  datatype Source = Unreadable | Contents(data: seq<Byte>)

  datatype Quality = Quality(filesRead: nat, bytesRead: nat, rejected: nat, readErrors: nat, limitsReached: nat)

  function AllLines(sources: seq<Source>): seq<seq<Byte>> {
    if sources == [] then [] else
    var last := sources[|sources| - 1];
    AllLines(sources[..|sources| - 1]) + if last.Contents? then Lines(last.data) else []
  }

  function AllBytes(sources: seq<Source>): nat {
    if sources == [] then 0 else
    var last := sources[|sources| - 1];
    AllBytes(sources[..|sources| - 1]) + if last.Contents? then |last.data| else 0
  }

  function CountReadable(sources: seq<Source>): nat {
    if sources == [] then 0
    else CountReadable(sources[..|sources| - 1]) + if sources[|sources| - 1].Contents? then 1 else 0
  }

  lemma {:induction false} Concatenated<R>(a: seq<seq<Byte>>, b: seq<seq<Byte>>, parse: seq<Byte> -> Option<R>)
    ensures Records(a + b, parse) == Records(a, parse) + Records(b, parse)
    ensures Rejects(a + b, parse) == Rejects(a, parse) + Rejects(b, parse)
    ensures Attempts(a + b) == Attempts(a) + Attempts(b)
    decreases |b|
  {
    if b == [] {
      assert a + b == a;
    } else {
      assert (a + b)[..|a + b| - 1] == a + b[..|b| - 1];
      Concatenated(a, b[..|b| - 1], parse);
    }
  }

  lemma NextSource(sources: seq<Source>, i: nat)
    requires i < |sources|
    ensures AllLines(sources[..i + 1]) ==
            AllLines(sources[..i]) + if sources[i].Contents? then Lines(sources[i].data) else []
    ensures AllBytes(sources[..i + 1]) == AllBytes(sources[..i]) + if sources[i].Contents? then |sources[i].data| else 0
    ensures CountReadable(sources[..i + 1]) == CountReadable(sources[..i]) + if sources[i].Contents? then 1 else 0
  {
    assert sources[..i + 1][..i] == sources[..i];
  }

  lemma {:induction false} SourcesGrow(sources: seq<Source>, i: nat)
    requires i <= |sources|
    ensures AllLines(sources[..i]) <= AllLines(sources) && AllBytes(sources[..i]) <= AllBytes(sources)
    decreases |sources| - i
  {
    if i == |sources| {
      assert sources[..i] == sources;
    } else {
      NextSource(sources, i);
      SourcesGrow(sources, i + 1);
    }
  }

  lemma {:induction false} AllJoined(sources: seq<Source>)
    ensures |Joined(AllLines(sources))| == AllBytes(sources)
  {
    hide Lines;
    if sources == [] {
    } else {
      var front, last := sources[..|sources| - 1], sources[|sources| - 1];
      AllJoined(front);
      if last.Contents? {
        JoinedConcat(AllLines(front), Lines(last.data));
        LinesJoin(last.data);
      } else {
        assert AllLines(sources) == AllLines(front);
      }
    }
  }

  /** A line is refused in its file exactly if it is in the whole journal. */
  lemma RefusedShift(all: seq<seq<Byte>>, done: seq<seq<Byte>>, lines: seq<seq<Byte>>, m: nat, maxBytes: nat, maxRecords: nat)
    requires m < |lines| && done + lines <= all
    ensures Refused(all, |done| + m, 0, 0, maxBytes, maxRecords) <==>
            Refused(lines, m, |Joined(done)|, Attempts(done), maxBytes, maxRecords)
    ensures forall end: nat :: StopsAt(all, |done| + m, 0, 0, maxBytes, maxRecords, end) <==>
              StopsAt(lines, m, |Joined(done)|, Attempts(done), maxBytes, maxRecords, end)
  {
    assert all[..|done| + m] == done + lines[..m];
    assert all[..|done| + m + 1] == done + lines[..m + 1];
    assert all[|done| + m] == (done + lines)[|done| + m];
    hide Joined, Attempts, Records, Rejects;
    JoinedConcat(done, lines[..m]);
    JoinedConcat(done, lines[..m + 1]);
    Concatenated(done, lines[..m], (line: seq<Byte>) => Option<int>.None);
  }

  /** What the reader takes is what fits. */
  lemma FittingIs(lines: seq<seq<Byte>>, taken: nat, maxBytes: nat, maxRecords: nat)
    requires taken <= |lines| && forall m | 0 <= m < taken :: !Refused(lines, m, 0, 0, maxBytes, maxRecords)
    requires taken < |lines| ==> Refused(lines, taken, 0, 0, maxBytes, maxRecords)
    ensures Fitting(lines, |lines|, maxBytes, maxRecords) == taken
  {
    hide Refused, Fitting;
  }

  function Nothing<R>(): Progress<R> {
    Progress([], 0, 0, 0)
  }

  lemma NoSources<R>(sources: seq<Source>, parse: seq<Byte> -> Option<R>)
    ensures AllLines(sources[..0]) == [] && AllBytes(sources[..0]) == 0 && CountReadable(sources[..0]) == 0
    ensures Took(Nothing(), Nothing(), AllLines(sources[..0]), 0, parse)
  {
  }

  /** A file read after other files: the lines taken add up. */
  lemma FileTaken<R>(start: Progress<R>, end: Progress<R>, done: seq<seq<Byte>>, lines: seq<seq<Byte>>, more: nat,
                     all: seq<seq<Byte>>, parse: seq<Byte> -> Option<R>)
    requires Took(Nothing(), start, done, |done|, parse) && Took(start, end, lines, more, parse)
    requires done + lines <= all
    ensures Took(Nothing(), end, done + lines, |done| + more, parse) && Took(Nothing(), end, all, |done| + more, parse)
  {
    hide Records, Rejects, Attempts;
    Concatenated(done, lines[..more], parse);
    assert done[..|done|] == done;
    assert (done + lines)[..|done| + more] == done + lines[..more];
    assert all[..|done| + more] == done + lines[..more];
  }

  lemma TookMeans<R>(end: Progress<R>, lines: seq<seq<Byte>>, m: nat, parse: seq<Byte> -> Option<R>)
    requires Took(Nothing(), end, lines, m, parse)
    ensures m <= |lines| && end.records == Records(lines[..m], parse) && end.rejected == Rejects(lines[..m], parse)
    ensures end.attempts == Attempts(lines[..m])
  {
  }

  /** The files that are read at all. */
  function Considered(found: seq<Source>): seq<Source> {
    if |found| > MAX_FILES then found[..MAX_FILES] else found
  }

  /** No line of these files goes past the byte limit or comes after the last record allowed. */
  ghost predicate NoneRefused(sources: seq<Source>, maxBytes: nat, maxRecords: nat) {
    forall m | 0 <= m < |AllLines(sources)| :: !Refused(AllLines(sources), m, 0, 0, maxBytes, maxRecords)
  }

  /** Then all lines are taken. */
  lemma NoneRefusedFits(sources: seq<Source>, maxBytes: nat, maxRecords: nat)
    ensures var lines := AllLines(sources);
            NoneRefused(sources, maxBytes, maxRecords) <==> Fitting(lines, |lines|, maxBytes, maxRecords) == |lines|
    ensures AllLines(sources)[..|AllLines(sources)|] == AllLines(sources)
    ensures sources[..|sources|] == sources
  {
    hide AllLines, Refused, Fitting;
  }

  /** Reads the files in order until a line is refused. `reached` files were begun. */
  method ReadJournal<R>(found: seq<Source>, parse: seq<Byte> -> Option<R>, maxBytes: nat, maxRecords: nat)
    returns (records: seq<R>, quality: Quality, ghost reached: nat)
    ensures var lines := AllLines(Considered(found));
            var fitting := Fitting(lines, |lines|, maxBytes, maxRecords);
            && records == Records(lines[..fitting], parse) && quality.rejected == Rejects(lines[..fitting], parse)
            && quality.limitsReached == (if |found| > MAX_FILES then 1 else 0) + (if fitting < |lines| then 1 else 0)
            && (if fitting < |lines| then StopsAt(lines, fitting, 0, 0, maxBytes, maxRecords, quality.bytesRead)
                else quality.bytesRead == AllBytes(Considered(found)))
    ensures |found| <= 64 && NoneRefused(found, maxBytes, maxRecords) ==>
              && records == Records(AllLines(found), parse) && quality.rejected == Rejects(AllLines(found), parse)
              && quality.bytesRead == AllBytes(found) && quality.limitsReached == 0
              && quality.filesRead + quality.readErrors == |found| && quality.filesRead == CountReadable(found)
    ensures |found| > 64 && NoneRefused(found[..64], maxBytes, maxRecords) ==>
              && records == Records(AllLines(found[..64]), parse) && quality.rejected == Rejects(AllLines(found[..64]), parse)
              && quality.bytesRead == AllBytes(found[..64]) && quality.limitsReached == 1
              && quality.filesRead + quality.readErrors == 64 && quality.filesRead == CountReadable(found[..64])
    ensures reached <= |Considered(found)|
    ensures quality.filesRead == CountReadable(Considered(found)[..reached]) && quality.readErrors == reached - quality.filesRead
    ensures var lines := AllLines(Considered(found));
            var fitting := Fitting(lines, |lines|, maxBytes, maxRecords);
            if fitting == |lines| then reached == |Considered(found)|
            else reached > 0 && |AllLines(Considered(found)[..reached - 1])| <= fitting < |AllLines(Considered(found)[..reached])|
  {
    hide Lines, Attempts, Records, Rejects, AllLines, AllBytes, CountReadable, Took, Joined, Refused, StopsAt, Fitting, NoneRefused;
    var sources := Considered(found);
    NoneRefusedFits(sources, maxBytes, maxRecords);
    var limits := if |found| > MAX_FILES then 1 else 0;
    var progress: Progress<R> := Nothing();
    var filesRead: nat, readErrors: nat := 0, 0;
    ghost var lines := AllLines(sources);
    ghost var taken: nat := 0;
    NoSources(sources, parse);
    var i: nat := 0;
    while i < |sources|
      invariant i <= |sources| && taken == |AllLines(sources[..i])| <= |lines|
      invariant progress.bytesRead == AllBytes(sources[..i]) <= maxBytes && filesRead == CountReadable(sources[..i])
      invariant filesRead + readErrors == i
      invariant Took(Nothing(), progress, AllLines(sources[..i]), taken, parse)
      invariant forall m | 0 <= m < taken :: !Refused(lines, m, 0, 0, maxBytes, maxRecords)
    {
      NextSource(sources, i);
      SourcesGrow(sources, i);
      SourcesGrow(sources, i + 1);
      AllJoined(sources[..i]);
      ghost var done := AllLines(sources[..i]);
      TookMeans(progress, done, taken, parse);
      assert done[..taken] == done;
      if sources[i].Unreadable? {
        assert AllLines(sources[..i + 1]) == done;
        readErrors := readErrors + 1;
      } else {
        filesRead := filesRead + 1;
        var data := sources[i].data;
        var end, stopped, more := ReadFile(data, parse, progress, maxBytes, maxRecords);
        FileTaken(progress, end, done, Lines(data), more, lines, parse);
        StillFits(lines, done, Lines(data), more, maxBytes, maxRecords);
        if stopped {
          RefusedShift(lines, done, Lines(data), more, maxBytes, maxRecords);
          taken := taken + more;
          TookMeans(end, lines, taken, parse);
          FittingIs(lines, taken, maxBytes, maxRecords);
          return end.records, Quality(filesRead, end.bytesRead, end.rejected, readErrors, limits + 1), i + 1;
        }
        AllJoined(sources[..i + 1]);
        progress, taken := end, taken + more;
      }
      i := i + 1;
    }
    assert sources[..i] == sources && lines[..taken] == lines;
    TookMeans(progress, lines, taken, parse);
    FittingIs(lines, taken, maxBytes, maxRecords);
    return progress.records, Quality(filesRead, progress.bytesRead, progress.rejected, readErrors, limits), i;
  }

  /** Lines taken from one more file are taken of the journal. */
  lemma StillFits(all: seq<seq<Byte>>, done: seq<seq<Byte>>, lines: seq<seq<Byte>>, more: nat, maxBytes: nat, maxRecords: nat)
    requires more <= |lines| && done + lines <= all
    requires forall m | 0 <= m < |done| :: !Refused(all, m, 0, 0, maxBytes, maxRecords)
    requires forall m | 0 <= m < more :: !Refused(lines, m, |Joined(done)|, Attempts(done), maxBytes, maxRecords)
    ensures forall m | 0 <= m < |done| + more :: !Refused(all, m, 0, 0, maxBytes, maxRecords)
  {
    hide Refused;
    forall m | |done| <= m < |done| + more ensures !Refused(all, m, 0, 0, maxBytes, maxRecords) {
      RefusedShift(all, done, lines, m - |done|, maxBytes, maxRecords);
    }
  }

  /** Reading fewer lines yields a prefix of the records, and no more rejections. */
  lemma {:induction false} FewerLinesFewerRecords<R>(lines: seq<seq<Byte>>, m: nat, parse: seq<Byte> -> Option<R>)
    requires m <= |lines|
    ensures Records(lines[..m], parse) <= Records(lines, parse) && Rejects(lines[..m], parse) <= Rejects(lines, parse)
    ensures |Records(lines, parse)| + Rejects(lines, parse) == |lines|
  {
    assert lines == lines[..m] + lines[m..];
    Concatenated(lines[..m], lines[m..], parse);
    EveryLineCountsOnce(lines, parse);
  }

  /** Every physical line is either parsed or rejected, exactly once. */
  lemma {:induction false} EveryLineCountsOnce<R>(lines: seq<seq<Byte>>, parse: seq<Byte> -> Option<R>)
    ensures |Records(lines, parse)| + Rejects(lines, parse) == |lines|
  {
    if lines == [] {
    } else {
      EveryLineCountsOnce(lines[..|lines| - 1], parse);
    }
  }
}
