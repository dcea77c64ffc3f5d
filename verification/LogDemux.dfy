/** Docker's multiplexed log stream: frames behind 8-byte headers, cut down to the last lines while reading. */
module LogDemux {
  import opened Common
  import opened Splitting

  type Byte = b: int | 0 <= b < 256

  datatype Stream = Stdout | Stderr

  datatype LogLine = LogLine(stream: Stream, line: seq<Byte>)

  /** Reading failed: the stream broke off in a frame or with an error of its own. */
  datatype ReadError = ReadError

  const NEWLINE: Byte := 10
  const HEADER := 8
  const MAX_FRAME := 0x100_0000

  // ---------------------------------------------------------------------------
  // Lines
  // ---------------------------------------------------------------------------

  function Tagged(stream: Stream, pieces: seq<seq<Byte>>): seq<LogLine> {
    if pieces == [] then []
    else (if pieces[0] == [] then [] else [LogLine(stream, pieces[0])]) + Tagged(stream, pieces[1..])
  }

  lemma TaggedMore(stream: Stream, pieces: seq<seq<Byte>>)
    requires pieces != []
    ensures Tagged(stream, pieces) == (if pieces[0] == [] then [] else [LogLine(stream, pieces[0])]) + Tagged(stream, pieces[1..])
  {
  }

  lemma {:induction false} TaggedAppend(stream: Stream, pieces: seq<seq<Byte>>, piece: seq<Byte>)
    ensures Tagged(stream, pieces + [piece]) == Tagged(stream, pieces) + if piece == [] then [] else [LogLine(stream, piece)]
  {
    if pieces == [] {
      assert pieces + [piece] == [piece] && [piece][1..] == [];
    } else {
      var all, rest := pieces + [piece], pieces[1..];
      assert all[0] == pieces[0] && all[1..] == rest + [piece];
      TaggedAppend(stream, rest, piece);
      TaggedMore(stream, all);
      TaggedMore(stream, pieces);
      hide Tagged;
    }
  }

  /** The non-empty lines of a text, tagged with their stream. */
  function Lines(stream: Stream, s: seq<Byte>): seq<LogLine> {
    Tagged(stream, Split(s, NEWLINE))
  }

  method SplitLines(stream: Stream, s: seq<Byte>) returns (out: seq<LogLine>)
    ensures out == Lines(stream, s)
  {
    out := [];
    var pieces := Split(s, NEWLINE);
    for i := 0 to |pieces|
      invariant out == Tagged(stream, pieces[..i])
    {
      assert pieces[..i + 1] == pieces[..i] + [pieces[i]];
      TaggedAppend(stream, pieces[..i], pieces[i]);
      if pieces[i] != [] {
        out := out + [LogLine(stream, pieces[i])];
      }
    }
    assert pieces[..|pieces|] == pieces;
  }

  // ---------------------------------------------------------------------------
  // The loop
  // ---------------------------------------------------------------------------

  function Number(a: int, b: int, c: int, d: int): int {
    a * 0x100_0000 + b * 0x1_0000 + c * 0x100 + d
  }

  function SizeOf(h: seq<Byte>): int
    requires |h| >= HEADER
  {
    Number(h[4], h[5], h[6], h[7])
  }

  predicate Admitted(size: int) {
    1 <= size <= MAX_FRAME
  }

  function StreamOf(kind: Byte): Stream {
    if kind == 2 then Stderr else Stdout
  }

  function Last<T>(n: nat, s: seq<T>): seq<T> {
    if |s| > n then s[|s| - n..] else s
  }

  /** All lines of the stream, nothing cut: up to its end, or to the first frame of size zero or over the limit.
      `clean` says that the bytes end with EOF and not with another error. */
  function Collected(bytes: seq<Byte>, clean: bool): Result<seq<LogLine>, ReadError>
    decreases |bytes|
  {
    if |bytes| < HEADER then
      if bytes == [] && clean then Ok([]) else Err(ReadError)
    else
      var size := SizeOf(bytes);
      if !Admitted(size) then Ok([])
      else if |bytes| < HEADER + size then Err(ReadError)
      else
        Before(Lines(StreamOf(bytes[0]), bytes[HEADER..HEADER + size]), Collected(bytes[HEADER + size..], clean))
  }

  /** Lines already read go before the ones still to be read. */
  function Before(seen: seq<LogLine>, r: Result<seq<LogLine>, ReadError>): Result<seq<LogLine>, ReadError> {
    match r case Err(e) => Err(e) case Ok(lines) => Ok(seen + lines)
  }

  lemma BeforeBefore(a: seq<LogLine>, b: seq<LogLine>, r: Result<seq<LogLine>, ReadError>)
    ensures Before(a, Before(b, r)) == Before(a + b, r)
    ensures Before([], r) == r
  {
    if r.Ok? {
      assert a + (b + r.value) == a + b + r.value;
      assert [] + r.value == r.value;
    }
  }

  /** Cutting early loses nothing that a cut at the end would keep. */
  lemma CutEarly<T>(n: nat, a: seq<T>, b: seq<T>)
    ensures Last(n, Last(n, a) + b) == Last(n, a + b)
  {
  }

  lemma LastIs<T>(n: nat, s: seq<T>)
    ensures Last(n, s) == if |s| > n then s[|s| - n..] else s
  {
  }

  /** Reads frame by frame and keeps at most `tail` lines at any time. */
  method DemuxLines(bytes: seq<Byte>, clean: bool, tail: nat) returns (r: Result<seq<LogLine>, ReadError>)
    ensures r == match Collected(bytes, clean) case Err(e) => Err(e) case Ok(lines) => Ok(Last(tail, lines))
  {
    hide Lines, SizeOf, Last;
    var all: seq<LogLine> := [];
    var rest := bytes;
    ghost var seen: seq<LogLine> := [];
    LastIs(tail, all);
    BeforeBefore([], [], Collected(bytes, clean));
    while true
      invariant all == Last(tail, seen)
      invariant Collected(bytes, clean) == Before(seen, Collected(rest, clean))
      decreases |rest|
    {
      if |rest| < HEADER {
        if rest == [] && clean {
          break;
        }
        return Err(ReadError);
      }
      var size := SizeOf(rest);
      if size <= 0 || size > MAX_FRAME {
        break;
      }
      if |rest| < HEADER + size {
        return Err(ReadError);
      }
      var stream := if rest[0] == 2 then Stderr else Stdout;
      var lines := SplitLines(stream, rest[HEADER..HEADER + size]);
      all := all + lines;
      CutEarly(tail, seen, lines);
      LastIs(tail, all);
      if |all| > tail {
        all := all[|all| - tail..];
      }
      BeforeBefore(seen, lines, Collected(rest[HEADER + size..], clean));
      seen := seen + lines;
      rest := rest[HEADER + size..];
    }
    assert seen + [] == seen;
    r := Ok(all);
  }

  // ---------------------------------------------------------------------------
  // What was written
  // ---------------------------------------------------------------------------

  datatype Frame = Frame(kind: Byte, pad: seq<Byte>, payload: seq<Byte>)

  predicate ValidFrame(f: Frame) {
    |f.pad| == 3 && Admitted(|f.payload|)
  }

  ghost predicate ValidFrames(fs: seq<Frame>) {
    forall i :: 0 <= i < |fs| ==> ValidFrame(fs[i])
  }

  function BigEndian(n: nat): seq<Byte>
    requires n < 0x1_0000_0000
  {
    [n / 0x100_0000, n / 0x1_0000 % 0x100, n / 0x100 % 0x100, n % 0x100]
  }

  function Encode(f: Frame): seq<Byte>
    requires ValidFrame(f)
  {
    [f.kind] + f.pad + BigEndian(|f.payload|) + f.payload
  }

  ghost function EncodeAll(fs: seq<Frame>): seq<Byte>
    requires ValidFrames(fs)
  {
    if fs == [] then [] else Encode(fs[0]) + EncodeAll(fs[1..])
  }

  ghost function LinesOf(fs: seq<Frame>): seq<LogLine> {
    if fs == [] then [] else Lines(StreamOf(fs[0].kind), fs[0].payload) + LinesOf(fs[1..])
  }

  lemma NumberOf(n: nat)
    requires n < 0x1_0000_0000
    ensures var b := BigEndian(n); Number(b[0], b[1], b[2], b[3]) == n
  {
    var q := n / 0x100;
    var p := q / 0x100;
    var o := p / 0x100;
    assert n / 0x1_0000 == p && n / 0x100_0000 == o;
    var b := BigEndian(n);
    assert b[3] == n - 0x100 * q && b[2] == q - 0x100 * p && b[1] == p - 0x100 * o && b[0] == o;
  }

  lemma EncodeParses(f: Frame, rest: seq<Byte>)
    requires ValidFrame(f)
    ensures var bytes := Encode(f) + rest; var size := |f.payload|;
      && |bytes| >= HEADER + size && SizeOf(bytes) == size && bytes[0] == f.kind
      && bytes[HEADER..HEADER + size] == f.payload && bytes[HEADER + size..] == rest
  {
    var n := |f.payload|;
    var b := BigEndian(n);
    NumberOf(n);
    var e := Encode(f);
    assert e[4] == b[0] && e[5] == b[1] && e[6] == b[2] && e[7] == b[3];
  }

  lemma ReadsFrame(f: Frame, rest: seq<Byte>, clean: bool)
    requires ValidFrame(f)
    ensures Collected(Encode(f) + rest, clean) == Before(Lines(StreamOf(f.kind), f.payload), Collected(rest, clean))
  {
    hide Lines, Encode, SizeOf;
    EncodeParses(f, rest);
  }

  /** Reading what was written gives the lines of all frames, then whatever follows them. */
  lemma {:induction false} ReadsFrames(fs: seq<Frame>, rest: seq<Byte>, clean: bool)
    requires ValidFrames(fs)
    ensures Collected(EncodeAll(fs) + rest, clean) == Before(LinesOf(fs), Collected(rest, clean))
  {
    if fs == [] {
      assert EncodeAll(fs) + rest == rest;
      BeforeBefore([], [], Collected(rest, clean));
    } else {
      var tail := EncodeAll(fs[1..]) + rest;
      hide Lines, Encode, SizeOf;
      assert EncodeAll(fs) + rest == Encode(fs[0]) + tail;
      ReadsFrames(fs[1..], rest, clean);
      ReadsFrame(fs[0], tail, clean);
      BeforeBefore(Lines(StreamOf(fs[0].kind), fs[0].payload), LinesOf(fs[1..]), Collected(rest, clean));
    }
  }

  /** For any list of frames of 1 byte to 16 MiB: the answer is the last `tail` lines of all frames, in order. */
  lemma DemuxOfEncoded(fs: seq<Frame>)
    requires ValidFrames(fs)
    ensures Collected(EncodeAll(fs), true) == Ok(LinesOf(fs))
    ensures Collected(EncodeAll(fs), false).Err?
  {
    assert EncodeAll(fs) + [] == EncodeAll(fs);
    assert LinesOf(fs) + [] == LinesOf(fs);
    ReadsFrames(fs, [], true);
    ReadsFrames(fs, [], false);
  }

  /** A frame with a size outside the limits. */
  predicate BadFrame(rest: seq<Byte>) {
    |rest| >= HEADER && !Admitted(SizeOf(rest))
  }

  /** No further frame can be read. */
  predicate Stuck(rest: seq<Byte>) {
    |rest| < HEADER || BadFrame(rest) || |rest| < HEADER + SizeOf(rest)
  }

  lemma {:induction false} HeadFrame(bytes: seq<Byte>) returns (f: Frame)
    requires !Stuck(bytes)
    ensures ValidFrame(f) && bytes == Encode(f) + bytes[HEADER + SizeOf(bytes)..]
    ensures f.kind == bytes[0] && f.payload == bytes[HEADER..HEADER + SizeOf(bytes)]
  {
    var size := SizeOf(bytes);
    f := Frame(bytes[0], bytes[1..4], bytes[HEADER..HEADER + size]);
    BigEndianOf(bytes[4], bytes[5], bytes[6], bytes[7]);
    assert bytes[..HEADER] == [f.kind] + f.pad + BigEndian(size);
    assert bytes == bytes[..HEADER] + bytes[HEADER..HEADER + size] + bytes[HEADER + size..];
  }

  lemma Digits(a: int, b: int, c: int, d: int)
    requires 0 <= a < 0x100 && 0 <= b < 0x100 && 0 <= c < 0x100 && 0 <= d < 0x100
    ensures var n := Number(a, b, c, d);
      && 0 <= n < 0x1_0000_0000
      && n / 0x100_0000 == a && n / 0x1_0000 == a * 0x100 + b && n / 0x100 == a * 0x1_0000 + b * 0x100 + c && n % 0x100 == d
  {
  }

  lemma BigEndianOf(a: Byte, b: Byte, c: Byte, d: Byte)
    ensures 0 <= Number(a, b, c, d) < 0x1_0000_0000
    ensures BigEndian(Number(a, b, c, d)) == [a, b, c, d]
  {
    hide Number;
    Digits(a, b, c, d);
  }

  /** Every byte stream is a list of frames and a rest from which no frame can be read. */
  lemma {:induction false} Decompose(bytes: seq<Byte>) returns (fs: seq<Frame>, rest: seq<Byte>)
    ensures ValidFrames(fs) && Stuck(rest) && bytes == EncodeAll(fs) + rest
    decreases |bytes|
  {
    if Stuck(bytes) {
      fs, rest := [], bytes;
      assert [] + bytes == bytes;
    } else {
      var f := HeadFrame(bytes);
      fs, rest := Decompose(bytes[HEADER + SizeOf(bytes)..]);
      assert Encode(f) + (EncodeAll(fs) + rest) == (Encode(f) + EncodeAll(fs)) + rest;
      fs := [f] + fs;
      assert fs[1..] == fs[1..];
    }
  }

  /** The outcome of reading any bytes: it fails exactly when they break off inside a frame or end uncleanly; a
      frame of a bad size ends the reading early, dropping everything behind it, with no error. */
  lemma DemuxIff(bytes: seq<Byte>, clean: bool, fs: seq<Frame>, rest: seq<Byte>)
    requires ValidFrames(fs) && Stuck(rest) && bytes == EncodeAll(fs) + rest
    ensures Collected(bytes, clean).Ok? <==> BadFrame(rest) || (rest == [] && clean)
    ensures Collected(bytes, clean).Ok? ==> Collected(bytes, clean).value == LinesOf(fs)
  {
    ReadsFrames(fs, rest, clean);
    assert LinesOf(fs) + [] == LinesOf(fs);
  }

  /** Bytes behind a frame of a bad size are never read. */
  lemma BadFrameHidesRest(fs: seq<Frame>, bad: seq<Byte>, more: seq<Byte>, clean: bool)
    requires ValidFrames(fs) && BadFrame(bad)
    ensures Collected(EncodeAll(fs) + bad + more, clean) == Ok(LinesOf(fs))
  {
    assert EncodeAll(fs) + bad + more == EncodeAll(fs) + (bad + more);
    ReadsFrames(fs, bad + more, clean);
    assert LinesOf(fs) + [] == LinesOf(fs);
  }

  // ---------------------------------------------------------------------------
  // In bytes
  // ---------------------------------------------------------------------------

  /** A text without a line feed is one line unless it is empty, and texts on both sides of one give their lines one after
      the other. */
  lemma LinesAre(stream: Stream, a: seq<Byte>, b: seq<Byte>)
    requires 10 !in a
    ensures Lines(stream, a) == if a == [] then [] else [LogLine(stream, a)]
    ensures Lines(stream, a + [10] + b) == Lines(stream, a) + Lines(stream, b)
  {
    SplitPlain(a, NEWLINE);
    SplitConcat(a, NEWLINE, b);
    var rest := Split(b, NEWLINE);
    var all := [a] + rest;
    assert all[0] == a && all[1..] == rest && [a][1..] == [];
    TaggedMore(stream, [a]);
    TaggedMore(stream, all);
    assert Tagged(stream, []) == [];
  }

  /** One frame in front of anything: its stream in the first byte, its length in four bytes, the highest first. A length of
      zero or over 16 MiB ends the reading; bytes that break off fail it. */
  lemma ReadsBytes(kind: Byte, x: Byte, y: Byte, z: Byte, a: Byte, b: Byte, c: Byte, d: Byte, rest: seq<Byte>, clean: bool)
    ensures var size := 16777216 * a + 65536 * b + 256 * c + d;
      var r := Collected([kind, x, y, z, a, b, c, d] + rest, clean);
      && (size < 1 || size > 16777216 ==> r == Ok([]))
      && (1 <= size <= 16777216 && |rest| < size ==> r == Err(ReadError))
      && (1 <= size <= 16777216 && |rest| >= size ==>
            var behind := Collected(rest[size..], clean);
            var lines := Lines(if kind == 2 then Stderr else Stdout, rest[..size]);
            (behind.Err? ==> r.Err?) && (behind.Ok? ==> r == Ok(lines + behind.value)))
  {
    var size := 16777216 * a + 65536 * b + 256 * c + d;
    var bytes := [kind, x, y, z, a, b, c, d] + rest;
    assert bytes[0] == kind && SizeOf(bytes) == size;
    if 1 <= size <= 16777216 && |rest| >= size {
      assert bytes[8..8 + size] == rest[..size] && bytes[8 + size..] == rest[size..];
    }
  }

  /** Fewer than eight bytes are the clean end or a failure. */
  lemma ReadsEnd(bytes: seq<Byte>, clean: bool)
    requires |bytes| < 8
    ensures Collected(bytes, clean) == if bytes == [] && clean then Ok([]) else Err(ReadError)
  {
  }
}
