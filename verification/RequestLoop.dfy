/** The CPI's request loop (src/pve_cpi/cmd/cpi/main.go): a line scanner, an abstract
    dispatcher, a buffered writer with a panic backstop, and signals. */
module RequestLoop {
  import opened Text

  newtype byte = x: int | 0 <= x < 256

  type bytes = seq<byte>

  /** The size of bufio.NewWriter's buffer. */
  const SIZE := 4096

  datatype Request = Request(rpcMethod: string, requestId: string)

  /** What dispatching one request does. A panic comes after some bytes have been
      handed to the buffered writer, in the chunks given. */
  datatype Handling =
    | Responds(response: bytes)
    | EncodeFails
    | Panics(chunks: seq<bytes>, reason: string)

  /** The parts of the program the loop is built on: bytes.TrimSpace, the request
      decoder, the dispatcher (which may answer equal requests differently, so it
      is given the number of the line) and the encoding of a CloudError. */
  datatype Cpi = Cpi(
    trim: bytes -> bytes,
    decode: bytes -> Result<Request, string>,
    handle: (nat, Request) -> Handling,
    cloudError: string -> bytes)

  datatype Ending = Eof | ScanError(why: string)

  /** What the scanner delivers: lines, and how it stops. */
  datatype Input = Input(lines: seq<bytes>, ending: Ending)

  datatype Outcome = Finished | Signaled | Failed

  // ------------------------------------------------------ buffered writing

  /** The bytes that have reached the writer, and the ones still in the buffer. */
  datatype Buffered = Buffered(out: bytes, buf: bytes)

  /** Writing p through a buffer of SIZE bytes. */
  function Push(b: Buffered, p: bytes): (r: Buffered)
    requires |b.buf| <= SIZE
    ensures |r.buf| <= SIZE && r.out + r.buf == b.out + b.buf + p
    ensures |b.buf| + |p| <= SIZE ==> r.out == b.out
    ensures |b.buf| + |p| > SIZE ==> |r.out| > |b.out|
    decreases |p|, |b.buf|
  {
    if |p| <= SIZE - |b.buf| then Buffered(b.out, b.buf + p)
    else if b.buf == [] then Buffered(b.out + p, [])
    else
      var n := SIZE - |b.buf|;
      Push(Buffered(b.out + (b.buf + p[..n]), []), p[n..])
  }

  function PushAll(b: Buffered, chunks: seq<bytes>): (r: Buffered)
    requires |b.buf| <= SIZE
    ensures |r.buf| <= SIZE
    decreases |chunks|
  {
    if chunks == [] then b else PushAll(Push(b, chunks[0]), chunks[1..])
  }

  function Total(chunks: seq<bytes>): nat { if chunks == [] then 0 else |chunks[0]| + Total(chunks[1..]) }

  /** What reaches the writer before a panic discards the buffer. */
  function Leaked(chunks: seq<bytes>): bytes { PushAll(Buffered([], []), chunks).out }

  /** A longer start only puts its own bytes in front. */
  lemma {:induction false} PushFrom(out: bytes, buf: bytes, p: bytes)
    requires |buf| <= SIZE
    ensures Push(Buffered(out, buf), p) == Buffered(out + Push(Buffered([], buf), p).out, Push(Buffered([], buf), p).buf)
    decreases |p|, |buf|
  {
    if |p| > SIZE - |buf| && buf != [] {
      var n := SIZE - |buf|;
      var head := buf + p[..n];
      PushFrom(out + head, [], p[n..]);
      PushFrom([] + head, [], p[n..]);
      assert [] + head == head;
      assert out + head + Push(Buffered([], []), p[n..]).out == out + (head + Push(Buffered([], []), p[n..]).out);
    }
  }

  lemma {:induction false} PushAllFrom(out: bytes, buf: bytes, chunks: seq<bytes>)
    requires |buf| <= SIZE
    ensures PushAll(Buffered(out, buf), chunks).out == out + PushAll(Buffered([], buf), chunks).out
    decreases |chunks|
  {
    if chunks == [] {
    } else {
      PushFrom(out, buf, chunks[0]);
      var b := Push(Buffered([], buf), chunks[0]);
      PushAllFrom(out + b.out, b.buf, chunks[1..]);
      PushAllFrom(b.out, b.buf, chunks[1..]);
      hide Push;
      hide PushAll;
      var tail := PushAll(Buffered([], b.buf), chunks[1..]).out;
      assert out + b.out + tail == out + (b.out + tail);
      assert Buffered(b.out, b.buf) == b;
    }
  }

  lemma {:induction false} PushAllGrows(b: Buffered, chunks: seq<bytes>)
    requires |b.buf| <= SIZE
    ensures |b.buf| + Total(chunks) <= SIZE ==> PushAll(b, chunks).out == b.out
    ensures |b.buf| + Total(chunks) > SIZE ==> |PushAll(b, chunks).out| > |b.out|
    ensures |PushAll(b, chunks).out| >= |b.out|
    decreases |chunks|
  {
    if chunks == [] {
    } else {
      var next := Push(b, chunks[0]);
      assert |next.out| + |next.buf| == |b.out| + |b.buf| + |chunks[0]|;
      PushAllGrows(next, chunks[1..]);
    }
  }

  /** Nothing has left the buffer exactly when no more than SIZE bytes were written. */
  lemma LeakedIff(chunks: seq<bytes>)
    ensures Leaked(chunks) == [] <==> Total(chunks) <= SIZE
  {
    PushAllGrows(Buffered([], []), chunks);
    hide PushAll;
  }

  // -------------------------------------------------------------- the answers

  function PanicMessage(req: Request, reason: string): string {
    "panic in " + req.rpcMethod + " [request_id=" + req.requestId + "]: " + reason
  }

  /** How a line that is not blank is handled. */
  function HandlingOf(c: Cpi, i: nat, line: bytes): Result<Handling, string> {
    match c.decode(c.trim(line))
    case Err(why) => Err(why)
    case Ok(req) => Ok(c.handle(i, req))
  }

  predicate Blank(c: Cpi, line: bytes) { c.trim(line) == [] }

  /** The encoder fails on this line's response. */
  predicate Unanswerable(c: Cpi, i: nat, line: bytes) { !Blank(c, line) && HandlingOf(c, i, line) == Ok(EncodeFails) }

  /** What one line puts on the writer. */
  function Answer(c: Cpi, i: nat, line: bytes): bytes {
    if Blank(c, line) then []
    else
      match c.decode(c.trim(line))
      case Err(why) => c.cloudError("request decode failed: " + why)
      case Ok(req) =>
        match c.handle(i, req)
        case Responds(response) => response
        case EncodeFails => []
        case Panics(chunks, reason) => Leaked(chunks) + c.cloudError(PanicMessage(req, reason))
  }

  /** What the first n lines put on the writer. */
  function Answers(c: Cpi, lines: seq<bytes>, n: nat): bytes
    requires n <= |lines|
  {
    if n == 0 then [] else Answers(c, lines, n - 1) + Answer(c, n - 1, lines[n - 1])
  }

  /** The one response of a line: its own, or a CloudError. */
  predicate IsResponse(c: Cpi, i: nat, line: bytes, r: bytes) {
    match c.decode(c.trim(line))
    case Err(why) => r == c.cloudError("request decode failed: " + why)
    case Ok(req) =>
      match c.handle(i, req)
      case Responds(response) => r == response
      case EncodeFails => false
      case Panics(_, reason) => r == c.cloudError(PanicMessage(req, reason))
  }

  /** The line's panic, if it has one, comes before any byte is flushed. */
  predicate CleanPanic(c: Cpi, i: nat, line: bytes) {
    var h := HandlingOf(c, i, line);
    h.Ok? && h.value.Panics? ==> Total(h.value.chunks) <= SIZE
  }

  /** Exactly one whole response for a line, unless its response cannot be encoded;
      for a panic, exactly when no more than SIZE bytes were written before it. */
  lemma OneResponse(c: Cpi, i: nat, line: bytes)
    requires !Blank(c, line)
    ensures IsResponse(c, i, line, Answer(c, i, line)) <==> !Unanswerable(c, i, line) && CleanPanic(c, i, line)
  {
    var h := HandlingOf(c, i, line);
    if h.Ok? && h.value.Panics? {
      LeakedIff(h.value.chunks);
      var req := c.decode(c.trim(line)).value;
      assert |Answer(c, i, line)| == |Leaked(h.value.chunks)| + |c.cloudError(PanicMessage(req, h.value.reason))|;
      if Leaked(h.value.chunks) == [] {
        assert Answer(c, i, line) == c.cloudError(PanicMessage(req, h.value.reason));
      }
    }
    hide Leaked;
    hide Total;
    hide PanicMessage;
  }

  /** The responses of the non-blank lines among the first n, in order. */
  ghost predicate OneEach(c: Cpi, lines: seq<bytes>, n: nat, responses: seq<bytes>)
    requires n <= |lines|
  {
    if n == 0 then responses == []
    else if Blank(c, lines[n - 1]) then OneEach(c, lines, n - 1, responses)
    else
      && responses != []
      && IsResponse(c, n - 1, lines[n - 1], responses[|responses| - 1])
      && OneEach(c, lines, n - 1, responses[..|responses| - 1])
  }

  /** Without unencodable responses and late panics the output of n lines is exactly
      one whole response per non-blank line, in order. */
  lemma {:induction false} OutputIsResponses(c: Cpi, lines: seq<bytes>, n: nat) returns (responses: seq<bytes>)
    requires n <= |lines|
    requires forall i | 0 <= i < n && !Blank(c, lines[i]) :: !Unanswerable(c, i, lines[i]) && CleanPanic(c, i, lines[i])
    ensures OneEach(c, lines, n, responses) && Answers(c, lines, n) == Flat(responses)
  {
    if n == 0 {
      responses := [];
    } else {
      var front := OutputIsResponses(c, lines, n - 1);
      if Blank(c, lines[n - 1]) {
        responses := front;
      } else {
        OneResponse(c, n - 1, lines[n - 1]);
        responses := front + [Answer(c, n - 1, lines[n - 1])];
        assert responses[..|responses| - 1] == front;
        hide Answer;
        hide IsResponse;
      }
    }
  }

  // ------------------------------------------- line by line, on their own terms

  /** What line i is answered with: nothing when it is blank, a CloudError when it is
      no request, its response, nothing when that cannot be encoded, and after a panic
      what had overflowed the buffer, followed by one CloudError. */
  ghost predicate IsPiece(c: Cpi, i: nat, line: bytes, piece: bytes) {
    if c.trim(line) == [] then piece == []
    else
      match c.decode(c.trim(line))
      case Err(why) => piece == c.cloudError("request decode failed: " + why)
      case Ok(req) =>
        match c.handle(i, req)
        case Responds(response) => piece == response
        case EncodeFails => piece == []
        case Panics(chunks, reason) =>
          exists lost: bytes :: Overflow(chunks, lost) && piece == lost
            + c.cloudError("panic in " + req.rpcMethod + " [request_id=" + req.requestId + "]: " + reason)
  }

  /** A first part of the bytes written: none when they all fit the buffer, and never
      more than a bufferful short of them all. */
  predicate Overflow(chunks: seq<bytes>, lost: bytes) {
    && lost <= Flat(chunks) && |Flat(chunks)| - |lost| <= 4096
    && (lost == [] <==> |Flat(chunks)| <= 4096)
  }

  /** The response of line i cannot be encoded. */
  predicate Stuck(c: Cpi, i: nat, line: bytes) {
    && c.trim(line) != [] && c.decode(c.trim(line)).Ok?
    && c.handle(i, c.decode(c.trim(line)).value).EncodeFails?
  }

  ghost predicate ArePieces(c: Cpi, lines: seq<bytes>, n: nat, pieces: seq<bytes>) {
    |pieces| == n <= |lines| && forall i | 0 <= i < n :: IsPiece(c, i, lines[i], pieces[i])
  }

  /** A loop that ends over a scan error says so once. */
  function LastWords(c: Cpi, input: Input, outcome: Outcome): bytes {
    if outcome == Finished && input.ending.ScanError? then c.cloudError("request read failed: " + input.ending.why) else []
  }

  lemma FlatSnoc(front: seq<bytes>, last: bytes)
    ensures Flat(front + [last]) == Flat(front) + last
  {
    assert (front + [last])[..|front|] == front;
  }

  lemma {:induction false} FlatHead(chunks: seq<bytes>)
    requires chunks != []
    ensures Flat(chunks) == chunks[0] + Flat(chunks[1..])
  {
    FlatConcat([chunks[0]], chunks[1..]);
    assert [chunks[0]] + chunks[1..] == chunks;
    assert [chunks[0]][..0] == [];
    assert Flat([chunks[0]]) == chunks[0];
  }

  lemma {:induction false} PushedFlat(b: Buffered, chunks: seq<bytes>)
    requires |b.buf| <= SIZE
    ensures var r := PushAll(b, chunks); r.out + r.buf == b.out + b.buf + Flat(chunks)
    ensures Total(chunks) == |Flat(chunks)|
    decreases |chunks|
  {
    if chunks == [] {
      assert b.out + b.buf + [] == b.out + b.buf;
    } else {
      var next := Push(b, chunks[0]);
      FlatHead(chunks);
      PushedFlat(next, chunks[1..]);
      assert b.out + b.buf + chunks[0] + Flat(chunks[1..]) == b.out + b.buf + (chunks[0] + Flat(chunks[1..]));
    }
  }

  lemma LeakedOverflows(chunks: seq<bytes>)
    ensures Overflow(chunks, Leaked(chunks))
  {
    var r := PushAll(Buffered([], []), chunks);
    PushedFlat(Buffered([], []), chunks);
    LeakedIff(chunks);
    hide PushAll;
    hide Flat;
    hide Total;
    assert r.out + r.buf == Flat(chunks);
  }

  lemma AnswerIsPiece(c: Cpi, i: nat, line: bytes)
    ensures IsPiece(c, i, line, Answer(c, i, line))
    ensures Unanswerable(c, i, line) <==> Stuck(c, i, line)
  {
    hide Leaked;
    hide Overflow;
    if !Blank(c, line) && c.decode(c.trim(line)).Ok? {
      var h := c.handle(i, c.decode(c.trim(line)).value);
      if h.Panics? { LeakedOverflows(h.chunks); }
    }
  }

  lemma {:induction false} AnswersArePieces(c: Cpi, lines: seq<bytes>, n: nat) returns (pieces: seq<bytes>)
    requires n <= |lines|
    ensures ArePieces(c, lines, n, pieces) && Answers(c, lines, n) == Flat(pieces)
  {
    hide IsPiece;
    hide Answer;
    if n == 0 {
      pieces := [];
    } else {
      var front := AnswersArePieces(c, lines, n - 1);
      AnswerIsPiece(c, n - 1, lines[n - 1]);
      var last := Answer(c, n - 1, lines[n - 1]);
      pieces := front + [last];
      FlatSnoc(front, last);
      hide Flat;
    }
  }

  predicate Dispatched(c: Cpi, line: bytes) { !Blank(c, line) && c.decode(c.trim(line)).Ok? }

  /** How often the context has been checked once n lines are served: before every
      line, and after every dispatched one. */
  function Checks(c: Cpi, lines: seq<bytes>, n: nat): (k: nat)
    requires n <= |lines|
    ensures k >= n
  {
    if n == 0 then 0 else Checks(c, lines, n - 1) + if Dispatched(c, lines[n - 1]) then 2 else 1
  }

  /** Where a run stops relative to the first check that finds the context done: at
      that check, which is the one before a line, the one after a dispatched line, or
      the one after a scan error; a run that ends otherwise ends before that check. */
  predicate StopsAt(c: Cpi, input: Input, signal: Option<nat>, outcome: Outcome, taken: nat)
    requires taken <= |input.lines|
  {
    var checks := Checks(c, input.lines, taken);
    match outcome
    case Signaled =>
      && signal.Some?
      && (|| signal.value == checks
          || (taken > 0 && Dispatched(c, input.lines[taken - 1]) && signal.value == checks - 1)
          || (taken == |input.lines| && input.ending.ScanError? && signal.value == checks + 1))
    case Finished => signal.Some? ==> signal.value > if input.ending.ScanError? then checks + 1 else checks
    case Failed => taken > 0 && (signal.Some? ==> signal.value > Checks(c, input.lines, taken - 1))
  }

  /** The checks of fewer lines are fewer. */
  lemma {:induction false} ChecksGrow(c: Cpi, lines: seq<bytes>, m: nat, n: nat)
    requires m < n <= |lines|
    ensures Checks(c, lines, m) < Checks(c, lines, n)
    ensures Dispatched(c, lines[n - 1]) ==> Checks(c, lines, m) + 1 < Checks(c, lines, n)
    decreases n
  {
    if m == n - 1 {
    } else {
      ChecksGrow(c, lines, m, n - 1);
    }
  }

  /** So the check determines how many lines a signaled run has taken. */
  lemma StopIsUnique(c: Cpi, input: Input, signal: Option<nat>, m: nat, n: nat)
    requires m <= |input.lines| && n <= |input.lines|
    requires StopsAt(c, input, signal, Signaled, m) && StopsAt(c, input, signal, Signaled, n)
    ensures m == n
  {
    if m < n {
      ChecksGrow(c, input.lines, m, n);
    } else if n < m {
      ChecksGrow(c, input.lines, n, m);
    }
  }

  lemma NextLine(c: Cpi, lines: seq<bytes>, n: nat)
    requires n < |lines|
    ensures Answers(c, lines, n + 1) == Answers(c, lines, n) + Answer(c, n, lines[n])
    ensures Checks(c, lines, n + 1) == Checks(c, lines, n) + if Dispatched(c, lines[n]) then 2 else 1
    ensures Unanswerable(c, n, lines[n]) ==> Dispatched(c, lines[n])
  {
  }

  // -------------------------------------------------------------- the program

  /** A bufio.Writer of SIZE bytes over a writer that takes every byte. */
  class Writer {
    var out: bytes
    var buf: bytes

    ghost function State(): Buffered
      reads this
    {
      Buffered(out, buf)
    }

    ghost predicate Valid()
      reads this
    {
      |buf| <= SIZE
    }

    constructor ()
      ensures Valid() && State() == Buffered([], [])
    {
      out, buf := [], [];
    }

    method Write(p: bytes)
      requires Valid()
      modifies this
      ensures Valid() && State() == Push(old(State()), p)
    {
      var rest := p;
      while |rest| > SIZE - |buf|
        invariant Valid()
        invariant Push(State(), rest) == Push(old(State()), p)
        decreases |rest|, |buf|
      {
        if buf == [] {
          out, rest := out + rest, [];
          assert buf + rest == [];
        } else {
          var n := SIZE - |buf|;
          buf, rest := buf + rest[..n], rest[n..];
          Flush();
        }
      }
      buf := buf + rest;
    }

    method Flush()
      modifies this
      ensures State() == Buffered(old(out) + old(buf), [])
    {
      out, buf := out + buf, [];
    }

    /** Reset against the same writer: the buffered bytes are gone. */
    method Reset()
      modifies this
      ensures State() == Buffered(old(out), [])
    {
      buf := [];
    }

    /** writeErrorResponse, and writeResponse when nothing goes wrong. */
    method WriteResponse(response: bytes)
      requires Valid() && buf == []
      modifies this
      ensures Valid() && State() == Buffered(old(out) + response, [])
    {
      Write(response);
      Flush();
    }

    /** dispatchOne: true when it returns an error. */
    method DispatchOne(c: Cpi, i: nat, req: Request) returns (failed: bool)
      requires Valid() && buf == []
      modifies this
      ensures Valid() && buf == []
      ensures failed <==> c.handle(i, req).EncodeFails?
      ensures out == old(out) +
        match c.handle(i, req)
        case Responds(response) => response
        case EncodeFails => []
        case Panics(chunks, reason) => Leaked(chunks) + c.cloudError(PanicMessage(req, reason))
    {
      failed := false;
      match c.handle(i, req)
      case Responds(response) =>
        WriteResponse(response);
      case EncodeFails =>
        failed := true;
      case Panics(chunks, reason) =>
        WriteChunks(chunks);
        Reset();
        WriteResponse(c.cloudError(PanicMessage(req, reason)));
    }

    /** The writes before a panic. */
    method WriteChunks(chunks: seq<bytes>)
      requires Valid() && buf == []
      modifies this
      ensures Valid() && out == old(out) + Leaked(chunks)
    {
      var k := 0;
      assert chunks[0..] == chunks;
      while k < |chunks|
        invariant 0 <= k <= |chunks| && Valid()
        invariant PushAll(State(), chunks[k..]) == PushAll(old(State()), chunks)
      {
        assert chunks[k..][1..] == chunks[k + 1..];
        Write(chunks[k]);
        k := k + 1;
      }
      PushAllFrom(old(out), [], chunks);
    }

    /** What the loop does with one line. */
    method ServeLine(c: Cpi, i: nat, line: bytes) returns (dispatched: bool, failed: bool)
      requires Valid() && buf == []
      modifies this
      ensures Valid() && buf == [] && out == old(out) + Answer(c, i, line)
      ensures failed <==> Unanswerable(c, i, line)
      ensures dispatched <==> Dispatched(c, line)
    {
      hide Leaked;
      hide PanicMessage;
      dispatched, failed := false, false;
      var trimmed := c.trim(line);
      if trimmed != [] {
        match c.decode(trimmed)
        case Err(why) =>
          WriteResponse(c.cloudError("request decode failed: " + why));
        case Ok(req) =>
          dispatched := true;
          failed := DispatchOne(c, i, req);
      }
    }

    /** runCPI. `signal` is the number of the first check of the context that finds
        it done; the checks are counted as they happen. `taken` is the number of
        lines the scanner delivered before the loop returned. */
    method RunCpi(c: Cpi, input: Input, signal: Option<nat>) returns (outcome: Outcome, taken: nat)
      requires Valid() && buf == []
      modifies this
      ensures taken <= |input.lines| && buf == []
      ensures outcome == Finished ==> taken == |input.lines|
      ensures out == old(out) + Answers(c, input.lines, taken) +
        if outcome == Finished && input.ending.ScanError?
        then c.cloudError("request read failed: " + input.ending.why) else []
      ensures forall i | 0 <= i < taken :: Unanswerable(c, i, input.lines[i]) ==> outcome == Failed && i == taken - 1
      ensures outcome == Failed ==> taken > 0 && Unanswerable(c, taken - 1, input.lines[taken - 1])
      ensures StopsAt(c, input, signal, outcome, taken)
    {
      hide Answer;
      hide Unanswerable;
      hide Dispatched;
      taken := 0;
      var checks := 0;
      assert Answers(c, input.lines, 0) == [] && Checks(c, input.lines, 0) == 0;
      hide Answers;
      hide Checks;
      while true
        invariant Valid() && buf == [] && taken <= |input.lines|
        invariant forall i | 0 <= i < taken :: !Unanswerable(c, i, input.lines[i])
        invariant out == old(out) + Answers(c, input.lines, taken)
        invariant checks == Checks(c, input.lines, taken) && (signal.Some? ==> signal.value >= checks)
        decreases |input.lines| - taken
      {
        if signal.Some? && signal.value <= checks {
          return Signaled, taken;
        }
        checks := checks + 1;
        if taken == |input.lines| {
          if input.ending.ScanError? {
            if signal.Some? && signal.value <= checks {
              return Signaled, taken;
            }
            WriteResponse(c.cloudError("request read failed: " + input.ending.why));
          }
          return Finished, taken;
        }
        NextLine(c, input.lines, taken);
        var dispatched, failed := ServeLine(c, taken, input.lines[taken]);
        taken := taken + 1;
        if failed {
          return Failed, taken;
        }
        if dispatched {
          if signal.Some? && signal.value <= checks {
            return Signaled, taken;
          }
          checks := checks + 1;
        }
      }
    }
  }

  // ------------------------------------------------------------ whole runs

  /** A whole run: what the writer holds when the loop returns. */
  method Serve(c: Cpi, input: Input, signal: Option<nat>) returns (outcome: Outcome, taken: nat, out: bytes)
    ensures taken <= |input.lines|
    ensures out == Answers(c, input.lines, taken) +
      if outcome == Finished && input.ending.ScanError?
      then c.cloudError("request read failed: " + input.ending.why) else []
    ensures StopsAt(c, input, signal, outcome, taken)
    ensures signal.None? ==>
      if exists i :: 0 <= i < |input.lines| && Unanswerable(c, i, input.lines[i])
      then outcome == Failed else outcome == Finished && taken == |input.lines|
    ensures exists pieces: seq<bytes> :: ArePieces(c, input.lines, taken, pieces) && out == Flat(pieces) + LastWords(c, input, outcome)
    ensures outcome == Failed <==> taken > 0 && Stuck(c, taken - 1, input.lines[taken - 1])
    ensures forall i | 0 <= i < taken - 1 :: !Stuck(c, i, input.lines[i])
    ensures outcome == Finished ==> taken == |input.lines|
  {
    hide Stuck;
    hide IsPiece;
    hide Unanswerable;
    hide Answers;
    hide Checks;
    var w := new Writer();
    outcome, taken := w.RunCpi(c, input, signal);
    out := w.out;
    ghost var pieces := AnswersArePieces(c, input.lines, taken);
    forall i | 0 <= i < |input.lines| ensures Unanswerable(c, i, input.lines[i]) <==> Stuck(c, i, input.lines[i]) {
      AnswerIsPiece(c, i, input.lines[i]);
    }
    assert [] + Answers(c, input.lines, taken) == Answers(c, input.lines, taken);
  }
}
