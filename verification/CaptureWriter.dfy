/** The response writer that captures token usage: a buffering state machine that must be
    invisible to the client. */
module CaptureWriter {
  import opened Values

  /** What reaches the outside: calls on the real response writer, and the call to RecordTokens. */
  datatype Effect =
    | Header(status: int)
    | Bytes(bytes: seq<byte>)
    | Flushed
    | Recorded(tokens: int)

  /** What a handler does with its response writer. */
  datatype Op =
    | SetContentType(value: string)
    | WriteHeader(status: int)
    | Write(bytes: seq<byte>)
    | Flush

  const STATUS_OK := 200

  /** The status the client sees: the first one wins, and writing or flushing implies 200. */
  function Status(trace: seq<Effect>): Option<int> {
    if trace == [] then None
    else Or(Status(trace[..|trace| - 1]), StatusOf(trace[|trace| - 1]))
  }

  function StatusOf(e: Effect): Option<int> {
    match e
    case Header(s) => Some(s)
    case Bytes(_) => Some(200)
    case Flushed => Some(200)
    case Recorded(_) => None
  }

  function Or(s: Option<int>, t: Option<int>): Option<int> {
    if s.Some? then s else t
  }

  /** The bytes the client sees: every write appends. */
  function Body(trace: seq<Effect>): seq<byte> {
    if trace == [] then []
    else Body(trace[..|trace| - 1]) + Payload(trace[|trace| - 1])
  }

  function Payload(e: Effect): seq<byte> {
    if e.Bytes? then e.bytes else []
  }

  /** The tokens recorded, in order. */
  function Recordings(trace: seq<Effect>): seq<int> {
    if trace == [] then []
    else Recordings(trace[..|trace| - 1]) + Recording(trace[|trace| - 1])
  }

  function Recording(e: Effect): seq<int> {
    if e.Recorded? then [e.tokens] else []
  }

  /** One call on an unwrapped writer. */
  function Forward(op: Op): seq<Effect> {
    match op
    case SetContentType(_) => []
    case WriteHeader(s) => [Header(s)]
    case Write(b) => [Bytes(b)]
    case Flush => [Flushed]
  }

  /** The handler's calls on an unwrapped writer. */
  function Direct(ops: seq<Op>): seq<Effect> {
    if ops == [] then [] else Direct(ops[..|ops| - 1]) + Forward(ops[|ops| - 1])
  }

  datatype Mode = Undecided | Buffering | Streaming | Passthrough

  /** The fields of the wrapper, with the header map it reads and the effects it has had. */
  datatype State = State(
    contentType: string,
    trace: seq<Effect>,
    status: int,
    wroteHeader: bool,
    mode: Mode,
    buf: seq<byte>,
    exceeded: bool)

  const INITIAL := State("", [], 0, false, Undecided, [], false)

  function DecideMode(contentType: string): Mode {
    if "text/event-stream" <= contentType then Streaming
    else if "application/json" <= contentType then Buffering
    else Passthrough
  }

  function OnHeader(s: State, status: int): State {
    if s.wroteHeader then s else
      var mode := DecideMode(s.contentType);
      s.(status := status, wroteHeader := true, mode := mode,
         trace := if mode == Buffering then s.trace else s.trace + [Header(status)])
  }

  /** The header and the buffer, sent late. */
  function Replay(status: int, buf: seq<byte>): seq<Effect> {
    if |buf| > 0 then [Header(status), Bytes(buf)] else [Header(status)]
  }

  function OnWrite(limit: nat, s0: State, b: seq<byte>): State {
    var s := OnHeader(s0, STATUS_OK);
    if s.mode != Buffering || s.exceeded then
      s.(trace := s.trace + [Bytes(b)])
    else if |s.buf| + |b| > limit then
      s.(exceeded := true, buf := [], trace := s.trace + Replay(s.status, s.buf) + [Bytes(b)])
    else
      s.(buf := s.buf + b)
  }

  function OnFlush(s: State): State {
    if s.mode == Buffering then s else s.(trace := s.trace + [Flushed])
  }

  function Step(limit: nat, s: State, op: Op): State {
    match op
    case SetContentType(v) => s.(contentType := v)
    case WriteHeader(status) => OnHeader(s, status)
    case Write(b) => OnWrite(limit, s, b)
    case Flush => OnFlush(s)
  }

  function Exec(limit: nat, ops: seq<Op>): State {
    if ops == [] then INITIAL else Step(limit, Exec(limit, ops[..|ops| - 1]), ops[|ops| - 1])
  }

  /** finish, called once after the handler; usage is what json.Unmarshal finds under
      usage.total_tokens, and not positive when it finds nothing. */
  function Finish(s: State, usage: seq<byte> -> int): State {
    if !s.wroteHeader || s.mode != Buffering then s else
      var record :=
        if 200 <= s.status < 300 && !s.exceeded && |s.buf| > 0 && usage(s.buf) > 0
        then [Recorded(usage(s.buf))] else [];
      var flush := if s.exceeded then [] else Replay(s.status, s.buf);
      s.(buf := [], trace := s.trace + record + flush)
  }

  /** The wrapper itself. */
  class UsageCaptureWriter {
    const limit: nat
    var contentType: string
    var trace: seq<Effect>
    var status: int
    var wroteHeader: bool
    var mode: Mode
    var buf: seq<byte>
    var exceeded: bool

    constructor (limit: nat)
      ensures Value() == INITIAL && this.limit == limit
    {
      this.limit := limit;
      contentType, trace, status, wroteHeader, mode, buf, exceeded := "", [], 0, false, Undecided, [], false;
    }

    ghost function Value(): State
      reads this
    {
      State(contentType, trace, status, wroteHeader, mode, buf, exceeded)
    }

    method WriteHeader(status: int)
      modifies this
      ensures Value() == OnHeader(old(Value()), status)
    {
      if wroteHeader {
        return;
      }
      this.status := status;
      wroteHeader := true;
      mode := DecideMode(contentType);
      if mode == Streaming || mode == Passthrough {
        trace := trace + [Header(status)];
      }
    }

    method Write(b: seq<byte>)
      modifies this
      ensures Value() == OnWrite(limit, old(Value()), b)
    {
      if !wroteHeader {
        WriteHeader(STATUS_OK);
      }
      if mode == Buffering {
        if exceeded {
          trace := trace + [Bytes(b)];
        } else if |buf| + |b| > limit {
          exceeded := true;
          ghost var before := trace;
          if |buf| > 0 {
            trace := trace + [Header(status)];
            trace := trace + [Bytes(buf)];
            assert trace == before + [Header(status), Bytes(buf)];
            buf := [];
          } else {
            trace := trace + [Header(status)];
          }
          trace := trace + [Bytes(b)];
        } else {
          buf := buf + b;
        }
      } else {
        trace := trace + [Bytes(b)];
      }
    }

    method Flush()
      modifies this
      ensures Value() == OnFlush(old(Value()))
    {
      if mode == Buffering {
        return;
      }
      trace := trace + [Flushed];
    }

    method FinishResponse(usage: seq<byte> -> int)
      modifies this
      ensures Value() == Finish(old(Value()), usage)
    {
      if !wroteHeader || mode != Buffering {
        return;
      }
      var body := buf;
      buf := [];
      ghost var before := trace;
      if 200 <= status < 300 && !exceeded && |body| > 0 {
        var total := usage(body);
        if total > 0 {
          trace := trace + [Recorded(total)];
        }
      }
      ghost var recorded := trace;
      if !exceeded {
        trace := trace + [Header(status)];
        if |body| > 0 {
          trace := trace + [Bytes(body)];
          assert trace == recorded + [Header(status), Bytes(body)];
        }
      }
    }
  }

  // ---- What the client sees, effect by effect

  lemma Append(t: seq<Effect>, e: Effect)
    ensures Status(t + [e]) == Or(Status(t), StatusOf(e))
    ensures Body(t + [e]) == Body(t) + Payload(e)
    ensures Recordings(t + [e]) == Recordings(t) + Recording(e)
  {
    assert (t + [e])[..|t|] == t;
  }

  lemma AppendReplay(t: seq<Effect>, status: int, buf: seq<byte>)
    ensures Status(t + Replay(status, buf)) == Or(Status(t), Some(status))
    ensures Body(t + Replay(status, buf)) == Body(t) + buf
    ensures Recordings(t + Replay(status, buf)) == Recordings(t)
  {
    hide Status, Body, Recordings;
    var t' := t + [Header(status)];
    Append(t, Header(status));
    if |buf| > 0 {
      assert t + Replay(status, buf) == t' + [Bytes(buf)];
      Append(t', Bytes(buf));
    }
  }

  /** While the wrapper still holds bytes back, the client's view is what it has plus the header
      and the buffer that finish will send. */
  function Held(s: State): bool {
    s.wroteHeader && s.mode == Buffering && !s.exceeded
  }

  function SeenStatus(s: State): Option<int> {
    if Held(s) then Or(Status(s.trace), Some(s.status)) else Status(s.trace)
  }

  function SeenBody(s: State): seq<byte> {
    Body(s.trace) + s.buf
  }

  /** The writer holds what the client is owed and nothing else. */
  ghost predicate Faithful(limit: nat, s: State, direct: seq<Effect>) {
    && SeenStatus(s) == Status(direct)
    && SeenBody(s) == Body(direct)
    && |s.buf| <= limit
    && (!s.wroteHeader <==> s.mode == Undecided)
    && (!Held(s) ==> s.buf == [])
    && (s.exceeded ==> s.wroteHeader && s.mode == Buffering && Body(s.trace) == Body(direct) && |Body(direct)| > limit)
    && (Held(s) ==> Body(s.trace) == [])
    && (!s.wroteHeader ==> Body(direct) == [])
    && (s.wroteHeader ==> Status(direct).Some?)
    && Recordings(s.trace) == []
  }

  lemma OnHeaderFaithful(limit: nat, s: State, direct: seq<Effect>, status: int)
    requires Faithful(limit, s, direct)
    ensures Faithful(limit, OnHeader(s, status), direct + [Header(status)])
  {
    Append(direct, Header(status));
    Append(s.trace, Header(status));
  }

  lemma OnFlushFaithful(limit: nat, s: State, direct: seq<Effect>)
    requires Faithful(limit, s, direct)
    ensures Faithful(limit, OnFlush(s), direct + [Flushed])
  {
    Append(direct, Flushed);
    Append(s.trace, Flushed);
  }

  lemma OnWriteFaithful(limit: nat, s0: State, direct0: seq<Effect>, b: seq<byte>)
    requires Faithful(limit, s0, direct0)
    ensures Faithful(limit, OnWrite(limit, s0, b), direct0 + [Bytes(b)])
  {
    var s, direct := OnHeader(s0, STATUS_OK), direct0 + [Header(STATUS_OK)];
    OnHeaderFaithful(limit, s0, direct0, STATUS_OK);
    Append(direct0, Bytes(b));
    Append(direct0, Header(STATUS_OK));
    WriteOpen(limit, s, direct, direct0 + [Bytes(b)], b);
  }

  /** A write once the header is decided. */
  lemma WriteOpen(limit: nat, s: State, direct: seq<Effect>, direct': seq<Effect>, b: seq<byte>)
    requires Faithful(limit, s, direct) && s.wroteHeader
    requires Status(direct') == Status(direct) && Body(direct') == Body(direct) + b
    ensures Faithful(limit, OnWrite(limit, s, b), direct')
  {
    if !Held(s) {
      Through(limit, s, direct, direct', b);
    } else if |s.buf| + |b| > limit {
      Overflow(limit, s, direct, direct', b);
    } else {
      Buffered(limit, s, direct, direct', b);
    }
  }

  lemma Through(limit: nat, s: State, direct: seq<Effect>, direct': seq<Effect>, b: seq<byte>)
    requires Faithful(limit, s, direct) && s.wroteHeader && !Held(s)
    requires Status(direct') == Status(direct) && Body(direct') == Body(direct) + b
    ensures Faithful(limit, OnWrite(limit, s, b), direct')
  {
    hide Status, Body, Recordings;
    Append(s.trace, Bytes(b));
  }

  lemma Buffered(limit: nat, s: State, direct: seq<Effect>, direct': seq<Effect>, b: seq<byte>)
    requires Faithful(limit, s, direct) && Held(s) && |s.buf| + |b| <= limit
    requires Status(direct') == Status(direct) && Body(direct') == Body(direct) + b
    ensures Faithful(limit, OnWrite(limit, s, b), direct')
  {
  }

  /** The overflow replays header and buffer before the write that overflowed. */
  lemma Overflow(limit: nat, s: State, direct: seq<Effect>, direct': seq<Effect>, b: seq<byte>)
    requires Faithful(limit, s, direct) && Held(s) && |s.buf| + |b| > limit
    requires Status(direct') == Status(direct) && Body(direct') == Body(direct) + b
    ensures Faithful(limit, OnWrite(limit, s, b), direct')
  {
    AppendReplay(s.trace, s.status, s.buf);
    Append(s.trace + Replay(s.status, s.buf), Bytes(b));
  }

  lemma StepFaithful(limit: nat, s: State, direct: seq<Effect>, op: Op)
    requires Faithful(limit, s, direct)
    ensures Faithful(limit, Step(limit, s, op), direct + Forward(op))
  {
    match op
    case SetContentType(_) => assert direct + [] == direct;
    case WriteHeader(status) => OnHeaderFaithful(limit, s, direct, status);
    case Write(b) => OnWriteFaithful(limit, s, direct, b);
    case Flush => OnFlushFaithful(limit, s, direct);
  }

  /** The invariant of every sequence of calls. */
  lemma {:induction false} FaithfulHolds(limit: nat, ops: seq<Op>)
    ensures Faithful(limit, Exec(limit, ops), Direct(ops))
  {
    if ops != [] {
      var front := ops[..|ops| - 1];
      FaithfulHolds(limit, front);
      StepFaithful(limit, Exec(limit, front), Direct(front), ops[|ops| - 1]);
    }
  }

  /** Transparency: after finish the client has the same status and the same bytes, in order, as
      from the unwrapped writer; and the buffer never outgrew its limit on the way. */
  lemma Transparent(limit: nat, ops: seq<Op>, usage: seq<byte> -> int)
    ensures var done := Finish(Exec(limit, ops), usage);
            && Status(done.trace) == Status(Direct(ops))
            && Body(done.trace) == Body(Direct(ops))
    ensures forall n :: 0 <= n <= |ops| ==> |Exec(limit, ops[..n]).buf| <= limit
  {
    FaithfulHolds(limit, ops);
    FinishView(Exec(limit, ops), usage, Reported(Exec(limit, ops), usage));
    forall n | 0 <= n <= |ops| ensures |Exec(limit, ops[..n]).buf| <= limit {
      FaithfulHolds(limit, ops[..n]);
    }
  }

  /** The tokens finish reports, if any. */
  function Reported(s: State, usage: seq<byte> -> int): Option<int> {
    if Held(s) && 200 <= s.status < 300 && |s.buf| > 0 && usage(s.buf) > 0 then Some(usage(s.buf)) else None
  }

  function ReportTrace(report: Option<int>): seq<Effect> {
    if report.Some? then [Recorded(report.value)] else []
  }

  lemma AppendReport(t: seq<Effect>, report: Option<int>)
    ensures Status(t + ReportTrace(report)) == Status(t)
    ensures Body(t + ReportTrace(report)) == Body(t)
    ensures Recordings(t + ReportTrace(report)) == Recordings(t) + if report.Some? then [report.value] else []
  {
    if report.Some? {
      Append(t, Recorded(report.value));
    } else {
      assert t + [] == t;
    }
  }

  lemma FinishView(s: State, usage: seq<byte> -> int, report: Option<int>)
    requires (!Held(s) ==> s.buf == []) && report == Reported(s, usage)
    ensures var done := Finish(s, usage);
            && Status(done.trace) == SeenStatus(s)
            && Body(done.trace) == SeenBody(s)
            && Recordings(done.trace) == Recordings(s.trace) + (if report.Some? then [report.value] else [])
            && s.trace + ReportTrace(report) <= done.trace
  {
    var t := s.trace + ReportTrace(report);
    AppendReport(s.trace, report);
    AppendReplay(t, s.status, s.buf);
    assert Finish(s, usage).trace == t + if Held(s) then Replay(s.status, s.buf) else [];
    assert t + [] == t;
  }

  // ---- When tokens are recorded

  /** The content type the handler has set so far. */
  function ContentType(ops: seq<Op>): string {
    if ops == [] then ""
    else match ops[|ops| - 1]
      case SetContentType(v) => v
      case _ => ContentType(ops[..|ops| - 1])
  }

  /** The handler's first WriteHeader or Write: the status it asks for and the content type then. */
  function Committed(ops: seq<Op>): Option<(int, string)> {
    if ops == [] then None
    else var front := ops[..|ops| - 1];
      match Committed(front)
      case Some(c) => Some(c)
      case None =>
        match ops[|ops| - 1]
        case WriteHeader(s) => Some((s, ContentType(front)))
        case Write(_) => Some((200, ContentType(front)))
        case _ => None
  }

  /** The handler's first commitment was made with a content type of this kind. */
  predicate CommittedTo(ops: seq<Op>, kind: string) {
    Committed(ops).Some? && kind <= Committed(ops).value.1
  }

  const JSON := "application/json"
  const EVENT_STREAM := "text/event-stream"

  /** The wrapper's decision is the handler's first commitment, and it overflows exactly when a
      JSON body outgrows the limit. */
  lemma DecisionHolds(limit: nat, ops: seq<Op>)
    ensures Decided(Exec(limit, ops), ops)
    ensures Exec(limit, ops).exceeded <==> CommittedTo(ops, JSON) && |Body(Direct(ops))| > limit
  {
    hide Exec, Body;
    CommitmentHolds(limit, ops);
    FaithfulHolds(limit, ops);
  }

  ghost predicate Decided(s: State, ops: seq<Op>) {
    && s.contentType == ContentType(ops)
    && (s.wroteHeader <==> Committed(ops).Some?)
    && (s.wroteHeader ==> s.status == Committed(ops).value.0)
    && (s.mode == Buffering <==> CommittedTo(ops, JSON))
    && (s.mode == Streaming <==> CommittedTo(ops, EVENT_STREAM))
    && (s.mode == Undecided <==> Committed(ops).None?)
  }

  lemma DecidedByType(contentType: string)
    ensures DecideMode(contentType) == Buffering <==> JSON <= contentType
    ensures DecideMode(contentType) == Streaming <==> EVENT_STREAM <= contentType
    ensures DecideMode(contentType) != Undecided
  {
    assert JSON[0] == 'a' && EVENT_STREAM[0] == 't';
  }

  lemma {:induction false} CommitmentHolds(limit: nat, ops: seq<Op>)
    ensures Decided(Exec(limit, ops), ops)
  {
    hide DecideMode;
    if ops != [] {
      CommitmentHolds(limit, ops[..|ops| - 1]);
      DecidedByType(ContentType(ops[..|ops| - 1]));
    }
  }

  /** Nothing is withheld but JSON: as long as the handler has not committed to it, and so for ever after
      committing to anything else, an event stream included, the client already has the status and the
      body of the unwrapped writer after every call. */
  lemma NothingElseIsWithheld(limit: nat, ops: seq<Op>, n: nat)
    requires n <= |ops| && !CommittedTo(ops[..n], JSON)
    ensures var trace, direct := Exec(limit, ops[..n]).trace, Direct(ops[..n]);
            Status(trace) == Status(direct) && Body(trace) == Body(direct)
  {
    hide Exec, Status, Body;
    FaithfulHolds(limit, ops[..n]);
    CommitmentHolds(limit, ops[..n]);
  }

  // ---- Flushes

  /** How many bytes had been sent at each flush. */
  function FlushPoints(trace: seq<Effect>): seq<nat> {
    if trace == [] then []
    else
      var front := trace[..|trace| - 1];
      FlushPoints(front) + if trace[|trace| - 1].Flushed? then [|Body(front)|] else []
  }

  /** The flushes a client is to see: those the handler asks for before it commits to JSON, each after the
      bytes written until then. */
  function Flushes(ops: seq<Op>): seq<nat> {
    if ops == [] then []
    else
      var front := ops[..|ops| - 1];
      Flushes(front) + if ops[|ops| - 1].Flush? && !CommittedTo(front, JSON) then [|Body(Direct(front))|] else []
  }

  lemma {:induction false} NoFlush(t: seq<Effect>, us: seq<Effect>)
    requires forall k :: 0 <= k < |us| ==> !us[k].Flushed?
    ensures FlushPoints(t + us) == FlushPoints(t)
  {
    hide Body;
    if us == [] {
      assert t + us == t;
    } else {
      var all := t + us;
      assert all[..|all| - 1] == t + us[..|us| - 1];
      NoFlush(t, us[..|us| - 1]);
    }
  }

  /** What a call that is not a flush sends holds no flush. */
  lemma StepSends(limit: nat, s: State, op: Op) returns (us: seq<Effect>)
    requires !op.Flush?
    ensures Step(limit, s, op).trace == s.trace + us
    ensures forall k :: 0 <= k < |us| ==> !us[k].Flushed?
  {
    us := Step(limit, s, op).trace[|s.trace|..];
  }

  /** The client sees exactly those flushes, each at its place in the body. */
  lemma {:induction false} FlushesHold(limit: nat, ops: seq<Op>)
    ensures FlushPoints(Exec(limit, ops).trace) == Flushes(ops)
  {
    hide Body, Direct, Step, CommittedTo;
    if ops != [] {
      var front, op := ops[..|ops| - 1], ops[|ops| - 1];
      var s := Exec(limit, front);
      FlushesHold(limit, front);
      if op.Flush? {
        FlushStep(limit, s, front);
      } else {
        var us := StepSends(limit, s, op);
        NoFlush(s.trace, us);
      }
    }
  }

  lemma FlushStep(limit: nat, s: State, front: seq<Op>)
    requires s == Exec(limit, front)
    ensures FlushPoints(Step(limit, s, Flush).trace) ==
            FlushPoints(s.trace) + if CommittedTo(front, JSON) then [] else [|Body(Direct(front))|]
  {
    hide Exec, Body, CommittedTo;
    FaithfulHolds(limit, front);
    CommitmentHolds(limit, front);
    assert (s.trace + [Flushed])[..|s.trace|] == s.trace;
  }

  /** The condition a caller can read off the handler's calls: a JSON response with a 2xx status
      whose body is not empty, fits the limit and reports tokens. */
  ghost predicate Countable(limit: nat, ops: seq<Op>, usage: seq<byte> -> int) {
    var body := Body(Direct(ops));
    && CommittedTo(ops, JSON)
    && 200 <= Committed(ops).value.0 < 300
    && 0 < |body| <= limit && usage(body) > 0
  }

  /** RecordTokens runs exactly once, on the complete body and before any byte of it is forwarded,
      if the response is countable, and never otherwise. */
  lemma RecordedOnce(limit: nat, ops: seq<Op>, usage: seq<byte> -> int)
    ensures var done := Finish(Exec(limit, ops), usage);
            var body := Body(Direct(ops));
            if Countable(limit, ops, usage) then
              && Recordings(done.trace) == [usage(body)]
              && exists k :: 0 <= k < |done.trace| && done.trace[k] == Recorded(usage(body))
                             && Body(done.trace[..k]) == []
            else
              Recordings(done.trace) == []
  {
    hide Exec, Reported, Countable, Finish, Recordings, Direct;
    var s := Exec(limit, ops);
    var report, done := Reported(s, usage), Finish(s, usage);
    ReportedIsCountable(limit, ops, usage, s);
    FinishView(s, usage, report);
    if report.Some? {
      var k := |s.trace|;
      assert done.trace[k] == (s.trace + ReportTrace(report))[k];
      assert done.trace[..k] == s.trace;
    }
  }

  lemma ReportedIsCountable(limit: nat, ops: seq<Op>, usage: seq<byte> -> int, s: State)
    requires s == Exec(limit, ops)
    ensures Reported(s, usage) == if Countable(limit, ops, usage) then Some(usage(Body(Direct(ops)))) else None
    ensures Reported(s, usage).Some? ==> Body(s.trace) == []
    ensures Recordings(s.trace) == [] && (!Held(s) ==> s.buf == [])
  {
    hide Exec, Body;
    FaithfulHolds(limit, ops);
    DecisionHolds(limit, ops);
    assert Body(Direct(ops)) == if Held(s) then s.buf else Body(s.trace);
    assert Held(s) <==> CommittedTo(ops, JSON) && |Body(Direct(ops))| <= limit;
  }
}
