/** Anthropic replies, whole and streamed: the stream loop must mean what the translation of the
    complete reply means. JSON decoding is a parameter. */
module AnthropicStream {
  import opened Values

  datatype Usage = Usage(prompt: int, completion: int, total: int)

  /** A content block of a reply. */
  datatype Block = Block(kind: string, text: string)

  datatype Response = Response(
    id: string, model: string, content: seq<Block>, stopReason: string, inputTokens: int, outputTokens: int)

  /** The OpenAI-shaped answer; the creation time is left out. */
  datatype Completion = Completion(id: string, model: string, content: string, finishReason: string, usage: Usage)

  datatype Chunk = Chunk(id: string, model: string, content: string, finishReason: Option<string>, usage: Option<Usage>)

  datatype Failure = BadMessageStart | BadContentDelta | BadMessageDelta | ReadError | UnexpectedEOF

  datatype StreamEvent = Data(chunk: Chunk) | Error(failure: Failure)

  function MapStopReason(reason: string): string {
    if reason == "end_turn" then "stop"
    else if reason == "max_tokens" then "length"
    else if reason == "stop_sequence" then "stop"
    else reason
  }

  /** The text of the text blocks, joined. */
  function TextOf(content: seq<Block>): string {
    if content == [] then ""
    else TextOf(content[..|content| - 1]) +
         if content[|content| - 1].kind == "text" then content[|content| - 1].text else ""
  }

  function Translated(r: Response): Completion {
    Completion(r.id, r.model, TextOf(r.content), MapStopReason(r.stopReason),
               Usage(r.inputTokens, r.outputTokens, r.inputTokens + r.outputTokens))
  }

  /** o lists the indices of the text blocks, all of them, in order. */
  ghost predicate Selects(content: seq<Block>, o: seq<nat>) {
    && (forall k :: 0 <= k < |o| ==> o[k] < |content| && content[o[k]].kind == "text")
    && (forall j, k :: 0 <= j < k < |o| ==> o[j] < o[k])
    && (forall i :: 0 <= i < |content| && content[i].kind == "text" ==> i in o)
  }

  /** The texts of the text blocks, in order. */
  ghost predicate Texts(content: seq<Block>, texts: seq<string>) {
    exists o: seq<nat> :: Selects(content, o) && TextsAt(content, o, texts)
  }

  ghost predicate TextsAt(content: seq<Block>, o: seq<nat>, texts: seq<string>)
    requires Selects(content, o)
  {
    |texts| == |o| && forall k :: 0 <= k < |o| ==> texts[k] == content[o[k]].text
  }

  /** How a stop reason is named: the two that end a reply by its own means, the one that cuts it, and
      any other by itself. */
  predicate Names(reason: string, finish: string) {
    && (reason in {"end_turn", "stop_sequence"} ==> finish == "stop")
    && (reason == "max_tokens" ==> finish == "length")
    && (reason !in {"end_turn", "stop_sequence", "max_tokens"} ==> finish == reason)
  }

  /** What the completion of a reply has to be. */
  ghost predicate IsTranslation(r: Response, c: Completion) {
    && c.id == r.id && c.model == r.model
    && (exists texts :: Texts(r.content, texts) && c.content == Join(texts))
    && Names(r.stopReason, c.finishReason)
    && c.usage.prompt == r.inputTokens && c.usage.completion == r.outputTokens
    && c.usage.total == r.inputTokens + r.outputTokens
  }

  lemma {:induction false} JoinSnoc(pieces: seq<string>, x: string)
    ensures Join(pieces + [x]) == Join(pieces) + x
  {
    if pieces == [] {
      assert (pieces + [x])[1..] == [];
    } else {
      JoinSnoc(pieces[1..], x);
      assert (pieces + [x])[1..] == pieces[1..] + [x];
    }
  }

  /** The joined text of any listing of the text blocks in order is the same. */
  lemma {:induction false} SelectionJoins(content: seq<Block>, o: seq<nat>, texts: seq<string>)
    requires Selects(content, o) && TextsAt(content, o, texts)
    ensures TextOf(content) == Join(texts)
    decreases |content|
  {
    hide Join;
    if content != [] {
      var n := |content| - 1;
      var front := content[..n];
      if content[n].kind == "text" {
        var m := |o| - 1;
        LastSelected(content, o);
        FrontSelects(content, o[..m]);
        SelectionJoins(front, o[..m], texts[..m]);
        JoinSnoc(texts[..m], texts[m]);
        assert texts[..m] + [texts[m]] == texts;
      } else {
        FrontSelects(content, o);
        SelectionJoins(front, o, texts);
      }
    } else {
      NothingSelected(o, texts);
    }
  }

  lemma NothingSelected(o: seq<nat>, texts: seq<string>)
    requires Selects([], o) && TextsAt([], o, texts)
    ensures texts == [] && Join(texts) == ""
  {
    hide Join;
    AtMost(o, 0);
    EmptyJoin();
  }

  lemma EmptyJoin()
    ensures Join([]) == ""
  {
  }

  lemma {:induction false} AtMost(o: seq<nat>, n: nat)
    requires forall k :: 0 <= k < |o| ==> o[k] < n
    requires forall j, k :: 0 <= j < k < |o| ==> o[j] < o[k]
    ensures |o| <= n
    decreases |o|
  {
    if o != [] {
      AtMost(o[..|o| - 1], o[|o| - 1]);
    }
  }

  lemma LastSelected(content: seq<Block>, o: seq<nat>)
    requires content != [] && content[|content| - 1].kind == "text" && Selects(content, o)
    ensures o != [] && o[|o| - 1] == |content| - 1
  {
    var n := |content| - 1;
    assert n in o;
    var k :| 0 <= k < |o| && o[k] == n;
    assert k < |o| - 1 ==> o[k] < o[|o| - 1];
  }

  /** The part of a listing that stays in front of the last block. */
  lemma FrontSelects(content: seq<Block>, o: seq<nat>)
    requires content != []
    requires || (content[|content| - 1].kind != "text" && Selects(content, o))
             || (content[|content| - 1].kind == "text" && Selects(content, o + [|content| - 1]))
    ensures Selects(content[..|content| - 1], o)
  {
    var n := |content| - 1;
    var all := if content[n].kind == "text" then o + [n] else o;
    forall k | 0 <= k < |o| ensures o[k] < n && content[o[k]].kind == "text" {
      assert all[k] == o[k];
      assert content[n].kind == "text" ==> all[k] < all[|o|];
    }
    forall j, k | 0 <= j < k < |o| ensures o[j] < o[k] {
      assert all[j] < all[k];
    }
    forall i | 0 <= i < n && content[i].kind == "text" ensures i in o {
      assert i in all;
    }
  }

  lemma {:induction false} SomeSelection(content: seq<Block>) returns (o: seq<nat>, texts: seq<string>)
    ensures Selects(content, o) && TextsAt(content, o, texts)
  {
    if content == [] {
      o, texts := [], [];
    } else {
      var n := |content| - 1;
      o, texts := SomeSelection(content[..n]);
      if content[n].kind == "text" {
        o, texts := o + [n], texts + [content[n].text];
        assert o[|o| - 1] == n;
      }
    }
  }

  lemma TranslatedIs(r: Response)
    ensures IsTranslation(r, Translated(r))
  {
    var o, texts := SomeSelection(r.content);
    SelectionJoins(r.content, o, texts);
    assert Texts(r.content, texts);
  }

  lemma TranslationIs(r: Response, c: Completion)
    requires IsTranslation(r, c)
    ensures c == Translated(r)
  {
    hide Join, TextOf, MapStopReason, Names, Selects, TextsAt;
    NamesOnce(r.stopReason, c.finishReason);
    var texts :| Texts(r.content, texts) && c.content == Join(texts);
    var o: seq<nat> :| Selects(r.content, o) && TextsAt(r.content, o, texts);
    SelectionJoins(r.content, o, texts);
  }

  lemma NamesOnce(reason: string, finish: string)
    requires Names(reason, finish)
    ensures finish == MapStopReason(reason)
  {
  }

  method TranslateResponse(r: Response) returns (c: Completion)
    ensures IsTranslation(r, c)
  {
    TranslatedIs(r);
    var content := "";
    for i := 0 to |r.content|
      invariant content == TextOf(r.content[..i])
    {
      assert r.content[..i + 1][..i] == r.content[..i];
      if r.content[i].kind == "text" {
        content := content + r.content[i].text;
      }
    }
    assert r.content[..|r.content|] == r.content;
    c := Completion(r.id, r.model, content, MapStopReason(r.stopReason),
                    Usage(r.inputTokens, r.outputTokens, r.inputTokens + r.outputTokens));
  }

  // ---- The stream loop

  datatype Start = Start(id: string, model: string, inputTokens: int)
  datatype Delta = Delta(kind: string, text: string)
  datatype End = End(stopReason: string, outputTokens: int)

  /** What json.Unmarshal makes of a data line, per event type. */
  datatype Decoder = Decoder(start: string -> Option<Start>, delta: string -> Option<Delta>, end: string -> Option<End>)

  /** The variables of the loop. */
  datatype State = State(id: string, model: string, inputTokens: int, eventType: string)

  const INITIAL := State("", "", 0, "")

  const EVENT := "event: "
  const DATA := "data: "
  const MESSAGE_START := "message_start"
  const CONTENT_BLOCK_DELTA := "content_block_delta"
  const MESSAGE_DELTA := "message_delta"
  const MESSAGE_STOP := "message_stop"

  /** What one line does: go on, perhaps with a chunk to send; return; or send an error and return. */
  datatype Effect = Go(state: State, send: seq<Chunk>) | Return | Fail(failure: Failure)

  function OnData(dec: Decoder, s: State, data: string): Effect {
    if s.eventType == MESSAGE_START then
      match dec.start(data)
      case None => Fail(BadMessageStart)
      case Some(m) => Go(State(m.id, m.model, m.inputTokens, s.eventType), [])
    else if s.eventType == CONTENT_BLOCK_DELTA then
      match dec.delta(data)
      case None => Fail(BadContentDelta)
      case Some(d) => Go(s, if d.kind == "text_delta" then [Chunk(s.id, s.model, d.text, None, None)] else [])
    else if s.eventType == MESSAGE_DELTA then
      match dec.end(data)
      case None => Fail(BadMessageDelta)
      case Some(e) =>
        var usage := Usage(s.inputTokens, e.outputTokens, s.inputTokens + e.outputTokens);
        Go(s, [Chunk(s.id, s.model, "", Some(MapStopReason(e.stopReason)), Some(usage))])
    else if s.eventType == MESSAGE_STOP then Return
    else Go(s, [])
  }

  function OnLine(dec: Decoder, s: State, line: string): Effect {
    if EVENT <= line then Go(s.(eventType := line[|EVENT|..]), [])
    else if DATA <= line then OnData(dec, s, line[|DATA|..])
    else Go(s, [])
  }

  /** What the loop emits for the rest of the lines, when the context is never done. */
  function Emit(dec: Decoder, s: State, lines: seq<string>, broken: bool): seq<StreamEvent>
    decreases |lines|
  {
    if lines == [] then [Error(if broken then ReadError else UnexpectedEOF)]
    else match OnLine(dec, s, lines[0])
      case Go(s', send) => Sent(send) + Emit(dec, s', lines[1..], broken)
      case Return => []
      case Fail(f) => [Error(f)]
  }

  function Sent(send: seq<Chunk>): seq<StreamEvent> {
    if send == [] then [] else [Data(send[0])]
  }

  /** The same with a context that may be done: done(k) answers the k-th time the loop looks, once at
      every line and once at every send. */
  function EmitUntil(dec: Decoder, s: State, lines: seq<string>, broken: bool, done: nat -> bool, k: nat)
    : seq<StreamEvent>
    decreases |lines|
  {
    if done(k) then []
    else if lines == [] then [Error(if broken then ReadError else UnexpectedEOF)]
    else match OnLine(dec, s, lines[0])
      case Go(s', send) =>
        if send == [] then EmitUntil(dec, s', lines[1..], broken, done, k + 1)
        else if done(k + 1) then []
        else [Data(send[0])] + EmitUntil(dec, s', lines[1..], broken, done, k + 2)
      case Return => []
      case Fail(f) => if done(k + 1) then [] else [Error(f)]
  }

  /** What follows an effect, with a context that may be done. */
  function Afterwards(dec: Decoder, e: Effect, rest: seq<string>, broken: bool, done: nat -> bool, k: nat)
    : seq<StreamEvent>
  {
    match e
    case Go(s', send) =>
      if send == [] then EmitUntil(dec, s', rest, broken, done, k)
      else if done(k) then []
      else [Data(send[0])] + EmitUntil(dec, s', rest, broken, done, k + 1)
    case Return => []
    case Fail(f) => if done(k) then [] else [Error(f)]
  }

  lemma NextLine(dec: Decoder, s: State, lines: seq<string>, i: nat, broken: bool, done: nat -> bool, k: nat)
    requires i < |lines|
    ensures EmitUntil(dec, s, lines[i..], broken, done, k) ==
            if done(k) then [] else Afterwards(dec, OnLine(dec, s, lines[i]), lines[i + 1..], broken, done, k + 1)
  {
    hide OnLine;
    assert lines[i..][0] == lines[i] && lines[i..][1..] == lines[i + 1..];
  }

  lemma NoMoreLines(dec: Decoder, s: State, lines: seq<string>, broken: bool, done: nat -> bool, k: nat)
    ensures EmitUntil(dec, s, lines[|lines|..], broken, done, k) ==
            if done(k) then [] else [Error(if broken then ReadError else UnexpectedEOF)]
  {
  }

  /** The goroutine of ChatCompletionStream; broken says that reading the lines ended in an error. */
  method StreamLoop(dec: Decoder, lines: seq<string>, broken: bool, done: nat -> bool) returns (out: seq<StreamEvent>)
    ensures out == EmitUntil(dec, INITIAL, lines, broken, done, 0)
  {
    hide EmitUntil, OnLine;
    out := [];
    var msg, k, i := INITIAL, 0, 0;
    assert lines[0..] == lines;
    while i < |lines|
      invariant 0 <= i <= |lines|
      invariant EmitUntil(dec, INITIAL, lines, broken, done, 0) ==
                out + EmitUntil(dec, msg, lines[i..], broken, done, k)
    {
      NextLine(dec, msg, lines, i, broken, done, k);
      if done(k) {
        return;
      }
      var effect := HandleLine(dec, msg, lines[i]);
      k, i := k + 1, i + 1;
      match effect
      case Return =>
        return;
      case Fail(f) =>
        return SendErr(out, f, done(k));
      case Go(next, send) =>
        msg := next;
        if |send| > 0 {
          if done(k) {
            return;
          }
          out, k := out + [Data(send[0])], k + 1;
        }
    }
    NoMoreLines(dec, msg, lines, broken, done, k);
    out := SendErr(out, if broken then ReadError else UnexpectedEOF, done(k));
  }

  /** The loop body up to its send: what the line does to the loop's variables and what it has to send. */
  method HandleLine(dec: Decoder, msg: State, line: string) returns (effect: Effect)
    ensures effect == OnLine(dec, msg, line)
  {
    if EVENT <= line {
      return Go(msg.(eventType := line[|EVENT|..]), []);
    }
    if !(DATA <= line) {
      return Go(msg, []);
    }
    var data := line[|DATA|..];
    if msg.eventType == MESSAGE_START {
      var ev := dec.start(data);
      if ev.None? {
        return Fail(BadMessageStart);
      }
      return Go(msg.(id := ev.value.id, model := ev.value.model, inputTokens := ev.value.inputTokens), []);
    }
    if msg.eventType == CONTENT_BLOCK_DELTA {
      var ev := dec.delta(data);
      if ev.None? {
        return Fail(BadContentDelta);
      }
      if ev.value.kind != "text_delta" {
        return Go(msg, []);
      }
      return Go(msg, [Chunk(msg.id, msg.model, ev.value.text, None, None)]);
    }
    if msg.eventType == MESSAGE_DELTA {
      var ev := dec.end(data);
      if ev.None? {
        return Fail(BadMessageDelta);
      }
      var finishReason := MapStopReason(ev.value.stopReason);
      var usage := Usage(msg.inputTokens, ev.value.outputTokens, msg.inputTokens + ev.value.outputTokens);
      return Go(msg, [Chunk(msg.id, msg.model, "", Some(finishReason), Some(usage))]);
    }
    if msg.eventType == MESSAGE_STOP {
      return Return;
    }
    return Go(msg, []);
  }

  function SendErr(out: seq<StreamEvent>, f: Failure, gone: bool): seq<StreamEvent> {
    if gone then out else out + [Error(f)]
  }

  /** A context that is done at any moment only cuts the stream short: what was sent is a prefix of the
      uncut stream, and the whole of it if the context is never done. */
  lemma {:induction false} CancelledIsPrefix(dec: Decoder, s: State, lines: seq<string>, broken: bool,
                                                done: nat -> bool, k: nat)
    ensures EmitUntil(dec, s, lines, broken, done, k) <= Emit(dec, s, lines, broken)
    ensures (forall n :: !done(n)) ==> EmitUntil(dec, s, lines, broken, done, k) == Emit(dec, s, lines, broken)
    decreases |lines|
  {
    if lines != [] {
      match OnLine(dec, s, lines[0])
      case Go(s', send) =>
        CancelledIsPrefix(dec, s', lines[1..], broken, done, if send == [] then k + 1 else k + 2);
      case Return =>
      case Fail(_) =>
    }
  }

  // ---- Errors

  /** The event type in force at line i. */
  function TypeAt(lines: seq<string>, i: nat): string
    requires i <= |lines|
  {
    if i == 0 then ""
    else if EVENT <= lines[i - 1] then lines[i - 1][|EVENT|..]
    else TypeAt(lines, i - 1)
  }

  predicate IsData(lines: seq<string>, i: nat, kind: string)
    requires i < |lines|
  {
    !(EVENT <= lines[i]) && DATA <= lines[i] && TypeAt(lines, i) == kind
  }

  /** Line i ends the message. */
  predicate Stops(lines: seq<string>, i: nat)
    requires i < |lines|
  {
    IsData(lines, i, MESSAGE_STOP)
  }

  /** Line i is a data line that cannot be decoded as its event type demands. */
  predicate Undecodable(dec: Decoder, lines: seq<string>, i: nat)
    requires i < |lines|
  {
    || (IsData(lines, i, MESSAGE_START) && dec.start(lines[i][|DATA|..]).None?)
    || (IsData(lines, i, CONTENT_BLOCK_DELTA) && dec.delta(lines[i][|DATA|..]).None?)
    || (IsData(lines, i, MESSAGE_DELTA) && dec.end(lines[i][|DATA|..]).None?)
  }

  /** The stream reaches the end of the message from line i on. */
  ghost predicate Completes(dec: Decoder, lines: seq<string>, i: nat)
    requires i <= |lines|
    decreases |lines| - i
  {
    i < |lines| && !Undecodable(dec, lines, i) && (Stops(lines, i) || Completes(dec, lines, i + 1))
  }

  ghost predicate NoErrors(events: seq<StreamEvent>) {
    forall k :: 0 <= k < |events| ==> events[k].Data?
  }

  ghost predicate OneErrorLast(events: seq<StreamEvent>) {
    events != [] && events[|events| - 1].Error? && NoErrors(events[..|events| - 1])
  }

  /** The failure of a data line of this type that does not decode. */
  function BadLine(kind: string): Failure {
    if kind == MESSAGE_START then BadMessageStart
    else if kind == CONTENT_BLOCK_DELTA then BadContentDelta
    else BadMessageDelta
  }

  /** f is the failure that ends the stream from line i on: that of the first line that does not decode, or
      that of the reader, if there is no such line. */
  ghost predicate Ends(dec: Decoder, lines: seq<string>, broken: bool, i: nat, f: Failure)
    requires i <= |lines|
  {
    if n :| i <= n < |lines| && Undecodable(dec, lines, n) && forall j :: i <= j < n ==> !Undecodable(dec, lines, j)
    then f == BadLine(TypeAt(lines, n))
    else f == if broken then ReadError else UnexpectedEOF
  }

  lemma LineOutcome(dec: Decoder, s: State, lines: seq<string>, i: nat)
    requires i < |lines| && s.eventType == TypeAt(lines, i)
    ensures OnLine(dec, s, lines[i]).Fail? <==> Undecodable(dec, lines, i)
    ensures OnLine(dec, s, lines[i]).Return? <==> Stops(lines, i)
    ensures OnLine(dec, s, lines[i]).Go? ==> OnLine(dec, s, lines[i]).state.eventType == TypeAt(lines, i + 1)
  {
  }

  lemma SendFirst(send: seq<Chunk>, rest: seq<StreamEvent>)
    ensures NoErrors(rest) ==> NoErrors(Sent(send) + rest)
    ensures OneErrorLast(rest) ==> OneErrorLast(Sent(send) + rest)
  {
    var all := Sent(send) + rest;
    if OneErrorLast(rest) {
      assert all[..|all| - 1] == Sent(send) + rest[..|rest| - 1];
    }
  }

  lemma {:induction false} ErrorsFrom(dec: Decoder, s: State, lines: seq<string>, broken: bool, i: nat)
    requires i <= |lines| && s.eventType == TypeAt(lines, i)
    ensures var events := Emit(dec, s, lines[i..], broken);
            if Completes(dec, lines, i) then NoErrors(events)
            else OneErrorLast(events) && Ends(dec, lines, broken, i, events[|events| - 1].failure)
    decreases |lines| - i
  {
    hide OnLine, Ends, Undecodable, Stops, TypeAt;
    if i < |lines| {
      LineOutcome(dec, s, lines, i);
      FailureIs(dec, s, lines, broken, i);
      assert lines[i..] == [lines[i]] + lines[i + 1..];
      EmitLine(dec, s, lines[i], lines[i + 1..], broken);
      match OnLine(dec, s, lines[i])
      case Go(s', send) =>
        ErrorsFrom(dec, s', lines, broken, i + 1);
        SendFirst(send, Emit(dec, s', lines[i + 1..], broken));
        if !Completes(dec, lines, i + 1) {
          var events := Emit(dec, s', lines[i + 1..], broken);
          EndsEarlier(dec, lines, broken, i, events[|events| - 1].failure);
        }
      case Return =>
      case Fail(_) =>
    } else {
      ReaderEnds(dec, lines, broken);
    }
  }

  lemma FailureIs(dec: Decoder, s: State, lines: seq<string>, broken: bool, i: nat)
    requires i < |lines| && s.eventType == TypeAt(lines, i)
    ensures OnLine(dec, s, lines[i]).Fail? ==> Ends(dec, lines, broken, i, OnLine(dec, s, lines[i]).failure)
  {
    hide TypeAt;
    LineOutcome(dec, s, lines, i);
  }

  lemma ReaderEnds(dec: Decoder, lines: seq<string>, broken: bool)
    ensures Ends(dec, lines, broken, |lines|, if broken then ReadError else UnexpectedEOF)
  {
  }

  lemma EndsEarlier(dec: Decoder, lines: seq<string>, broken: bool, i: nat, f: Failure)
    requires i < |lines| && !Undecodable(dec, lines, i) && Ends(dec, lines, broken, i + 1, f)
    ensures Ends(dec, lines, broken, i, f)
  {
    hide Undecodable, TypeAt;
  }

  /** Completes, spelled out: some line ends the message and every line up to it decodes. */
  lemma {:induction false} CompletesIs(dec: Decoder, lines: seq<string>, i: nat)
    requires i <= |lines|
    ensures Completes(dec, lines, i) <==>
              exists n :: i <= n < |lines| && Stops(lines, n) && forall j :: i <= j <= n ==> !Undecodable(dec, lines, j)
    decreases |lines| - i
  {
    if i < |lines| {
      CompletesIs(dec, lines, i + 1);
      if Completes(dec, lines, i) && !Stops(lines, i) {
        var n :| i + 1 <= n < |lines| && Stops(lines, n) && forall j :: i + 1 <= j <= n ==> !Undecodable(dec, lines, j);
        assert forall j :: i <= j <= n ==> !Undecodable(dec, lines, j);
      }
    }
  }

  /** For every sequence of lines: a stream that is cut before message_stop, or that holds a line that
      does not decode before it, ends in exactly one error event and it is the last event; any other
      stream has none. The error is that of the first line that does not decode, by its event type, or
      else that of the reader. */
  lemma ErrorIffCut(dec: Decoder, lines: seq<string>, broken: bool)
    ensures var events := Emit(dec, INITIAL, lines, broken);
            if exists n :: 0 <= n < |lines| && Stops(lines, n) &&
                           forall j :: 0 <= j <= n ==> !Undecodable(dec, lines, j)
            then NoErrors(events)
            else OneErrorLast(events) && Ends(dec, lines, broken, 0, events[|events| - 1].failure)
  {
    assert lines[0..] == lines;
    ErrorsFrom(dec, INITIAL, lines, broken, 0);
    CompletesIs(dec, lines, 0);
  }

  // ---- Streams of whole replies

  /** An event with its data, or a line that is neither: a blank line, a comment. */
  datatype Frame = Event(kind: string, data: string) | Other(line: string)

  function Render(f: Frame): seq<string> {
    match f
    case Event(kind, data) => ["event: " + kind, "data: " + data]
    case Other(line) => [line]
  }

  function RenderAll(fs: seq<Frame>): seq<string> {
    if fs == [] then [] else Render(fs[0]) + RenderAll(fs[1..])
  }

  /** Frames that carry no part of the message itself: pings, block starts and stops, blank lines. */
  predicate IsNoise(f: Frame) {
    match f
    case Event(kind, _) => kind !in {"message_start", "content_block_delta", "message_delta", "message_stop"}
    case Other(line) => !("event: " <= line) && !("data: " <= line)
  }

  /** Frames between the start of the message and its end: deltas that decode, and noise. */
  predicate IsBody(dec: Decoder, f: Frame) {
    IsNoise(f) || (f.Event? && f.kind == "content_block_delta" && dec.delta(f.data).Some?)
  }

  /** The text pieces a frame carries: one for a text delta, none for the rest. */
  function Pieces(dec: Decoder, f: Frame): seq<string> {
    if && f.Event? && f.kind == "content_block_delta"
       && dec.delta(f.data).Some? && dec.delta(f.data).value.kind == "text_delta"
    then [dec.delta(f.data).value.text] else []
  }

  function AllPieces(dec: Decoder, fs: seq<Frame>): seq<string> {
    if fs == [] then [] else Pieces(dec, fs[0]) + AllPieces(dec, fs[1..])
  }

  function Join(pieces: seq<string>): string {
    if pieces == [] then "" else pieces[0] + Join(pieces[1..])
  }

  function TypeAfter(fs: seq<Frame>, kind: string): string {
    if fs == [] then kind else TypeAfter(fs[1..], if fs[0].Event? then fs[0].kind else kind)
  }

  /** The chunks of text pieces. */
  function TextChunks(id: string, model: string, pieces: seq<string>): seq<StreamEvent> {
    if pieces == [] then []
    else [Data(Chunk(id, model, pieces[0], None, None))] + TextChunks(id, model, pieces[1..])
  }

  lemma EventLines(kind: string, data: string)
    ensures EVENT <= EVENT + kind && (EVENT + kind)[|EVENT|..] == kind
    ensures DATA <= DATA + data && (DATA + data)[|DATA|..] == data
    ensures !(EVENT <= DATA + data)
  {
    assert (DATA + data)[0] == 'd' && EVENT[0] == 'e';
  }

  /** What follows an effect. */
  function Then(dec: Decoder, e: Effect, rest: seq<string>, broken: bool): seq<StreamEvent> {
    match e
    case Go(s, send) => Sent(send) + Emit(dec, s, rest, broken)
    case Return => []
    case Fail(f) => [Error(f)]
  }

  /** One event: its type is set, then its data is handled. */
  lemma EmitEvent(dec: Decoder, s: State, kind: string, data: string, rest: seq<string>, broken: bool)
    ensures Emit(dec, s, Render(Event(kind, data)) + rest, broken) ==
            Then(dec, OnData(dec, s.(eventType := kind), data), rest, broken)
  {
    EventLines(kind, data);
    var lines := Render(Event(kind, data)) + rest;
    assert lines[1..] == [DATA + data] + rest && ([DATA + data] + rest)[1..] == rest;
    EmitLine(dec, s, EVENT + kind, [DATA + data] + rest, broken);
    assert lines == [EVENT + kind] + ([DATA + data] + rest);
    EmitLine(dec, s.(eventType := kind), DATA + data, rest, broken);
  }

  lemma EmitLine(dec: Decoder, s: State, line: string, rest: seq<string>, broken: bool)
    ensures Emit(dec, s, [line] + rest, broken) ==
            Then(dec, OnLine(dec, s, line), rest, broken)
  {
    assert ([line] + rest)[1..] == rest;
  }

  lemma EmitBodyFrame(dec: Decoder, s: State, f: Frame, rest: seq<string>, broken: bool)
    requires IsBody(dec, f)
    ensures Emit(dec, s, Render(f) + rest, broken) ==
            TextChunks(s.id, s.model, Pieces(dec, f)) +
            Emit(dec, s.(eventType := if f.Event? then f.kind else s.eventType), rest, broken)
  {
    match f
    case Event(kind, data) =>
      EmitEvent(dec, s, kind, data, rest, broken);
      BodyData(dec, s, kind, data);
    case Other(line) =>
      EmitLine(dec, s, line, rest, broken);
  }

  /** The data of a body frame changes no variable but the type, and sends its text. */
  lemma BodyData(dec: Decoder, s: State, kind: string, data: string)
    requires IsBody(dec, Event(kind, data))
    ensures var e := OnData(dec, s.(eventType := kind), data);
            && e.Go? && e.state == s.(eventType := kind)
            && Sent(e.send) == TextChunks(s.id, s.model, Pieces(dec, Event(kind, data)))
  {
    var pieces := Pieces(dec, Event(kind, data));
    if pieces != [] {
      assert pieces[1..] == [];
    }
  }

  lemma {:induction false} ChunksAppend(id: string, model: string, p: seq<string>, q: seq<string>)
    ensures TextChunks(id, model, p + q) == TextChunks(id, model, p) + TextChunks(id, model, q)
  {
    if p == [] {
      assert p + q == q;
    } else {
      var first := [Data(Chunk(id, model, p[0], None, None))];
      calc {
        TextChunks(id, model, p + q);
        { assert (p + q)[0] == p[0] && (p + q)[1..] == p[1..] + q; }
        first + TextChunks(id, model, p[1..] + q);
        { ChunksAppend(id, model, p[1..], q); }
        first + (TextChunks(id, model, p[1..]) + TextChunks(id, model, q));
        TextChunks(id, model, p) + TextChunks(id, model, q);
      }
    }
  }

  /** A stretch of body frames emits one chunk per text delta. */
  lemma {:induction false} EmitBody(dec: Decoder, s: State, fs: seq<Frame>, rest: seq<string>, broken: bool)
    requires forall k :: 0 <= k < |fs| ==> IsBody(dec, fs[k])
    ensures Emit(dec, s, RenderAll(fs) + rest, broken) ==
            TextChunks(s.id, s.model, AllPieces(dec, fs)) +
            Emit(dec, s.(eventType := TypeAfter(fs, s.eventType)), rest, broken)
    decreases |fs|
  {
    if fs == [] {
      assert RenderAll(fs) + rest == rest;
      assert s.(eventType := s.eventType) == s;
    } else {
      var s' := s.(eventType := if fs[0].Event? then fs[0].kind else s.eventType);
      var more := RenderAll(fs[1..]) + rest;
      assert RenderAll(fs) + rest == Render(fs[0]) + more;
      EmitBodyFrame(dec, s, fs[0], more, broken);
      EmitBody(dec, s', fs[1..], rest, broken);
      Chained(dec, s, fs, Emit(dec, s.(eventType := TypeAfter(fs, s.eventType)), rest, broken));
    }
  }

  lemma Chained(dec: Decoder, s: State, fs: seq<Frame>, end: seq<StreamEvent>)
    requires fs != []
    ensures TextChunks(s.id, s.model, Pieces(dec, fs[0])) +
            (TextChunks(s.id, s.model, AllPieces(dec, fs[1..])) + end) ==
            TextChunks(s.id, s.model, AllPieces(dec, fs)) + end
  {
    ChunksAppend(s.id, s.model, Pieces(dec, fs[0]), AllPieces(dec, fs[1..]));
  }

  lemma {:induction false} NoiseHasNoText(dec: Decoder, fs: seq<Frame>)
    requires forall k :: 0 <= k < |fs| ==> IsNoise(fs[k])
    ensures AllPieces(dec, fs) == []
  {
    if fs != [] {
      NoiseHasNoText(dec, fs[1..]);
    }
  }

  /** The lines of a complete stream: noise, the start, deltas amid noise, the end, noise, the stop, and
      whatever follows. */
  function WholeStream(lead: seq<Frame>, start: string, body: seq<Frame>, end: string, trail: seq<Frame>,
                       stop: string, after: seq<string>): seq<string>
  {
    RenderAll(lead) + (Render(Event("message_start", start)) + (RenderAll(body) +
    (Render(Event("message_delta", end)) + (RenderAll(trail) + (Render(Event("message_stop", stop)) + after)))))
  }

  /** The stream is a cutting of the reply: its start and end carry the reply's fields, and its text
      deltas, however many and however cut, join to the texts of the reply's text blocks in order. */
  ghost predicate Streams(dec: Decoder, r: Response, lead: seq<Frame>, start: string, body: seq<Frame>, end: string,
                          trail: seq<Frame>)
  {
    && (forall k :: 0 <= k < |lead| ==> IsNoise(lead[k]))
    && (forall k :: 0 <= k < |body| ==> IsBody(dec, body[k]))
    && (forall k :: 0 <= k < |trail| ==> IsNoise(trail[k]))
    && dec.start(start) == Some(Start(r.id, r.model, r.inputTokens))
    && dec.end(end) == Some(End(r.stopReason, r.outputTokens))
    && exists texts :: Texts(r.content, texts) && Join(AllPieces(dec, body)) == Join(texts)
  }

  lemma StreamsText(dec: Decoder, r: Response, lead: seq<Frame>, start: string, body: seq<Frame>, end: string,
                    trail: seq<Frame>)
    requires Streams(dec, r, lead, start, body, end, trail)
    ensures Join(AllPieces(dec, body)) == TextOf(r.content)
  {
    var texts :| Texts(r.content, texts) && Join(AllPieces(dec, body)) == Join(texts);
    var o: seq<nat> :| Selects(r.content, o) && TextsAt(r.content, o, texts);
    SelectionJoins(r.content, o, texts);
  }

  function FinalChunk(c: Completion): Chunk {
    Chunk(c.id, c.model, "", Some(c.finishReason), Some(c.usage))
  }

  lemma EmitWhole(dec: Decoder, r: Response, lead: seq<Frame>, start: string, body: seq<Frame>, end: string,
                  trail: seq<Frame>, stop: string, after: seq<string>, broken: bool)
    requires Streams(dec, r, lead, start, body, end, trail)
    ensures Emit(dec, INITIAL, WholeStream(lead, start, body, end, trail, stop, after), broken) ==
            TextChunks(r.id, r.model, AllPieces(dec, body)) + [Data(FinalChunk(Translated(r)))]
  {
    var l6 := Render(Event(MESSAGE_STOP, stop)) + after;
    var l5 := RenderAll(trail) + l6;
    var l4 := Render(Event(MESSAGE_DELTA, end)) + l5;
    var l3 := RenderAll(body) + l4;
    var l2 := Render(Event(MESSAGE_START, start)) + l3;
    var s1 := INITIAL.(eventType := TypeAfter(lead, ""));
    var s2 := State(r.id, r.model, r.inputTokens, MESSAGE_START);
    var s3 := s2.(eventType := TypeAfter(body, MESSAGE_START));
    EmitBody(dec, INITIAL, lead, l2, broken);
    NoiseHasNoText(dec, lead);
    EmitEvent(dec, s1, MESSAGE_START, start, l3, broken);
    EmitBody(dec, s2, body, l4, broken);
    EmitEnd(dec, r, s3, end, trail, stop, after, broken);
  }

  lemma EmitEnd(dec: Decoder, r: Response, s: State, end: string, trail: seq<Frame>, stop: string,
                after: seq<string>, broken: bool)
    requires s.id == r.id && s.model == r.model && s.inputTokens == r.inputTokens
    requires forall k :: 0 <= k < |trail| ==> IsNoise(trail[k])
    requires dec.end(end) == Some(End(r.stopReason, r.outputTokens))
    ensures Emit(dec, s, Render(Event(MESSAGE_DELTA, end)) +
                         (RenderAll(trail) + (Render(Event(MESSAGE_STOP, stop)) + after)), broken)
         == [Data(FinalChunk(Translated(r)))]
  {
    hide Emit, OnData, Translated, Render, RenderAll;
    EmitEvent(dec, s, MESSAGE_DELTA, end, RenderAll(trail) + (Render(Event(MESSAGE_STOP, stop)) + after), broken);
    EndEffect(dec, r, s, end);
    EmitStop(dec, s.(eventType := MESSAGE_DELTA), trail, stop, after, broken);
  }

  lemma EndEffect(dec: Decoder, r: Response, s: State, end: string)
    requires s.id == r.id && s.model == r.model && s.inputTokens == r.inputTokens
    requires dec.end(end) == Some(End(r.stopReason, r.outputTokens))
    ensures var s' := s.(eventType := MESSAGE_DELTA); OnData(dec, s', end) == Go(s', [FinalChunk(Translated(r))])
  {
    hide TextOf;
  }

  lemma EmitStop(dec: Decoder, s: State, trail: seq<Frame>, stop: string, after: seq<string>, broken: bool)
    requires forall k :: 0 <= k < |trail| ==> IsNoise(trail[k])
    ensures Emit(dec, s, RenderAll(trail) + (Render(Event(MESSAGE_STOP, stop)) + after), broken) == []
  {
    EmitBody(dec, s, trail, Render(Event(MESSAGE_STOP, stop)) + after, broken);
    NoiseHasNoText(dec, trail);
    EmitEvent(dec, s.(eventType := TypeAfter(trail, s.eventType)), MESSAGE_STOP, stop, after, broken);
  }

  // ---- What the client makes of the chunks

  function Contents(events: seq<StreamEvent>): string {
    if events == [] then ""
    else (if events[0].Data? then events[0].chunk.content else "") + Contents(events[1..])
  }

  lemma {:induction false} ContentsOfChunks(id: string, model: string, pieces: seq<string>, last: Chunk)
    requires last.content == ""
    ensures Contents(TextChunks(id, model, pieces) + [Data(last)]) == Join(pieces)
  {
    var all := TextChunks(id, model, pieces) + [Data(last)];
    if pieces == [] {
      assert all == [Data(last)] && all[1..] == [];
    } else {
      ContentsOfChunks(id, model, pieces[1..], last);
      assert all[1..] == TextChunks(id, model, pieces[1..]) + [Data(last)];
    }
  }

  lemma {:induction false} ChunkFields(id: string, model: string, pieces: seq<string>)
    ensures |TextChunks(id, model, pieces)| == |pieces|
    ensures forall k :: 0 <= k < |pieces| ==>
              TextChunks(id, model, pieces)[k] == Data(Chunk(id, model, pieces[k], None, None))
  {
    if pieces != [] {
      ChunkFields(id, model, pieces[1..]);
    }
  }

  /** The events of a stream amount to the completion: no error, every chunk under its id and model, the
      contents joined are its content, and the last chunk, and only that, carries its finish reason and
      usage. */
  ghost predicate Amounts(events: seq<StreamEvent>, c: Completion) {
    && events != [] && NoErrors(events)
    && (forall k :: 0 <= k < |events| ==> events[k].chunk.id == c.id && events[k].chunk.model == c.model)
    && Contents(events) == c.content
    && (forall k :: 0 <= k < |events| - 1 ==> events[k].chunk.finishReason == None && events[k].chunk.usage == None)
    && events[|events| - 1].chunk.finishReason == Some(c.finishReason)
    && events[|events| - 1].chunk.usage == Some(c.usage)
  }

  /** Streaming and not streaming agree: every cutting of a reply, with any noise in it, emits chunks that
      amount to the translation of the reply. */
  lemma StreamAgrees(dec: Decoder, r: Response, lead: seq<Frame>, start: string, body: seq<Frame>, end: string,
                     trail: seq<Frame>, stop: string, after: seq<string>, broken: bool, c: Completion)
    requires Streams(dec, r, lead, start, body, end, trail) && IsTranslation(r, c)
    ensures Amounts(Emit(dec, INITIAL, WholeStream(lead, start, body, end, trail, stop, after), broken), c)
  {
    hide Emit, WholeStream, Amounts, Translated, TextChunks, TextOf;
    TranslationIs(r, c);
    StreamsText(dec, r, lead, start, body, end, trail);
    EmitWhole(dec, r, lead, start, body, end, trail, stop, after, broken);
    AmountsToReply(r, AllPieces(dec, body));
  }

  lemma AmountsToReply(r: Response, pieces: seq<string>)
    requires Join(pieces) == TextOf(r.content)
    ensures Amounts(TextChunks(r.id, r.model, pieces) + [Data(FinalChunk(Translated(r)))], Translated(r))
  {
    hide Contents, TextChunks, TextOf, Join;
    ContentsOfChunks(r.id, r.model, pieces, FinalChunk(Translated(r)));
    ChunkFields(r.id, r.model, pieces);
  }
}
