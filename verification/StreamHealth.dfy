/** The Anthropic stream behind the health-tracking provider: what a stream that its context cuts short
    records against the provider. */
module StreamHealth {
  import opened Values
  import Anthropic = AnthropicStream
  import Retry

  type Event = Retry.StreamEvent<Anthropic.Chunk>

  /** What the tracker receives; describe is the text of an error. */
  function Passed(events: seq<Anthropic.StreamEvent>, describe: Anthropic.Failure -> string): (r: seq<Event>)
    ensures |r| == |events|
  {
    if events == [] then []
    else Passed(events[..|events| - 1], describe) + [PassedOne(events[|events| - 1], describe)]
  }

  function PassedOne(e: Anthropic.StreamEvent, describe: Anthropic.Failure -> string): Event {
    match e
    case Data(chunk) => Retry.Chunk(chunk)
    case Error(f) => Retry.StreamErr(Retry.OtherError(describe(f)))
  }

  lemma {:induction false} NoErrorPassed(events: seq<Anthropic.StreamEvent>, describe: Anthropic.Failure -> string)
    requires Anthropic.NoErrors(events)
    ensures Retry.LastStreamErr(Passed(events, describe)) == None
  {
    if events != [] {
      var n := |events| - 1;
      NoErrorPassed(events[..n], describe);
      assert Passed(events, describe)[..n] == Passed(events[..n], describe);
    }
  }

  /** Some line ends the message, and every line up to it decodes. */
  ghost predicate Whole(dec: Anthropic.Decoder, lines: seq<string>) {
    exists n :: 0 <= n < |lines| && Anthropic.Stops(lines, n) &&
                forall j :: 0 <= j <= n ==> !Anthropic.Undecodable(dec, lines, j)
  }

  /** The events the adapter sends, and those it would send if its context were never done. */
  function Sent(dec: Anthropic.Decoder, lines: seq<string>, broken: bool, done: nat -> bool)
    : seq<Anthropic.StreamEvent>
  {
    Anthropic.EmitUntil(dec, Anthropic.INITIAL, lines, broken, done, 0)
  }

  function Uncut(dec: Anthropic.Decoder, lines: seq<string>, broken: bool): seq<Anthropic.StreamEvent> {
    Anthropic.Emit(dec, Anthropic.INITIAL, lines, broken)
  }

  /** The tracker finds the context done with an event in hand. */
  ghost predicate Noticed(events: seq<Anthropic.StreamEvent>, gone: nat -> bool) {
    exists k :: 0 <= k < |events| && gone(k)
  }

  /** What is recorded, by every course a stream can take. */
  ghost predicate Recorded(dec: Anthropic.Decoder, lines: seq<string>, broken: bool, done: nat -> bool,
                           gone: nat -> bool, health: seq<Retry.Health>)
  {
    var events := Sent(dec, lines, broken, done);
    if Noticed(events, gone) then health == []
    else if events == Uncut(dec, lines, broken) && !Whole(dec, lines)
    then |health| == 1 && health[0].Failure? && health[0].error.Some?
    else health == [Retry.Success]
  }

  /** An error is the last event, if there is one: so what is left of a cut stream holds none, and of an
      uncut one exactly if it is not whole. */
  lemma LastError(dec: Anthropic.Decoder, lines: seq<string>, broken: bool, done: nat -> bool,
                  describe: Anthropic.Failure -> string)
    ensures var events := Sent(dec, lines, broken, done);
            Retry.LastStreamErr(Passed(events, describe)).Some? <==>
              events == Uncut(dec, lines, broken) && !Whole(dec, lines)
  {
    var events, all := Sent(dec, lines, broken, done), Uncut(dec, lines, broken);
    Anthropic.CancelledIsPrefix(dec, Anthropic.INITIAL, lines, broken, done, 0);
    Anthropic.ErrorIffCut(dec, lines, broken);
    if Whole(dec, lines) {
      assert Anthropic.NoErrors(all);
      NoErrorPassed(events, describe);
    } else if events == all {
      LastOf(events, describe);
    } else {
      CutHasNoError(events, all);
      NoErrorPassed(events, describe);
    }
  }

  lemma LastOf(events: seq<Anthropic.StreamEvent>, describe: Anthropic.Failure -> string)
    requires Anthropic.OneErrorLast(events)
    ensures Retry.LastStreamErr(Passed(events, describe)).Some?
  {
  }

  lemma CutHasNoError(events: seq<Anthropic.StreamEvent>, all: seq<Anthropic.StreamEvent>)
    requires Anthropic.OneErrorLast(all) && events <= all && events != all
    ensures Anthropic.NoErrors(events)
  {
    var front := all[..|all| - 1];
    forall k | 0 <= k < |events| ensures events[k].Data? {
      assert events[k] == front[k];
    }
  }

  /** The adapter's stream, tracked. It records nothing if and only if the tracker finds the context done
      with an event in hand; a stream that is cut before that, because the adapter sees the context
      first and closes its channel, is recorded as a success, and only an uncut stream as a failure. */
  method TrackedStream(dec: Anthropic.Decoder, lines: seq<string>, broken: bool, done: nat -> bool,
                       gone: nat -> bool, describe: Anthropic.Failure -> string)
    returns (out: seq<Event>, health: seq<Retry.Health>)
    ensures Recorded(dec, lines, broken, done, gone, health)
    ensures out <= Passed(Uncut(dec, lines, broken), describe)
  {
    var events := Anthropic.StreamLoop(dec, lines, broken, done);
    out, health := Retry.TrackStreamHealth(Passed(events, describe), gone);
    LastError(dec, lines, broken, done, describe);
    Retry.ConcludedIs(Passed(events, describe), health);
    Anthropic.CancelledIsPrefix(dec, Anthropic.INITIAL, lines, broken, done, 0);
    PassedPrefix(events, Uncut(dec, lines, broken), describe);
  }

  lemma {:induction false} PassedPrefix(events: seq<Anthropic.StreamEvent>, all: seq<Anthropic.StreamEvent>,
                                        describe: Anthropic.Failure -> string)
    requires events <= all
    ensures Passed(events, describe) <= Passed(all, describe)
    decreases |all|
  {
    if events != all {
      PassedPrefix(events, all[..|all| - 1], describe);
    }
  }

  /** A context that is done before the first line: whatever the lines are, nothing is sent and a success
      is recorded, however early the tracker would have found the context done. */
  lemma CutBeforeTheFirstLine(dec: Anthropic.Decoder, lines: seq<string>, broken: bool, done: nat -> bool,
                              gone: nat -> bool, describe: Anthropic.Failure -> string,
                              out: seq<Event>, health: seq<Retry.Health>)
    requires done(0) && Retry.Tracked(Passed(Sent(dec, lines, broken, done), describe), gone, out, health)
    ensures out == [] && health == [Retry.Success]
  {
    assert Sent(dec, lines, broken, done) == [];
  }
}
