/** The order in which the middleware serves a request: reserve, handle, record. It discharges the
    hypotheses of the token overshoot bound for every interleaving of requests. */
module Middleware {
  import opened LimiterRuns
  import opened LimiterBounds

  /** A script run on behalf of some request, or a request that finishes without recording: a stream, an
      error, or a response that reports no tokens. */
  datatype Step = Run(event: Event) | Finish(owner: string)

  function Events(steps: seq<Step>): seq<Event> {
    if steps == [] then []
    else Events(steps[..|steps| - 1]) +
         match steps[|steps| - 1]
         case Run(e) => [e]
         case Finish(_) => []
  }

  /** The requests admitted and not yet finished. Recording is the last thing a request does. */
  ghost function InFlight(steps: seq<Step>, w: nat): set<string> {
    if steps == [] then {}
    else
      var before := InFlight(steps[..|steps| - 1], w);
      var run := Events(steps);
      match steps[|steps| - 1]
      case Finish(owner) => before - {owner}
      case Run(Event(_, _, Record(_, _, owner))) => before - {owner}
      case Run(Event(_, _, Check(_, _, id))) => if AdmittedAt(run, w, |run| - 1) then before + {id} else before
  }

  /** serve: only a request in flight finishes, and so records, and it does so once. */
  ghost predicate Allowed(steps: seq<Step>, w: nat, n: nat)
    requires n < |steps|
  {
    match steps[n]
    case Finish(owner) => owner in InFlight(steps[..n], w)
    case Run(e) => e.op.Record? ==> e.op.owner in InFlight(steps[..n], w)
  }

  ghost predicate Served(steps: seq<Step>, w: nat) {
    forall n :: 0 <= n < |steps| ==> Allowed(steps, w, n)
  }

  lemma {:induction false} EventsPrefix(steps: seq<Step>, n: nat)
    requires n <= |steps|
    ensures Events(steps[..n]) <= Events(steps)
    decreases |steps|
  {
    if n < |steps| {
      EventsPrefix(steps[..|steps| - 1], n);
      assert steps[..|steps| - 1][..n] == steps[..n];
    } else {
      assert steps[..n] == steps;
    }
  }

  /** The step that ran event p. */
  lemma {:induction false} StepOf(steps: seq<Step>, p: nat) returns (n: nat)
    requires p < |Events(steps)|
    ensures n < |steps| && steps[n] == Run(Events(steps)[p]) && Events(steps[..n]) == Events(steps)[..p]
    decreases |steps|
  {
    var front := steps[..|steps| - 1];
    if p < |Events(front)| {
      n := StepOf(front, p);
      assert front[..n] == steps[..n];
      assert Events(front)[..p] == Events(steps)[..p];
    } else {
      n := |steps| - 1;
      assert Events(steps)[..p] == Events(front);
    }
  }

  /** Being admitted at an event does not depend on what comes after it. */
  lemma AdmittedOnward(steps: seq<Step>, w: nat, n: nat)
    requires n <= |steps| && Events(steps[..n]) != []
    ensures var run := Events(steps[..n]); AdmittedAt(run, w, |run| - 1) ==> AdmittedAt(Events(steps), w, |run| - 1)
  {
    EventsPrefix(steps, n);
    var run, all := Events(steps[..n]), Events(steps);
    assert all[..|run| - 1] == run[..|run| - 1];
  }

  /** A request in flight after n steps was admitted in one of them. */
  lemma {:induction false} InFlightAdmitted(steps: seq<Step>, w: nat, n: nat, o: string) returns (i: nat)
    requires n <= |steps| && o in InFlight(steps[..n], w)
    ensures i < |Events(steps[..n])| && AdmittedAt(Events(steps), w, i) && Events(steps)[i].op.id == o
    decreases n
  {
    var before := steps[..n - 1];
    assert steps[..n][..n - 1] == before;
    EventsPrefix(steps[..n], n - 1);
    EventsPrefix(steps, n);
    if o in InFlight(before, w) {
      i := InFlightAdmitted(steps, w, n - 1, o);
    } else {
      i := |Events(steps[..n])| - 1;
      AdmittedOnward(steps, w, n);
    }
  }

  /** The step finishes request o. */
  ghost predicate Ends(s: Step, o: string) {
    match s
    case Finish(owner) => owner == o
    case Run(e) => e.op.Record? && e.op.owner == o
  }

  /** A request in flight after m steps that was checked within the first n was in flight then, and nothing
      in between finished it. */
  lemma {:induction false} InFlightSince(steps: seq<Step>, w: nat, n: nat, m: nat, o: string, i: nat)
    requires Fresh(Events(steps)) && n <= m <= |steps| && o in InFlight(steps[..m], w)
    requires i < |Events(steps[..n])| <= |Events(steps)| && Events(steps)[i].op.id == o
    ensures o in InFlight(steps[..n], w)
    ensures forall k :: n <= k < m ==> !Ends(steps[k], o)
    decreases m - n
  {
    if n < m {
      StillInFlight(steps, w, n, m, o, i);
      InFlightSince(steps, w, n, m - 1, o, i);
    }
  }

  lemma StillInFlight(steps: seq<Step>, w: nat, n: nat, m: nat, o: string, i: nat)
    requires Fresh(Events(steps)) && n < m <= |steps| && o in InFlight(steps[..m], w)
    requires i < |Events(steps[..n])| <= |Events(steps)| && Events(steps)[i].op.id == o
    ensures o in InFlight(steps[..m - 1], w) && !Ends(steps[m - 1], o)
  {
    var before, run := steps[..m - 1], Events(steps[..m]);
    assert steps[..m][..m - 1] == before && before[..n] == steps[..n];
    EventsPrefix(steps, m);
    EventsPrefix(before, n);
    if steps[m - 1].Run? {
      assert |run| == |Events(before)| + 1;
      assert Differ(Events(steps), i, |run| - 1);
    }
  }

  /** Every record comes after the admission of its request. */
  lemma RecordsFollowAdmission(steps: seq<Step>, w: nat)
    requires Served(steps, w)
    ensures AdmittedFirst(Events(steps), w)
  {
    var run := Events(steps);
    forall r | 0 <= r < |run| && run[r].op.Record?
      ensures exists i :: 0 <= i < r && AdmittedAt(run, w, i) && run[i].op.id == run[r].op.owner
    {
      var n := StepOf(steps, r);
      assert Allowed(steps, w, n);
      var i := InFlightAdmitted(steps, w, n, run[r].op.owner);
    }
  }

  /** No request records twice. */
  lemma RecordsOnce(steps: seq<Step>, w: nat)
    requires Served(steps, w) && Fresh(Events(steps))
    ensures OnceEach(Events(steps))
  {
    var run := Events(steps);
    forall q, r | 0 <= q < r < |run| && run[q].op.Record? && run[r].op.Record?
      ensures run[q].op.owner != run[r].op.owner
    {
      var n := StepOf(steps, q);
      var m := StepOf(steps, r);
      assert Allowed(steps, w, n) && Allowed(steps, w, m);
      InOrder(steps, n, m);
      var o := run[r].op.owner;
      if run[q].op.owner == o {
        var i := InFlightAdmitted(steps, w, n, o);
        EventsPrefix(steps, n);
        InFlightSince(steps, w, n, m, o, i);
        assert Ends(steps[n], o);
      }
    }
  }

  lemma InOrder(steps: seq<Step>, n: nat, m: nat)
    requires n <= |steps| && m <= |steps| && |Events(steps[..n])| < |Events(steps[..m])|
    ensures n < m
  {
    if m <= n {
      EventsMono(steps, m, n);
    }
  }

  lemma EventsMono(steps: seq<Step>, m: nat, n: nat)
    requires m <= n <= |steps|
    ensures |Events(steps[..m])| <= |Events(steps[..n])|
    ensures m < n && steps[m].Run? ==> |Events(steps[..m])| < |Events(steps[..n])|
  {
    EventsPrefix(steps[..n], m);
    assert steps[..n][..m] == steps[..m];
    if m < n {
      EventsPrefix(steps[..n], m + 1);
      assert steps[..n][..m + 1] == steps[..m + 1];
      assert steps[..m + 1][..m] == steps[..m];
    }
  }

  /** Whoever is outstanding at an event is in flight there. */
  lemma OutstandingIsInFlight(steps: seq<Step>, w: nat, p: nat) returns (n: nat)
    requires Served(steps, w) && Fresh(Events(steps)) && p <= |Events(steps)|
    ensures n <= |steps| && Outstanding(Events(steps), p) <= InFlight(steps[..n], w)
  {
    var run := Events(steps);
    if p == |run| {
      n := |steps|;
    } else {
      n := StepOf(steps, p);
      forall o | o in Outstanding(run, p) ensures o in InFlight(steps[..n], w) {
        var r :| p <= r < |run| && run[r].op.Record? && CheckedBefore(run, p, run[r].op.owner) && run[r].op.owner == o;
        OutstandingOne(steps, w, p, n, r);
      }
    }
  }

  lemma OutstandingOne(steps: seq<Step>, w: nat, p: nat, n: nat, r: nat)
    requires Served(steps, w) && Fresh(Events(steps))
    requires p <= r < |Events(steps)| && Events(steps)[r].op.Record?
    requires CheckedBefore(Events(steps), p, Events(steps)[r].op.owner)
    requires n < |steps| && steps[n].Run? && Events(steps[..n]) == Events(steps)[..p]
    ensures Events(steps)[r].op.owner in InFlight(steps[..n], w)
  {
    var run := Events(steps);
    var o := run[r].op.owner;
    var i :| 0 <= i < p && run[i].op.Check? && run[i].op.id == o;
    var m := StepOf(steps, r);
    assert Allowed(steps, w, m);
    if p < r {
      InOrder(steps, n, m);
      InFlightSince(steps, w, n, m, o, i);
    } else {
      StepIsUnique(steps, n, m);
    }
  }

  lemma StepIsUnique(steps: seq<Step>, n: nat, m: nat)
    requires n < |steps| && m < |steps| && steps[n].Run? && steps[m].Run?
    requires |Events(steps[..n])| == |Events(steps[..m])|
    ensures n == m
  {
    if n < m {
      EventsMono(steps, n, m);
    } else if m < n {
      EventsMono(steps, m, n);
    }
  }

  lemma StepsOvershootBound(steps: seq<Step>, w: nat, d: int, t: int, k: nat, m: nat, a: int, b: int)
    requires Served(steps, w) && Fresh(Events(steps)) && Drift(Events(steps), d, w)
    requires 0 < t && TpmLimited(Events(steps), t) && AtMost(Events(steps), m)
    requires forall n :: 0 <= n <= |steps| ==> |InFlight(steps[..n], w)| <= k
    requires b - a <= w - d
    ensures Recorded(Events(steps), a, b) < t + k * m
  {
    var run := Events(steps);
    forall p | 0 <= p <= |run| ensures |Outstanding(run, p)| <= k {
      var n := OutstandingIsInFlight(steps, w, p);
      Card(Outstanding(run, p), InFlight(steps[..n], w));
    }
    RecordsFollowAdmission(steps, w);
    RecordsOnce(steps, w);
    TokenOvershootBound(run, w, d, t, k, m, a, b);
  }

  // ---- serve, request by request

  /** Where an admitted request is inside serve. Requests are named by the identifier of their check; one
      that has not reserved yet has no position. */
  datatype Position = Handling | Finishing | Returned

  /** What a request does next: reserve; return from its handler, or leave serve by a panic that is
      recovered further out; and finish, with tokens to record or without. */
  datatype Action =
    | Reserve(event: Event)          // s.reserver.Reserve
    | HandlerReturns(owner: string)  // next.ServeHTTP
    | Records(event: Event)          // cw.finish calls RecordTokens
    | Skips(owner: string)           // cw.finish does not
    | Panics(owner: string)          // next.ServeHTTP panics, so that cw.finish never runs

  function StepOfAction(a: Action): seq<Step> {
    match a
    case Reserve(e) => [Run(e)]
    case HandlerReturns(_) => []
    case Records(e) => [Run(e)]
    case Skips(owner) => [Finish(owner)]
    case Panics(owner) => [Finish(owner)]
  }

  function Steps(actions: seq<Action>): seq<Step> {
    if actions == [] then [] else Steps(actions[..|actions| - 1]) + StepOfAction(actions[|actions| - 1])
  }

  /** The script runs of a sequence of actions. */
  function Trace(actions: seq<Action>): seq<Event> {
    Events(Steps(actions))
  }

  ghost function Moved(pos: map<string, Position>, a: Action, admitted: bool): map<string, Position> {
    match a
    case Reserve(e) => pos[e.op.id := if admitted then Handling else Returned]
    case HandlerReturns(owner) => pos[owner := Finishing]
    case Records(e) => if e.op.Record? then pos[e.op.owner := Returned] else pos
    case Skips(owner) => pos[owner := Returned]
    case Panics(owner) => pos[owner := Returned]
  }

  /** Where every request is after the actions. */
  ghost function Positions(actions: seq<Action>, w: nat): map<string, Position> {
    if actions == [] then map[]
    else
      var run := Trace(actions);
      var admitted := run != [] && AdmittedAt(run, w, |run| - 1);
      Moved(Positions(actions[..|actions| - 1], w), actions[|actions| - 1], admitted)
  }

  /** serve is sequential: each request takes its actions in order, and a rejected one takes no more. */
  ghost predicate CanTake(pos: map<string, Position>, a: Action) {
    match a
    case Reserve(e) => e.op.Check? && e.op.id !in pos
    case HandlerReturns(owner) => owner in pos && pos[owner] == Handling
    case Records(e) => e.op.Record? && e.op.owner in pos && pos[e.op.owner] == Finishing
    case Skips(owner) => owner in pos && pos[owner] == Finishing
    case Panics(owner) => owner in pos && pos[owner] == Handling
  }

  /** Any interleaving of any number of requests, each in its own order. */
  ghost predicate Serves(actions: seq<Action>, w: nat) {
    forall n :: 0 <= n < |actions| ==> CanTake(Positions(actions[..n], w), actions[n])
  }

  ghost function Unfinished(pos: map<string, Position>): set<string> {
    set o | o in pos && pos[o] != Returned
  }

  lemma ServesFront(actions: seq<Action>, w: nat)
    requires Serves(actions, w) && actions != []
    ensures Serves(actions[..|actions| - 1], w)
    ensures CanTake(Positions(actions[..|actions| - 1], w), actions[|actions| - 1])
  {
    hide Positions, CanTake;
    var front := actions[..|actions| - 1];
    forall n | 0 <= n < |front| ensures CanTake(Positions(front[..n], w), front[n]) {
      assert front[..n] == actions[..n];
    }
  }

  /** A request that is finishing was admitted, and its handler has returned since. */
  lemma {:induction false} FinishingTells(actions: seq<Action>, w: nat, o: string)
    requires Serves(actions, w) && o in Positions(actions, w) && Positions(actions, w)[o] != Returned
    ensures exists l :: ReservedAt(actions, w, l, o)
    ensures Positions(actions, w)[o] == Finishing ==>
              exists l, m :: l < m < |actions| && ReservedAt(actions, w, l, o) && actions[m] == HandlerReturns(o)
  {
    hide AdmittedAt, CanTake, Trace;
    var n := |actions| - 1;
    var front, a := actions[..n], actions[n];
    ServesFront(actions, w);
    if o in Positions(front, w) && Positions(front, w)[o] == Positions(actions, w)[o] {
      FinishingTells(front, w, o);
      var l :| ReservedAt(front, w, l, o);
      ReservedOnward(actions, w, l, o);
      if Positions(actions, w)[o] == Finishing {
        var l', m :| l' < m < |front| && ReservedAt(front, w, l', o) && front[m] == HandlerReturns(o);
        ReservedOnward(actions, w, l', o);
        assert actions[m] == HandlerReturns(o);
      }
    } else {
      NewPosition(actions, w, o);
      if a.HandlerReturns? {
        FinishingTells(front, w, o);
        var l :| ReservedAt(front, w, l, o);
        ReservedOnward(actions, w, l, o);
        assert l < n < |actions| && actions[n] == HandlerReturns(o);
      } else {
        assert ReservedAt(actions, w, n, o);
      }
    }
  }

  /** Action l reserved request o, and the reservation was allowed. */
  ghost predicate ReservedAt(actions: seq<Action>, w: nat, l: int, o: string) {
    && 0 <= l < |actions| && actions[l].Reserve? && actions[l].event.op.Check? && actions[l].event.op.id == o
    && var run := Trace(actions[..l + 1]); run != [] && AdmittedAt(run, w, |run| - 1)
  }

  lemma ReservedOnward(actions: seq<Action>, w: nat, l: int, o: string)
    requires actions != [] && ReservedAt(actions[..|actions| - 1], w, l, o)
    ensures ReservedAt(actions, w, l, o)
  {
    assert actions[..|actions| - 1][..l + 1] == actions[..l + 1];
  }

  lemma NewPosition(actions: seq<Action>, w: nat, o: string)
    requires actions != [] && o in Positions(actions, w) && Positions(actions, w)[o] != Returned
    requires CanTake(Positions(actions[..|actions| - 1], w), actions[|actions| - 1])
    requires var pos := Positions(actions[..|actions| - 1], w); o !in pos || pos[o] != Positions(actions, w)[o]
    ensures var n := |actions| - 1;
            var pos := Positions(actions[..n], w);
            || (actions[n] == HandlerReturns(o) && o in pos && pos[o] == Handling)
            || (ReservedAt(actions, w, n, o) && Positions(actions, w)[o] == Handling)
  {
    hide AdmittedAt, Moved, CanTake;
    var n, run := |actions| - 1, Trace(actions);
    assert actions[..n + 1] == actions;
    MovedTo(Positions(actions[..n], w), actions[n], run != [] && AdmittedAt(run, w, |run| - 1), o);
  }

  lemma MovedTo(pos: map<string, Position>, a: Action, admitted: bool, o: string)
    requires CanTake(pos, a) && o in Moved(pos, a, admitted) && Moved(pos, a, admitted)[o] != Returned
    requires o !in pos || pos[o] != Moved(pos, a, admitted)[o]
    ensures || (a == HandlerReturns(o) && o in pos && pos[o] == Handling)
            || (&& a.Reserve? && a.event.op.Check? && a.event.op.id == o && admitted
                && Moved(pos, a, admitted)[o] == Handling)
  {
  }

  /** serve in order: whoever finishes, recording or not, was admitted before, and its handler returned in
      between. */
  lemma FinishComesLast(actions: seq<Action>, w: nat, n: nat, o: string)
    requires Serves(actions, w) && n < |actions|
    requires || actions[n] == Skips(o)
             || (actions[n].Records? && actions[n].event.op.Record? && actions[n].event.op.owner == o)
    ensures exists l, m :: l < m < n && ReservedAt(actions[..n], w, l, o) && actions[m] == HandlerReturns(o)
  {
    hide Positions;
    assert CanTake(Positions(actions[..n], w), actions[n]);
    ServesPrefix(actions, w, n);
    FinishingTells(actions[..n], w, o);
  }

  lemma ServedSnoc(steps: seq<Step>, s: Step, w: nat)
    requires Served(steps, w) && Allowed(steps + [s], w, |steps|)
    ensures Served(steps + [s], w)
  {
    hide InFlight;
    var all := steps + [s];
    forall n | 0 <= n < |all| ensures Allowed(all, w, n) {
      if n < |steps| {
        assert Allowed(steps, w, n) && all[..n] == steps[..n];
      }
    }
  }

  /** The actions of requests that each keep to their own order are served: what is in flight is what is
      unfinished, only a request in flight finishes or records, and it does so once. */
  lemma {:induction false} ServesInOrder(actions: seq<Action>, w: nat)
    requires Serves(actions, w)
    ensures Served(Steps(actions), w)
    ensures InFlight(Steps(actions), w) == Unfinished(Positions(actions, w))
  {
    if actions != [] {
      var front, a := actions[..|actions| - 1], actions[|actions| - 1];
      ServesFront(actions, w);
      ServesInOrder(front, w);
      if a.HandlerReturns? {
        assert Steps(actions) == Steps(front);
        Waits(front, a, actions, w);
      } else {
        var s := StepOfAction(a)[0];
        Takes(front, a, s, actions, w);
        ServedSnoc(Steps(front), s, w);
      }
    }
  }

  lemma Waits(front: seq<Action>, a: Action, actions: seq<Action>, w: nat)
    requires actions != [] && front == actions[..|actions| - 1] && a == actions[|actions| - 1]
    requires a.HandlerReturns? && CanTake(Positions(front, w), a)
    ensures Unfinished(Positions(actions, w)) == Unfinished(Positions(front, w))
  {
    hide AdmittedAt, Trace;
  }

  lemma Takes(front: seq<Action>, a: Action, s: Step, actions: seq<Action>, w: nat)
    requires actions != [] && front == actions[..|actions| - 1] && a == actions[|actions| - 1]
    requires !a.HandlerReturns? && s == StepOfAction(a)[0] && CanTake(Positions(front, w), a)
    requires InFlight(Steps(front), w) == Unfinished(Positions(front, w))
    ensures Steps(actions) == Steps(front) + [s] && Allowed(Steps(actions), w, |Steps(front)|)
    ensures InFlight(Steps(actions), w) == Unfinished(Positions(actions, w))
  {
    hide AdmittedAt, InFlight, Moved, Positions, Unfinished, CanTake, Allowed, Steps, After;
    var run := Trace(actions);
    var admitted := run != [] && AdmittedAt(run, w, |run| - 1);
    Snoc(front, a, s, actions, w, admitted);
    AllowedNext(Steps(front), a, s, Positions(front, w), w);
    InFlightSnoc(Steps(front), s, w, run, admitted);
    MovedUnfinished(Positions(front, w), a, s, admitted);
  }

  lemma Snoc(front: seq<Action>, a: Action, s: Step, actions: seq<Action>, w: nat, admitted: bool)
    requires actions != [] && front == actions[..|actions| - 1] && a == actions[|actions| - 1]
    requires !a.HandlerReturns? && s == StepOfAction(a)[0]
    requires admitted == (Trace(actions) != [] && AdmittedAt(Trace(actions), w, |Trace(actions)| - 1))
    ensures Steps(actions) == Steps(front) + [s]
    ensures Positions(actions, w) == Moved(Positions(front, w), a, admitted)
  {
    hide AdmittedAt, Moved;
  }

  lemma AllowedNext(steps: seq<Step>, a: Action, s: Step, pos: map<string, Position>, w: nat)
    requires !a.HandlerReturns? && s == StepOfAction(a)[0] && CanTake(pos, a)
    requires InFlight(steps, w) == Unfinished(pos)
    ensures Allowed(steps + [s], w, |steps|)
  {
    hide InFlight;
    assert (steps + [s])[..|steps|] == steps;
  }

  /** Who is in flight after a step. */
  ghost function After(before: set<string>, s: Step, admitted: bool): set<string> {
    match s
    case Finish(owner) => before - {owner}
    case Run(e) =>
      if e.op.Record? then before - {e.op.owner} else if admitted then before + {e.op.id} else before
  }

  lemma InFlightSnoc(steps: seq<Step>, s: Step, w: nat, run: seq<Event>, admitted: bool)
    requires run == Events(steps + [s]) && admitted == (run != [] && AdmittedAt(run, w, |run| - 1))
    ensures InFlight(steps + [s], w) == After(InFlight(steps, w), s, admitted)
  {
    hide AdmittedAt;
    assert (steps + [s])[..|steps|] == steps;
  }

  lemma MovedUnfinished(pos: map<string, Position>, a: Action, s: Step, admitted: bool)
    requires !a.HandlerReturns? && s == StepOfAction(a)[0] && CanTake(pos, a)
    ensures Unfinished(Moved(pos, a, admitted)) == After(Unfinished(pos), s, admitted)
  {
  }

  /** Every prefix of the steps is the steps of a prefix of the actions. */
  lemma {:induction false} PrefixOfSteps(actions: seq<Action>, n: nat) returns (i: nat)
    requires n <= |Steps(actions)|
    ensures i <= |actions| && Steps(actions[..i]) == Steps(actions)[..n]
  {
    if n == |Steps(actions)| {
      i := |actions|;
      assert actions[..i] == actions && Steps(actions)[..n] == Steps(actions);
    } else {
      var front := actions[..|actions| - 1];
      i := PrefixOfSteps(front, n);
      assert front[..i] == actions[..i];
    }
  }

  lemma ServesPrefix(actions: seq<Action>, w: nat, i: nat)
    requires Serves(actions, w) && i <= |actions|
    ensures Serves(actions[..i], w)
  {
    hide Positions, CanTake;
    var front := actions[..i];
    forall n | 0 <= n < i ensures CanTake(Positions(front[..n], w), front[n]) {
      assert front[..n] == actions[..n];
    }
  }

  /** The token overshoot bound, for the middleware as it is: in every interleaving of requests that reserve,
      are handled, and then record at most m tokens or finish without recording, if never more than k
      admitted requests are unfinished, the tokens recorded in any (a, b] of length at most window - d
      stay below t + k*m. */
  lemma MiddlewareOvershootBound(actions: seq<Action>, w: nat, d: int, t: int, k: nat, m: nat, a: int, b: int)
    requires Serves(actions, w) && Fresh(Trace(actions)) && Drift(Trace(actions), d, w)
    requires 0 < t && TpmLimited(Trace(actions), t) && AtMost(Trace(actions), m)
    requires forall n :: 0 <= n <= |actions| ==> |Unfinished(Positions(actions[..n], w))| <= k
    requires b - a <= w - d
    ensures Recorded(Trace(actions), a, b) < t + k * m
  {
    hide Positions, Unfinished, InFlight, Serves, Served, Recorded;
    var steps := Steps(actions);
    forall n | 0 <= n <= |steps| ensures |InFlight(steps[..n], w)| <= k {
      var i := PrefixOfSteps(actions, n);
      ServesPrefix(actions, w, i);
      ServesInOrder(actions[..i], w);
    }
    ServesInOrder(actions, w);
    StepsOvershootBound(steps, w, d, t, k, m, a, b);
  }
}
