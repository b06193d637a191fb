/** What the owner's turns measure of the clock: waiting between turns and work
    inside them, from the turn that opened the node to the last answer. */
module Clock {
  import opened Bytes
  import opened Owner
  import opened Turns
  import R = Requests

  /** The milliseconds waited and worked, taken together. */
  function Measured(log: seq<Effect>): int {
    if log == [] then 0
    else (match log[0] case Polled(ms) => ms case Worked(ms) => ms case _ => 0) + Measured(log[1..])
  }

  lemma {:induction false} MeasuredAppend(a: seq<Effect>, b: seq<Effect>)
    ensures Measured(a + b) == Measured(a) + Measured(b)
  {
    if a == [] {
      assert a + b == b;
    } else {
      MeasuredAppend(a[1..], b);
      assert (a + b)[1..] == a[1..] + b;
    }
  }

  lemma MeasuredShort(log: seq<Effect>)
    requires |log| <= 2 && forall e | e in log :: !e.Polled? && !e.Worked?
    ensures Measured(log) == 0
  {
    if |log| == 2 { assert log[1..] == [log[1]]; }
  }

  lemma WireMeasuresNothing(state: State, q: R.Question, w: World)
    requires R.OfTheWire(q)
    ensures Measured(Replied(state, q, w).log) == 0
  {
    hide Measured;
    MeasuredShort(Replied(state, q, w).log);
  }

  lemma WalkMeasuresNothing(state: State, q: R.Question, w: World)
    requires !R.OfTheWire(q)
    ensures Measured(Replied(state, q, w).log) == 0
  {
    hide Measured;
    MeasuredShort(Replied(state, q, w).log);
  }

  /** One turn's share: the wait before it if there was a node to tell, the
      work in it if there is one to measure. */
  lemma AskMeasures(state: State, q: R.Question, w: World)
    ensures
      var t := Ask(state, q, w);
      && t.state.answeredMs == w.leftMs
      && Measured(t.log) == (if state.node.Some? then Gap(state.answeredMs, w.enteredMs) else 0)
                            + (if t.state.node.Some? then w.leftMs - w.enteredMs else 0)
  {
    hide Replied, Doing;
    var entered := Clocked(state, w.enteredMs, Doing(q));
    if R.OfTheWire(q) {
      WireMeasuresNothing(entered, q, w);
    } else {
      WalkMeasuresNothing(entered, q, w);
    }
    var turn := Replied(entered, q, w);
    var poll := if state.node.Some? then [Polled(WaitedSince(state.answeredMs, w.enteredMs))] else [];
    var work := if turn.state.node.Some? then [Worked(w.leftMs - w.enteredMs)] else [];
    MeasuredAppend(poll + turn.log, work);
    MeasuredAppend(poll, turn.log);
    assert Measured([]) == 0;
  }

  /** A clock that has started and never goes back, turn after turn. */
  ghost predicate Steady(lastMs: int, asked: seq<Asked>)
    decreases asked
  {
    asked == [] || (0 < asked[0].w.enteredMs && lastMs <= asked[0].w.enteredMs <= asked[0].w.leftMs
        && Steady(asked[0].w.leftMs, asked[1..]))
  }

  function LastLeft(lastMs: int, asked: seq<Asked>): int
    decreases asked
  {
    if asked == [] then lastMs else LastLeft(asked[0].w.leftMs, asked[1..])
  }

  /** When the turn that opened the node was entered, if one did. */
  function OpenedAt(state: State, asked: seq<Asked>): Option<int>
    decreases asked
  {
    if asked == [] then None
    else
      var t := Ask(state, asked[0].q, asked[0].w);
      if t.state.node.Some? then Some(asked[0].w.enteredMs) else OpenedAt(t.state, asked[1..])
  }

  /** With the node open, every millisecond is waited or worked, none twice. */
  lemma {:induction false} OpenClockConserved(state: State, asked: seq<Asked>)
    requires Inv(state) && state.node.Some? && state.answeredMs > 0 && Steady(state.answeredMs, asked)
    ensures Measured(Logs(state, asked)) == LastLeft(state.answeredMs, asked) - state.answeredMs
    decreases asked
  {
    hide Ask, Measured;
    if asked == [] {
      MeasuredShort([]);
    } else {
      var q, w := asked[0].q, asked[0].w;
      var t := Ask(state, q, w);
      AskKeeps(state, q, w);
      AskMeasures(state, q, w);
      OpenClockConserved(t.state, asked[1..]);
      MeasuredAppend(t.log, Logs(t.state, asked[1..]));
    }
  }

  /** Over any run with a steady clock, waited plus worked is the last answer's
      instant less the instant the opening turn was entered; nothing before. */
  lemma {:induction false} ClockConserved(state: State, asked: seq<Asked>)
    requires Inv(state) && state.node.None? && Steady(state.answeredMs, asked)
    ensures
      Measured(Logs(state, asked)) ==
      match OpenedAt(state, asked) case None => 0 case Some(openedMs) => LastLeft(state.answeredMs, asked) - openedMs
    decreases asked
  {
    hide Ask, Measured;
    if asked == [] {
      MeasuredShort([]);
    } else {
      var q, w := asked[0].q, asked[0].w;
      var t := Ask(state, q, w);
      AskKeeps(state, q, w);
      AskMeasures(state, q, w);
      MeasuredAppend(t.log, Logs(t.state, asked[1..]));
      if t.state.node.Some? {
        OpenClockConserved(t.state, asked[1..]);
      } else {
        ClockConserved(t.state, asked[1..]);
      }
    }
  }

  //
  // What the Pool itself has been told, said of instants and of its total.
  //

  ghost predicate NodeBack(outcome: Outcome<Following>, totalMs: int) {
    outcome.Ok? ==> outcome.value.pool.polledMs == totalMs
  }

  /** Every node and Pool a turn may be handed carries this total: nothing but the
      clock adds to it. */
  ghost predicate HandsBack(w: World, totalMs: int) {
    && (w.hearing.Ok? ==> w.hearing.value.pool.polledMs == totalMs)
    && NodeBack(w.dispatched, totalMs) && NodeBack(w.turned, totalMs) && NodeBack(w.drained, totalMs)
    && NodeBack(w.moved, totalMs) && NodeBack(w.measured, totalMs)
    && w.landed.state.pool.polledMs == totalMs && w.closed.pool.polledMs == totalMs
    && (w.caller.Ok? ==> w.caller.value.state.pool.polledMs == totalMs)
    && (w.taken.Ok? ==> w.taken.value.state.pool.polledMs == totalMs)
    && (w.asked.Ok? ==> w.asked.value.walked.state.pool.polledMs == totalMs)
    && (w.batched.Ok? ==> w.batched.value.walked.state.pool.polledMs == totalMs)
    && (w.aligning.Ok? ==> w.aligning.value.walked.state.pool.polledMs == totalMs)
    && (w.flown.Ok? ==> w.flown.value.walked.state.pool.polledMs == totalMs)
    && (w.chunking.Ok? ==> w.chunking.value.walked.state.pool.polledMs == totalMs)
    && (w.stepping.Ok? ==> w.stepping.value.walked.state.pool.polledMs == totalMs)
    && (w.chunked.Ok? ==> w.chunked.value.walked.state.pool.polledMs == totalMs)
    && (w.onward.Ok? ==>
          (if w.onward.value.Next? then w.onward.value.walked.state else w.onward.value.after).pool.polledMs == totalMs)
  }

  function TotalMs(state: State): int {
    if state.node.Some? then state.node.value.pool.polledMs else 0
  }

  /** The run's Worlds hand the total back as they found it, the wait added. */
  ghost predicate AllHandBack(state: State, asked: seq<Asked>)
    decreases asked
  {
    asked == [] || (
      var w := asked[0].w;
      && (state.node.Some? ==>
            HandsBack(w, TotalMs(state) + Gap(state.answeredMs, w.enteredMs)))
      && AllHandBack(Ask(state, asked[0].q, w).state, asked[1..]))
  }

  lemma HandKeepsTotal(state: State, q: R.Question, w: World)
    requires state.node.Some? && HandsBack(w, TotalMs(state))
    ensures
      var taken := Taking(state, HandedBy(state, q, w), w);
      taken.node.Some? && TotalMs(taken) == TotalMs(state)
  {
    hide HandsBack, HandedBy;
    HandBack(state, q, w);
  }

  /** Whatever is in this hand carries the total. */
  ghost predicate Carries(hand: Hand, w: World, totalMs: int) {
    match hand
    case OfPool(pool) => pool.polledMs == totalMs
    case OfNode(node) => node.pool.polledMs == totalMs
    case OfBoth(walked) => walked.state.pool.polledMs == totalMs
    case OfFlight(filed) => filed.state.pool.polledMs == totalMs
    case Down(node) => node.pool.polledMs == totalMs
    case _ => w.closed.pool.polledMs == totalMs
  }

  lemma WireCarries(node: Following, catching: Option<Catching>, q: R.Question, w: World, totalMs: int)
    requires R.OfTheWire(q) && HandsBack(w, totalMs)
    ensures Carries(HandWire(node, catching, q, w), w, totalMs)
  {
  }

  lemma StepCarries(node: Following, one: Catching, q: R.Question, w: World, totalMs: int)
    requires !R.OfTheWire(q) && !q.Due? && !q.Settled? && HandsBack(w, totalMs)
    ensures Carries(HandStep(node, one, q, w), w, totalMs)
  {
  }

  lemma SettledCarries(ending: R.Ending, w: World, totalMs: int)
    requires HandsBack(w, totalMs)
    ensures Carries(HandSettled(ending, w), w, totalMs)
  {
  }

  lemma DueCarries(w: World, totalMs: int)
    requires HandsBack(w, totalMs)
    ensures w.closed.pool.polledMs == totalMs
    ensures w.taken.Ok? ==> w.taken.value.state.pool.polledMs == totalMs
  {
  }

  lemma HandBack(state: State, q: R.Question, w: World)
    requires state.node.Some? && HandsBack(w, TotalMs(state))
    ensures Carries(HandedBy(state, q, w), w, TotalMs(state))
  {
    hide HandsBack, HandWire, HandStep, HandSettled, TotalMs;
    var totalMs := TotalMs(state);
    DueCarries(w, totalMs);
    if R.OfTheWire(q) {
      WireCarries(state.node.value, state.catching, q, w, totalMs);
    } else if q.Settled? {
      SettledCarries(q.ending, w, totalMs);
    } else if !q.Due? && state.catching.Some? {
      StepCarries(state.node.value, state.catching.value, q, w, totalMs);
    }
  }

  /** One turn of an open node adds the wait before it and nothing else. */
  lemma TurnAddsTheWait(state: State, q: R.Question, w: World)
    requires state.node.Some?
    requires HandsBack(w, TotalMs(state) + Gap(state.answeredMs, w.enteredMs))
    ensures
      var after := Ask(state, q, w).state;
      && after.node.Some? && after.answeredMs == w.leftMs
      && TotalMs(after) == TotalMs(state) + Gap(state.answeredMs, w.enteredMs)
  {
    hide Ask, Clocked, Doing, HandedBy, Taking, FirstAfter, ParksRight, AnswersRight;
    EveryTurnTakesItsHand(state, q, w);
    HandKeepsTotal(Clocked(state, w.enteredMs, Doing(q)), q, w);
  }

  function WorkMs(asked: seq<Asked>): int {
    if asked == [] then 0 else asked[0].w.leftMs - asked[0].w.enteredMs + WorkMs(asked[1..])
  }

  /** With the node open and a steady clock, what the Pool's total has grown by
      and the work of the turns make up the time from answer to answer. */
  lemma {:induction false} PoolIsToldTheRest(state: State, asked: seq<Asked>)
    requires state.node.Some? && state.answeredMs > 0 && Steady(state.answeredMs, asked) && AllHandBack(state, asked)
    ensures
      var after := Runs(state, asked);
      && after.node.Some?
      && TotalMs(after) - TotalMs(state) + WorkMs(asked) == LastLeft(state.answeredMs, asked) - state.answeredMs
    decreases asked
  {
    hide Ask, HandsBack;
    if asked != [] {
      var q, w := asked[0].q, asked[0].w;
      TurnAddsTheWait(state, q, w);
      PoolIsToldTheRest(Ask(state, q, w).state, asked[1..]);
    }
  }

  /** The state the turn that opened the node left, and the turns behind it. */
  datatype Opening = Opening(enteredMs: int, state: State, rest: seq<Asked>)

  function OpeningOf(state: State, asked: seq<Asked>): Option<Opening>
    decreases asked
  {
    if asked == [] then None
    else
      var after := Ask(state, asked[0].q, asked[0].w).state;
      if after.node.Some? then Some(Opening(asked[0].w.enteredMs, after, asked[1..])) else OpeningOf(after, asked[1..])
  }

  /** From the start: the Pool's total at the end, less what the node opened with,
      and the work since, opening included, are the last answer's instant less
      the one the opening turn was entered at. */
  lemma {:induction false} PoolIsToldFromTheOpening(state: State, asked: seq<Asked>)
    requires state.node.None? && Steady(state.answeredMs, asked) && AllHandBack(state, asked)
    ensures
      match OpeningOf(state, asked)
      case None => Runs(state, asked).node.None?
      case Some(opening) =>
        TotalMs(Runs(state, asked)) - TotalMs(opening.state) + (opening.state.answeredMs - opening.enteredMs)
        + WorkMs(opening.rest) == LastLeft(state.answeredMs, asked) - opening.enteredMs
    decreases asked
  {
    hide Ask, HandsBack;
    if asked != [] {
      var q, w := asked[0].q, asked[0].w;
      var after := Ask(state, q, w).state;
      AskMeasures(state, q, w);
      if after.node.Some? {
        PoolIsToldTheRest(after, asked[1..]);
      } else {
        PoolIsToldFromTheOpening(after, asked[1..]);
      }
    }
  }
}
