/** app/owner.av: the one owner of a following node, answering fourteen
    questions one at a time. What Infra.Follow, Infra.Peers, Domain.Connect and
    the clock answer it is any value of its type, handed in as a World. */
module Owner {
  import opened Bytes
  import R = Requests

  datatype Outcome<+T> = Ok(value: T) | Err(why: string)

  /** As much of the node as the owner itself looks at; other stands for the
      rest of it. */
  datatype Pool = Pool(seated: seq<int>, greeted: seq<int>, polledMs: int)
  datatype Following = Following(pool: Pool, leaving: bool, listening: bool, pollReturnedMs: int, handling: string,
      other: int)

  /** As much of the Catch-up as the owner itself looks at. */
  datatype Catching = Catching(key: int, askedMs: int, reply: Option<seq<int>>, flying: bool, setting: Option<int>,
      other: int)

  datatype Walked = Walked(state: Following, catching: Catching)

  /** A Block filed, or the download grounded by it: the node, and the flight and
      its eye in the Catch-up's other parts. */
  datatype Filed = Filed(state: Following, other: int)

  datatype Hearing = Spoke(pool: Pool, command: string, body: seq<int>) | Went(pool: Pool)
      | Quiet(pool: Pool, dueMs: int)
  datatype Admitted = Admitted(state: Following, failed: bool)
  datatype Asking = Sent(walked: Walked) | Paused(walked: Walked)
  datatype Batched = Batched(walked: Walked, more: bool)
  datatype Aligning = Ready(walked: Walked) | Refused(walked: Walked, why: string)
  datatype Flown = Going(walked: Walked, ms: int) | Sliced(walked: Walked) | Landed(walked: Walked)
      | Faulted(walked: Walked, why: string)
  datatype Chunking = Begun(walked: Walked, height: int) | Refused(walked: Walked, why: string)
  datatype Stepping = Parked(walked: Walked) | Next(walked: Walked) | Ended(walked: Walked)
      | Refused(walked: Walked, why: string)
  datatype Chunked = Built(walked: Walked, atTip: bool) | Refused(walked: Walked, why: string)
  datatype Onward = Next(walked: Walked) | Rest(after: Following)
  datatype Refusal = Refusal(blockId: string, reason: string)
  datatype Nothing = Nothing

  /** Everything one turn may be told: two readings of the clock around it and
      one inside it, and what each call it may make would answer. */
  datatype World = World(
    enteredMs: int, nowMs: int, leftMs: int,
    planned: Option<Outcome<Nothing>>, opening: Outcome<Following>,
    hearing: Outcome<Hearing>, dispatched: Outcome<Following>, landed: Filed,
    stopRequested: bool, stopAsked: Following, turned: Outcome<Following>,
    caller: Outcome<Admitted>, drained: Outcome<Following>, serving: bool, owed: bool,
    claim: Option<int>, taken: Outcome<Walked>,
    asked: Outcome<Asking>, batched: Outcome<Batched>, aligning: Outcome<Aligning>, flown: Outcome<Flown>,
    chunking: Outcome<Chunking>, stepping: Outcome<Stepping>, chunked: Outcome<Chunked>,
    moved: Outcome<Following>, onward: Outcome<Onward>, chainStopped: Outcome<Following>,
    refusal: Option<Refusal>, closed: Following, measured: Outcome<Following>,
    answerDeadlineMs: int, tickMs: int)

  datatype State = State(node: Option<Following>, catching: Option<Catching>, over: bool, first: bool, answeredMs: int)

  function Fresh(): State {
    State(None, None, false, true, 0)
  }

  /** What a request that cannot be answered yet waits for; which sockets and
      which job is left out. */
  datatype Wake = Until(ms: Option<int>) | Settled(ms: Option<int>)

  datatype Reply = Answer(said: R.Said) | Park(wake: Wake)

  /** What a turn does beside moving the state: the node shut down with the
      Catch-up it put down, a node that never started, Run.fail, and the two
      measurements of the clock. */
  datatype Effect =
    | Shut(held: Option<Catching>, outcome: Outcome<Nothing>)
    | NotStarted
    | RunFail(why: string)
    | Polled(ms: int)
    | Worked(ms: int)

  datatype Turn = Turn(state: State, reply: Reply, log: seq<Effect>)

  function Said(state: State, said: R.Said): Turn { Turn(state, Answer(said), []) }
  function Waits(state: State, wake: Wake): Turn { Turn(state, Park(wake), []) }

  //
  // The clock around every turn.
  //

  function WaitedSince(answeredMs: int, enteredMs: int): int {
    if answeredMs <= 0 then 0 else if enteredMs - answeredMs > 0 then enteredMs - answeredMs else 0
  }

  function PollReturned(node: Following, waitedMs: int, nowMs: int, doing: string): Following {
    var waited := if waitedMs > 0 then waitedMs else 0;
    node.(pool := node.pool.(polledMs := node.pool.polledMs + waited), pollReturnedMs := nowMs, handling := doing)
  }

  function Clocked(state: State, enteredMs: int, doing: string): State {
    match state.node
    case None => state
    case Some(node) => WithNode(state, PollReturned(node, WaitedSince(state.answeredMs, enteredMs), enteredMs, doing))
  }

  function Answered(state: State, measured: Outcome<Following>, leftMs: int): State {
    match state.node
    case None => state.(answeredMs := leftMs)
    case Some(node) =>
      match measured
      case Err(_) => WithNode(state, node).(answeredMs := leftMs)
      case Ok(after) => WithNode(state, after).(answeredMs := leftMs)
  }

  function WithNode(state: State, node: Following): State {
    state.(node := Some(node))
  }

  function FromWalked(state: State, walked: Walked): State {
    state.(node := Some(walked.state), catching := Some(walked.catching))
  }

  function WithPool(node: Following, pool: Pool): Following {
    node.(pool := pool)
  }

  function Peers(state: State): seq<int> {
    if state.over then []
    else
      match state.node
      case None => []
      case Some(node) => node.pool.seated
  }

  /** closing, then this answer. */
  function Closing(state: State, outcome: Outcome<Nothing>, w: World, said: R.Said): Turn {
    Turn(state.(node := Some(w.closed), catching := None, over := true), Answer(said),
         [Shut(state.catching, outcome)] + if outcome.Err? then [RunFail(outcome.why)] else [])
  }

  //
  // infra/wire.av
  //

  function StartedAnswered(state: State, w: World): Turn {
    if state.node.Some? then Said(state, R.SaidStarted(R.Running))
    else if state.over then Said(state, R.SaidStarted(R.Started.Failed("closed")))
    else
      match w.planned
      case None => FailedStart(state, "no follow")
      case Some(Err(why)) => FailedStart(state, why)
      case Some(Ok(_)) =>
        match w.opening
        case Err(why) => FailedStart(state, why)
        case Ok(node) => Said(WithNode(state, node), R.SaidStarted(R.Running))
  }

  function FailedStart(state: State, why: string): Turn {
    Turn(state.(over := true), Answer(R.SaidStarted(R.Started.Failed(why))), [NotStarted, RunFail(why)])
  }

  function HeardAnswered(state: State, key: int, w: World): Turn {
    if state.over then Said(state, R.SaidHeard(R.Gone))
    else
      match state.node
      case None => Waits(state, Settled(None))
      case Some(node) =>
        match w.hearing
        case Err(why) => Closing(state, Err(why), w, R.SaidHeard(R.Gone))
        case Ok(Spoke(pool, command, body)) =>
            Said(WithNode(state, WithPool(node, pool)), R.SaidHeard(R.Message(command, body)))
        case Ok(Went(pool)) => Said(WithNode(state, WithPool(node, pool)), R.SaidHeard(R.Gone))
        case Ok(Quiet(pool, dueMs)) =>
            Waits(WithNode(state, WithPool(node, pool)), Until(QuietDeadline(dueMs, w.nowMs)))
  }

  function QuietDeadline(dueMs: int, nowMs: int): Option<int> {
    if dueMs <= 0 then None else Some(if dueMs > nowMs then dueMs - nowMs else 0)
  }

  predicate WantsHeaders(catching: Option<Catching>, key: int, command: string) {
    catching.Some? && command == "headers" && catching.value.key == key && catching.value.askedMs > 0
        && catching.value.reply.None?
  }

  /** infra/follow.av puts the flight back and moves nothing else of the Catch-up. */
  function BlockLanded(one: Catching, filed: Filed): Walked {
    Walked(filed.state, one.(other := filed.other))
  }

  function HandledAnswered(state: State, key: int, command: string, body: seq<int>, w: World): Turn {
    if state.over || state.node.None? then Said(state, R.SaidHandled(false))
    else if WantsHeaders(state.catching, key, command) then
      Said(state.(catching := Some(state.catching.value.(reply := Some(body)))), R.SaidHandled(true))
    else if state.catching.Some? && command == "block" && state.catching.value.flying then
      var walked := BlockLanded(state.catching.value, w.landed);
      Said(FromWalked(state, walked), R.SaidHandled(key in walked.state.pool.seated))
    else
      match w.dispatched
      case Err(why) => Closing(state, Err(why), w, R.SaidHandled(false))
      case Ok(after) => Said(WithNode(state, after), R.SaidHandled(key in after.pool.seated))
  }

  function TickedAnswered(state: State, w: World): Turn {
    if state.over then Said(state, R.SaidTurned(R.Turned.Over))
    else
      match state.node
      case None => Waits(state, Settled(None))
      case Some(node) =>
        if w.stopRequested || node.leaving then
          Closing(WithNode(state, w.stopAsked), Ok(Nothing), w, R.SaidTurned(R.Turned.Over))
        else
          match w.turned
          case Err(why) => Closing(state, Err(why), w, R.SaidTurned(R.Turned.Over))
          case Ok(after) => Waits(WithNode(state, after), Until(Some(w.tickMs)))
  }

  function AcceptedAnswered(state: State, w: World): Turn {
    if state.over then Said(state, R.SaidTurned(R.Turned.Over))
    else
      match state.node
      case None => Waits(state, Settled(None))
      case Some(node) =>
        if !node.listening then Said(state, R.SaidTurned(R.Turned.Over))
        else
          match w.caller
          case Err(why) => Closing(state, Err(why), w, R.SaidTurned(R.Turned.Over))
          case Ok(one) => Waits(WithNode(state, one.state), Until(Some(w.tickMs)))
  }

  function DrainedAnswered(state: State, w: World): Turn {
    if state.over then Said(state, R.SaidTurned(R.Turned.Over))
    else
      match state.node
      case None => Waits(state, Settled(None))
      case Some(node) =>
        match w.drained
        case Err(why) => Closing(state, Err(why), w, R.SaidTurned(R.Turned.Over))
        case Ok(after) =>
          var wake := if w.owed then Until(None) else if w.serving then Until(Some(0)) else Settled(None);
          Waits(WithNode(state, after), wake)
  }

  //
  // infra/catching.av
  //

  function DueAnswered(state: State, w: World): Turn {
    if state.over then Said(state, R.SaidDue(R.Due.Over))
    else if state.node.None? then Waits(state, Settled(None))
    else if state.catching.Some? then Said(state, R.SaidDue(R.From(state.catching.value.key)))
    else
      match w.claim
      case None => Waits(state, Settled(Some(1000)))
      case Some(_) =>
        var asked := state.(first := false);
        match w.taken
        case Err(why) => Closing(asked, Err(why), w, R.SaidDue(R.Due.Over))
        case Ok(walked) => Said(FromWalked(asked, walked), R.SaidDue(R.From(walked.catching.key)))
  }

  /** Nothing to walk: over, no node, or no Catch-up. */
  predicate Idle(state: State) {
    state.over || state.node.None? || state.catching.None?
  }

  /** The reasons the owner gives itself are shortened here and below. */
  function HeadersAnswered(state: State, key: int, w: World): Turn {
    if Idle(state) then Said(state, R.SaidBatch(R.Batch.Over))
    else
      var one := state.catching.value;
      if one.askedMs == 0 then
        match w.asked
        case Err(why) => Said(state, R.SaidBatch(R.Batch.Failed(why)))
        case Ok(Sent(walked)) => Waits(FromWalked(state, walked), Settled(Some(w.answerDeadlineMs)))
        case Ok(Paused(walked)) => Said(FromWalked(state, walked), R.SaidBatch(R.Batch.Done))
      else if one.reply.Some? then
        match w.batched
        case Err(why) => Said(state, R.SaidBatch(R.Batch.Failed(why)))
        case Ok(batched) =>
          Said(FromWalked(state, batched.walked), R.SaidBatch(if batched.more then R.Batch.More else R.Batch.Done))
      else if one.key !in state.node.value.pool.greeted then
        Said(state, R.SaidBatch(R.Batch.Failed("gone")))
      else if w.nowMs - one.askedMs > w.answerDeadlineMs then
        Said(state, R.SaidBatch(R.Batch.Failed("late")))
      else Waits(state, Settled(Some(one.askedMs + w.answerDeadlineMs - w.nowMs)))
  }

  function AlignedAnswered(state: State, key: int, w: World): Turn {
    if Idle(state) then Said(state, R.SaidAligned(R.Aligned.Over))
    else
      match w.aligning
      case Err(why) => Said(state, R.SaidAligned(R.Aligned.Stopped(why)))
      case Ok(Ready(walked)) => Said(FromWalked(state, walked), R.SaidAligned(R.Ready))
      case Ok(Refused(walked, why)) => Said(FromWalked(state, walked), R.SaidAligned(R.Aligned.Stopped(why)))
  }

  function FetchedAnswered(state: State, key: int, w: World): Turn {
    if Idle(state) then Said(state, R.SaidFetch(R.Fetch.Over))
    else
      match w.flown
      case Err(why) => Said(state, R.SaidFetch(R.Fetch.Failed(why)))
      case Ok(Going(walked, ms)) => Waits(FromWalked(state, walked), Settled(Some(ms)))
      case Ok(Sliced(walked)) => Said(FromWalked(state, walked), R.SaidFetch(R.Fetch.More))
      case Ok(Landed(walked)) => Said(FromWalked(state, walked), R.SaidFetch(R.Fetch.Done))
      case Ok(Faulted(walked, why)) => Said(FromWalked(state, walked), R.SaidFetch(R.Fetch.Stopped(why)))
  }

  function RefusedBegun(why: string, w: World): R.Said {
    R.SaidBegun(if w.refusal.Some? then R.Begun.Invalid(w.refusal.value.blockId, w.refusal.value.reason)
        else R.Begun.Refused(why))
  }

  function RefusedStep(why: string, w: World): R.Said {
    R.SaidStep(if w.refusal.Some? then R.Step.Invalid(w.refusal.value.blockId, w.refusal.value.reason)
        else R.Step.Refused(why))
  }

  function RefusedChunk(why: string, w: World): R.Said {
    R.SaidChunk(if w.refusal.Some? then R.Chunk.Invalid(w.refusal.value.blockId, w.refusal.value.reason)
        else R.Chunk.Refused(why))
  }

  function BegunAnswered(state: State, final: bool, w: World): Turn {
    if Idle(state) then Said(state, R.SaidBegun(R.Begun.Over))
    else
      match w.chunking
      case Err(why) => Said(state, RefusedBegun(why, w))
      case Ok(Begun(walked, height)) => Said(FromWalked(state, walked), R.SaidBegun(R.At(height)))
      case Ok(Refused(walked, why)) => Said(FromWalked(state, walked), RefusedBegun(why, w))
  }

  function SettingHeight(setting: Option<int>): int {
    if setting.Some? then setting.value else -1
  }

  /** The Catch-up is taken out of the state for the step; every arm but the
      bare Err puts it back. */
  function ConnectedAnswered(state: State, height: int, w: World): Turn {
    if Idle(state) then Said(state, R.SaidStep(R.Step.Over))
    else
      var without := state.(catching := None);
      if SettingHeight(state.catching.value.setting) != height then
        Said(without.(catching := state.catching), R.SaidStep(R.Step.Refused("apart")))
      else
        match w.stepping
        case Err(why) => Said(without, RefusedStep(why, w))
        case Ok(Parked(walked)) => Waits(FromWalked(without, walked), Until(None))
        case Ok(Next(walked)) => Said(FromWalked(without, walked), R.SaidStep(R.Next))
        case Ok(Ended(walked)) => Said(FromWalked(without, walked), R.SaidStep(R.Step.Ended))
        case Ok(Refused(walked, why)) => Said(FromWalked(without, walked), RefusedStep(why, w))
  }

  /** The bare Err arm of the step. */
  predicate LosesIt(state: State, q: R.Question, w: World) {
    && q.Connected? && !Idle(state)
    && SettingHeight(state.catching.value.setting) == q.height && w.stepping.Err?
  }

  function EndedAnswered(state: State, w: World): Turn {
    if Idle(state) then Said(state, R.SaidChunk(R.Chunk.Over))
    else
      match w.chunked
      case Err(why) => Said(state, RefusedChunk(why, w))
      case Ok(Built(walked, atTip)) => Said(FromWalked(state, walked), R.SaidChunk(if atTip then R.AtTip else R.Built))
      case Ok(Refused(walked, why)) => Said(FromWalked(state, walked), RefusedChunk(why, w))
  }

  function SettledAnswered(state: State, key: int, ending: R.Ending, w: World): Turn {
    if state.over || state.node.None? then Said(state, R.SaidSettled(R.Settled.Over))
    else if state.catching.None? then Said(state, R.SaidSettled(R.Rested))
    else
      match ending
      case Moved => MovedWith(state, w)
      case Faulted(_) => FaultedWith(state, w)
      case Stopped(_) =>
        var outcome := if w.chainStopped.Err? then Err(w.chainStopped.why) else Ok(Nothing);
        Closing(state, outcome, w, R.SaidSettled(R.Settled.Over))
      case Invalid(_, _) => FaultedWith(state, w)
      case Over => Said(state, R.SaidSettled(R.Settled.Over))
  }

  function MovedWith(state: State, w: World): Turn {
    match w.moved
    case Err(why) => Closing(state, Err(why), w, R.SaidSettled(R.Settled.Over))
    case Ok(after) => Said(state.(node := Some(after), catching := None), R.SaidSettled(R.Rested))
  }

  function FaultedWith(state: State, w: World): Turn {
    match w.onward
    case Err(why) => Closing(state, Err(why), w, R.SaidSettled(R.Settled.Over))
    case Ok(Next(walked)) => Said(FromWalked(state, walked), R.SaidSettled(R.Settled.Again(walked.catching.key)))
    case Ok(Rest(after)) => Said(state.(node := Some(after), catching := None), R.SaidSettled(R.Rested))
  }

  //
  // The fourteen answers, each with its turn clocked.
  //

  function Replied(state: State, q: R.Question, w: World): Turn {
    match q
    case Started => StartedAnswered(state, w)
    case Heard(key) => HeardAnswered(state, key, w)
    case Handled(key, command, body) => HandledAnswered(state, key, command, body, w)
    case Ticked => TickedAnswered(state, w)
    case Accepted => AcceptedAnswered(state, w)
    case Drained => DrainedAnswered(state, w)
    case Due => DueAnswered(state, w)
    case Headers(key) => HeadersAnswered(state, key, w)
    case Aligned(key) => AlignedAnswered(state, key, w)
    case Fetched(key) => FetchedAnswered(state, key, w)
    case Begun(final) => BegunAnswered(state, final, w)
    case Connected(height) => ConnectedAnswered(state, height, w)
    case Ended => EndedAnswered(state, w)
    case Settled(key, ending) => SettledAnswered(state, key, ending, w)
  }

  function Doing(q: R.Question): string {
    match q
    case Started => "started"
    case Heard(_) => "heard"
    case Handled(_, _, _) => "handled"
    case Ticked => "ticked"
    case Accepted => "accepted"
    case Drained => "drained"
    case Due => "due"
    case Headers(_) => "headers"
    case Aligned(_) => "aligned"
    case Fetched(_) => "fetched"
    case Begun(_) => "begun"
    case Connected(_) => "connected"
    case Ended => "ended"
    case Settled(_, _) => "settled"
  }

  function Ask(state: State, q: R.Question, w: World): Turn {
    var turn := Replied(Clocked(state, w.enteredMs, Doing(q)), q, w);
    Turn(Answered(turn.state, w.measured, w.leftMs), turn.reply,
         (if state.node.Some? then [Polled(WaitedSince(state.answeredMs, w.enteredMs))] else [])
         + turn.log
         + (if turn.state.node.Some? then [Worked(w.leftMs - w.enteredMs)] else []))
  }

  //
  // What every turn keeps.
  //

  ghost predicate Inv(state: State) {
    && (state.over ==> state.catching.None?)
    && (state.catching.Some? ==> state.node.Some?)
  }

  function Ends(log: seq<Effect>): nat {
    if log == [] then 0 else (if log[0].Shut? || log[0].NotStarted? then 1 else 0) + Ends(log[1..])
  }

  function Fails(log: seq<Effect>): nat {
    if log == [] then 0 else (if log[0].RunFail? then 1 else 0) + Fails(log[1..])
  }

  lemma {:induction false} EndsAppend(a: seq<Effect>, b: seq<Effect>)
    ensures Ends(a + b) == Ends(a) + Ends(b)
    ensures Fails(a + b) == Fails(a) + Fails(b)
  {
    if a == [] {
      assert a + b == b;
    } else {
      EndsAppend(a[1..], b);
      assert (a + b)[1..] == a[1..] + b;
    }
  }

  /** What one turn may do: keep the invariant, never lose the node, never come
      back from over, end the run once if it ends it, and then put down exactly
      the Catch-up that was held; and once over, answer and do nothing. */
  ghost predicate Keeps(before: State, after: State, reply: Reply, log: seq<Effect>) {
    && Inv(after)
    && (before.node.Some? ==> after.node.Some?)
    && (before.over ==> after.over && reply.Answer?)
    && Ends(log) == (if after.over && !before.over then 1 else 0)
    && Fails(log) <= Ends(log)
    && forall held, outcome | Shut(held, outcome) in log :: held == before.catching
  }

  lemma EndsOf(log: seq<Effect>)
    ensures log == [] ==> Ends(log) == Fails(log) == 0
    ensures |log| == 1 ==> Ends(log) == if log[0].Shut? || log[0].NotStarted? then 1 else 0
    ensures |log| == 1 ==> Fails(log) == if log[0].RunFail? then 1 else 0
    ensures |log| == 2 ==> Ends(log) == Ends([log[0]]) + Ends([log[1]])
    ensures |log| == 2 ==> Fails(log) == Fails([log[0]]) + Fails([log[1]])
  {
    if |log| == 2 {
      EndsAppend([log[0]], [log[1]]);
      assert log == [log[0]] + [log[1]];
    }
  }

  lemma ClosingKeeps(before: State, state: State, outcome: Outcome<Nothing>, w: World, said: R.Said)
    requires !before.over && state.catching == before.catching
    ensures var t := Closing(state, outcome, w, said); Keeps(before, t.state, t.reply, t.log)
  {
    var t := Closing(state, outcome, w, said);
    EndsOf(t.log);
    EndsOf([t.log[0]]);
    if outcome.Err? {
      assert t.log == [Shut(state.catching, outcome), RunFail(outcome.why)];
      EndsOf([t.log[1]]);
    } else {
      assert t.log == [Shut(state.catching, outcome)];
    }
  }

  lemma QuietKeeps(before: State, t: Turn)
    requires t.log == [] && Inv(t.state) && (before.node.Some? ==> t.state.node.Some?)
    requires t.state.over == before.over && (before.over ==> t.reply.Answer?)
    ensures Keeps(before, t.state, t.reply, t.log)
  {
    EndsOf(t.log);
  }

  lemma StartedKeeps(state: State, w: World)
    requires Inv(state)
    ensures var t := StartedAnswered(state, w); Keeps(state, t.state, t.reply, t.log)
  {
    var t := StartedAnswered(state, w);
    if t.log == [] {
      QuietKeeps(state, t);
    } else {
      EndsOf(t.log);
      EndsOf([t.log[0]]);
      EndsOf([t.log[1]]);
    }
  }

  /** A turn of these either says nothing of the run or closes the node. */
  lemma WireKeeps(state: State, q: R.Question, w: World)
    requires Inv(state)
    requires q.Heard? || q.Handled? || q.Ticked? || q.Accepted? || q.Drained?
    ensures var t := Replied(state, q, w); Keeps(state, t.state, t.reply, t.log)
  {
    hide Keeps, Ends, Fails;
    var t := Replied(state, q, w);
    if t.log == [] {
      QuietKeeps(state, t);
    } else if t.log[0].Shut? {
      var outcome := t.log[0].outcome;
      ClosingKeeps(state, state, outcome, w, t.reply.said);
      if q.Ticked? { ClosingKeeps(state, WithNode(state, w.stopAsked), outcome, w, t.reply.said); }
    }
  }

  lemma FetchKeeps(state: State, q: R.Question, w: World)
    requires Inv(state)
    requires q.Headers? || q.Aligned? || q.Fetched?
    ensures var t := Replied(state, q, w); Keeps(state, t.state, t.reply, t.log)
  {
    hide Keeps, Ends, Fails;
    if q.Headers? { HeadersQuiet(state, q.key, w); }
    QuietKeeps(state, Replied(state, q, w));
  }

  lemma HeadersQuiet(state: State, key: int, w: World)
    requires Inv(state)
    ensures var t := HeadersAnswered(state, key, w); t.log == [] && Inv(t.state) && t.state.over == state.over
    ensures state.node.Some? ==> HeadersAnswered(state, key, w).state.node.Some?
    ensures state.over ==> HeadersAnswered(state, key, w).reply.Answer?
  {
  }

  lemma ChunkKeeps(state: State, q: R.Question, w: World)
    requires Inv(state)
    requires q.Begun? || q.Connected? || q.Ended?
    ensures var t := Replied(state, q, w); Keeps(state, t.state, t.reply, t.log)
  {
    hide Keeps, Ends, Fails;
    QuietKeeps(state, Replied(state, q, w));
  }

  lemma DueKeeps(state: State, w: World)
    requires Inv(state)
    ensures var t := DueAnswered(state, w); Keeps(state, t.state, t.reply, t.log)
  {
    hide Keeps, Ends, Fails;
    var t := DueAnswered(state, w);
    if t.log == [] {
      QuietKeeps(state, t);
    } else {
      ClosingKeeps(state, state.(first := false), t.log[0].outcome, w, t.reply.said);
    }
  }

  lemma SettledKeeps(state: State, key: int, ending: R.Ending, w: World)
    requires Inv(state)
    ensures var t := SettledAnswered(state, key, ending, w); Keeps(state, t.state, t.reply, t.log)
  {
    hide Keeps, Ends, Fails;
    var t := SettledAnswered(state, key, ending, w);
    if t.log == [] {
      QuietKeeps(state, t);
    } else {
      ClosingKeeps(state, state, t.log[0].outcome, w, t.reply.said);
    }
  }

  lemma RepliedKeeps(state: State, q: R.Question, w: World)
    requires Inv(state)
    ensures var t := Replied(state, q, w); Keeps(state, t.state, t.reply, t.log)
  {
    hide Keeps, HeadersAnswered, AlignedAnswered, FetchedAnswered, BegunAnswered, ConnectedAnswered, EndedAnswered;
    hide StartedAnswered, HeardAnswered, HandledAnswered, TickedAnswered, AcceptedAnswered, DrainedAnswered,
        DueAnswered, SettledAnswered;
    match q
    case Started => StartedKeeps(state, w);
    case Due => DueKeeps(state, w);
    case Settled(key, ending) => SettledKeeps(state, key, ending, w);
    case Heard(_) => WireKeeps(state, q, w);
    case Handled(_, _, _) => WireKeeps(state, q, w);
    case Ticked => WireKeeps(state, q, w);
    case Accepted => WireKeeps(state, q, w);
    case Drained => WireKeeps(state, q, w);
    case Headers(_) => FetchKeeps(state, q, w);
    case Aligned(_) => FetchKeeps(state, q, w);
    case Fetched(_) => FetchKeeps(state, q, w);
    case _ => ChunkKeeps(state, q, w);
  }

  /** Every turn, clocked, keeps what a turn keeps. */
  lemma AskKeeps(state: State, q: R.Question, w: World)
    requires Inv(state)
    ensures var t := Ask(state, q, w); Keeps(state, t.state, t.reply, t.log)
  {
    hide Replied;
    var entered := Clocked(state, w.enteredMs, Doing(q));
    var turn, t := Replied(entered, q, w), Ask(state, q, w);
    RepliedKeeps(entered, q, w);
    var poll := if state.node.Some? then [Polled(WaitedSince(state.answeredMs, w.enteredMs))] else [];
    var work := if turn.state.node.Some? then [Worked(w.leftMs - w.enteredMs)] else [];
    assert t.log == poll + turn.log + work;
    EndsAppend(poll + turn.log, work);
    EndsAppend(poll, turn.log);
    EndsOf(poll);
    EndsOf(work);
  }

  lemma AskInv(state: State, q: R.Question, w: World)
    requires Inv(state)
    ensures Inv(Ask(state, q, w).state)
    ensures state.node.Some? ==> Ask(state, q, w).state.node.Some?
    ensures state.over ==> Ask(state, q, w).state.over && Ask(state, q, w).reply.Answer?
  {
    hide Ask;
    AskKeeps(state, q, w);
  }

  lemma NeverLost(state: State, q: R.Question, w: World)
    requires !q.Connected?
    ensures !LosesIt(state, q, w)
  {
  }

  /** The clock around a turn touches the node and nothing else. */
  lemma AskShape(state: State, q: R.Question, w: World)
    ensures
      var entered := Clocked(state, w.enteredMs, Doing(q));
      var turn, t := Replied(entered, q, w), Ask(state, q, w);
      && entered.catching == state.catching && entered.over == state.over && (entered.node.Some? <==> state.node.Some?)
      && t.reply == turn.reply && t.state.catching == turn.state.catching && t.state.over == turn.state.over
      && (t.state.node.Some? <==> turn.state.node.Some?)
  {
    hide Replied, Doing;
  }

  lemma WireFits(state: State, q: R.Question, w: World)
    requires R.OfTheWire(q)
    ensures var t := Replied(state, q, w); t.reply.Answer? ==> R.Fits(q, t.reply.said)
  {
  }

  lemma WalkFits(state: State, q: R.Question, w: World)
    requires !R.OfTheWire(q)
    ensures var t := Replied(state, q, w); t.reply.Answer? ==> R.Fits(q, t.reply.said)
  {
  }

  /** An answer is of its question's type. */
  lemma AskFits(state: State, q: R.Question, w: World)
    ensures var t := Ask(state, q, w); t.reply.Answer? ==> R.Fits(q, t.reply.said)
  {
    hide Replied, Ask;
    AskShape(state, q, w);
    var entered := Clocked(state, w.enteredMs, Doing(q));
    if R.OfTheWire(q) {
      WireFits(entered, q, w);
    } else {
      WalkFits(entered, q, w);
    }
  }

  //
  // Whole runs of the owner, whoever asks.
  //

  datatype Asked = Asked(q: R.Question, w: World)

  function Runs(state: State, asked: seq<Asked>): State
    decreases asked
  {
    if asked == [] then state else Runs(Ask(state, asked[0].q, asked[0].w).state, asked[1..])
  }

  function Logs(state: State, asked: seq<Asked>): seq<Effect>
    decreases asked
  {
    if asked == [] then []
    else
      var t := Ask(state, asked[0].q, asked[0].w);
      t.log + Logs(t.state, asked[1..])
  }

  /** From any good state: the invariant at the end, the node kept, over kept,
      the run ended once exactly when it came to be over, and Run.fail called
      at most then. */
  lemma {:induction false} RunsKeep(state: State, asked: seq<Asked>)
    requires Inv(state)
    ensures Inv(Runs(state, asked))
    ensures state.node.Some? ==> Runs(state, asked).node.Some?
    ensures state.over ==> Runs(state, asked).over
    ensures Ends(Logs(state, asked)) == if Runs(state, asked).over && !state.over then 1 else 0
    ensures Fails(Logs(state, asked)) <= Ends(Logs(state, asked))
    decreases asked
  {
    hide Ask, Ends, Fails;
    if asked == [] {
      EndsOf([]);
    } else {
      var t := Ask(state, asked[0].q, asked[0].w);
      AskKeeps(state, asked[0].q, asked[0].w);
      RunsKeep(t.state, asked[1..]);
      EndsAppend(t.log, Logs(t.state, asked[1..]));
    }
  }

  /** Every state a run can reach from the first. */
  lemma RunsFromFresh(asked: seq<Asked>)
    ensures
      var s, log := Runs(Fresh(), asked), Logs(Fresh(), asked);
      && (s.over ==> s.catching.None? && Peers(s) == [])
      && (s.catching.Some? ==> s.node.Some?)
      && Ends(log) == (if s.over then 1 else 0)
      && Fails(log) <= 1
  {
    RunsKeep(Fresh(), asked);
  }

  //
  // How a Catch-up leaves the state.
  //

  lemma WireLeaves(state: State, q: R.Question, w: World)
    requires Inv(state) && state.catching.Some?
    requires R.OfTheWire(q) || q.Due?
    ensures Replied(state, q, w).state.catching.None? ==> Replied(state, q, w).state.over
  {
  }

  lemma WalkLeaves(state: State, q: R.Question, w: World)
    requires Inv(state) && state.catching.Some?
    requires q.Headers? || q.Aligned? || q.Fetched? || q.Begun? || q.Connected? || q.Ended?
    ensures Replied(state, q, w).state.catching.None? <==> LosesIt(state, q, w)
  {
  }

  /** Through settled, through a closing, or through the bare Err arm. */
  lemma CatchUpLeaves(state: State, q: R.Question, w: World)
    requires Inv(state) && state.catching.Some?
    ensures
      var t, entered := Ask(state, q, w), Clocked(state, w.enteredMs, Doing(q));
      && (t.state.catching.None? ==> q.Settled? || t.state.over || LosesIt(entered, q, w))
      && (LosesIt(entered, q, w) ==> t.state.catching.None?)
  {
    hide Replied, Ask;
    AskShape(state, q, w);
    var entered := Clocked(state, w.enteredMs, Doing(q));
    if q.Headers? || q.Aligned? || q.Fetched? || q.Begun? || q.Connected? || q.Ended? {
      WalkLeaves(entered, q, w);
    } else if !q.Settled? {
      WireLeaves(entered, q, w);
    }
  }

  lemma RepliedComes(state: State, q: R.Question, w: World)
    requires state.catching.None? && !q.Due?
    ensures Replied(state, q, w).state.catching.None?
  {
  }

  /** Stopped, settled in an open node, closes it exactly when the Catch-up is
      held; when it is not, the walk is told to rest. */
  lemma StoppedCloses(state: State, key: int, why: string, w: World)
    requires Inv(state) && !state.over && state.node.Some?
    ensures
      var t := Ask(state, R.Question.Settled(key, R.Ending.Stopped(why)), w);
      && (t.state.over <==> state.catching.Some?)
      && t.reply == Answer(R.SaidSettled(if state.catching.Some? then R.Settled.Over else R.Rested))
  {
  }

  //
  // The walk's answer waits for it.
  //

  predicate AllOfTheWire(asked: seq<Asked>) {
    forall i | 0 <= i < |asked| :: R.OfTheWire(asked[i].q)
  }

  lemma ReplyStays(state: State, q: R.Question, w: World)
    requires R.OfTheWire(q) && state.catching.Some? && state.catching.value.reply.Some?
    ensures
      var after := Replied(state, q, w).state;
      after.catching.Some? ==> after.catching.value.reply == state.catching.value.reply
  {
  }

  /** Once the asked Peer's Headers are kept for the walk, nothing any Peer says
      and nothing the clock does replaces them: they wait until the walk asks
      again, or the node closes. */
  lemma {:induction false} FirstReplyKept(state: State, asked: seq<Asked>)
    requires Inv(state) && state.catching.Some? && state.catching.value.reply.Some?
    requires AllOfTheWire(asked)
    ensures
      var after := Runs(state, asked);
      if after.catching.Some? then after.catching.value.reply == state.catching.value.reply else after.over
    decreases asked
  {
    hide Ask, Replied, LosesIt, Doing, Inv;
    if asked != [] {
      var q, w := asked[0].q, asked[0].w;
      var entered, next := Clocked(state, w.enteredMs, Doing(q)), Ask(state, q, w).state;
      AskShape(state, q, w);
      ReplyStays(entered, q, w);
      AskInv(state, q, w);
      if next.catching.Some? {
        FirstReplyKept(next, asked[1..]);
      } else {
        CatchUpLeaves(state, q, w);
        NeverLost(entered, q, w);
        RunsKeepInv(next, asked[1..]);
      }
    }
  }

  lemma RunsKeepInv(state: State, asked: seq<Asked>)
    requires Inv(state) && state.over
    ensures Runs(state, asked).over && Runs(state, asked).catching.None?
  {
    hide Ask;
    RunsKeep(state, asked);
  }
}
