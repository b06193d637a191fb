/** What one turn of app/owner.av comes to, whatever it was asked: what is told
    to the Pool, what the turn's one call hands back, and what it parks for. */
module Turns {
  import opened Bytes
  import opened Owner
  import R = Requests

  //
  // Told: a question that finds a node tells its Pool how long it has been.
  //

  /** What a turn writes the node down as handling. */
  function NameOf(q: R.Question): string {
    match q
    case Started => "started" case Heard(_) => "heard" case Handled(_, _, _) => "handled"
    case Ticked => "ticked" case Accepted => "accepted" case Drained => "drained" case Due => "due"
    case Headers(_) => "headers" case Aligned(_) => "aligned" case Fetched(_) => "fetched" case Begun(_) => "begun"
    case Connected(_) => "connected" case Ended => "ended" case Settled(_, _) => "settled"
  }

  /** The time since the last answer; none before the first, and none against a
      skewed clock. */
  function Gap(answeredMs: int, enteredMs: int): int {
    if 0 < answeredMs < enteredMs then enteredMs - answeredMs else 0
  }

  /** The gap since the last answer, added once; the instant and the name. */
  ghost predicate Told(before: State, q: R.Question, enteredMs: int, after: State) {
    if before.node.None? then after == before
    else
      && after.node.Some?
      && var was, now := before.node.value, after.node.value;
      && now.pool.polledMs == was.pool.polledMs + Gap(before.answeredMs, enteredMs)
      && now.pollReturnedMs == enteredMs && now.handling == NameOf(q)
      && now.pool.(polledMs := was.pool.polledMs) == was.pool
      && now.(pool := was.pool, pollReturnedMs := was.pollReturnedMs, handling := was.handling) == was
      && after.(node := before.node) == before
  }

  lemma NamedRight(q: R.Question)
    ensures Doing(q) == NameOf(q)
  {
  }

  lemma EveryTurnIsTold(state: State, q: R.Question, w: World)
    ensures Told(state, q, w.enteredMs, Clocked(state, w.enteredMs, Doing(q)))
  {
    hide Doing, NameOf;
    NamedRight(q);
  }

  //
  // Handed: the one call of a turn that moves the state.
  //

  datatype Hand =
    | Same
    | OfPool(pool: Pool)
    | OfNode(node: Following)
    | OfBoth(walked: Walked)
    | OfFlight(filed: Filed)
    | OfReply(body: seq<int>)
    | Down(node: Following)
    | Lost
    | Unstarted(why: string)
    | Ending(outcome: Outcome<Nothing>)

  function NodeOr(outcome: Outcome<Following>): Hand {
    if outcome.Ok? then OfNode(outcome.value) else Ending(Err(outcome.why))
  }

  function HandOpening(w: World): Hand {
    if w.planned.None? then Unstarted("no follow")
    else if w.planned.value.Err? then Unstarted(w.planned.value.why)
    else if w.opening.Err? then Unstarted(w.opening.why)
    else OfNode(w.opening.value)
  }

  /** A Message is the walk's answer, the download's Block, or dispatched. */
  function HandMessage(catching: Option<Catching>, key: int, command: string, body: seq<int>, w: World): Hand {
    var asked := catching.Some? && catching.value.key == key && catching.value.askedMs > 0;
    if asked && catching.value.reply.None? && command == "headers" then OfReply(body)
    else if catching.Some? && catching.value.flying && command == "block" then OfFlight(w.landed)
    else NodeOr(w.dispatched)
  }

  function HandWire(node: Following, catching: Option<Catching>, q: R.Question, w: World): Hand
    requires R.OfTheWire(q)
  {
    match q
    case Started => Same
    case Heard(_) => if w.hearing.Ok? then OfPool(w.hearing.value.pool) else Ending(Err(w.hearing.why))
    case Handled(key, command, body) => HandMessage(catching, key, command, body, w)
    case Ticked => if node.leaving || w.stopRequested then Ending(Ok(Nothing)) else NodeOr(w.turned)
    case Accepted =>
      if !node.listening then Same
      else if w.caller.Ok? then OfNode(w.caller.value.state) else Ending(Err(w.caller.why))
    case Drained => NodeOr(w.drained)
  }

  /** The chunk under way is at this Height; with none under way, at minus one. */
  predicate StandsAt(setting: Option<int>, height: int) {
    setting == Some(height) || (setting.None? && height == -1)
  }

  function HandStep(node: Following, one: Catching, q: R.Question, w: World): Hand
    requires !R.OfTheWire(q) && !q.Due? && !q.Settled?
  {
    match q
    case Headers(_) =>
      if one.askedMs == 0 then (if w.asked.Ok? then OfBoth(w.asked.value.walked) else Same)
      else if one.reply.Some? && w.batched.Ok? then OfBoth(w.batched.value.walked)
      else Same
    case Aligned(_) => if w.aligning.Ok? then OfBoth(w.aligning.value.walked) else Same
    case Fetched(_) => if w.flown.Ok? then OfBoth(w.flown.value.walked) else Same
    case Begun(_) => if w.chunking.Ok? then OfBoth(w.chunking.value.walked) else Same
    case Connected(height) =>
      if !StandsAt(one.setting, height) then Same
      else if w.stepping.Ok? then OfBoth(w.stepping.value.walked) else Lost
    case Ended => if w.chunked.Ok? then OfBoth(w.chunked.value.walked) else Same
  }

  function HandSettled(ending: R.Ending, w: World): Hand {
    match ending
    case Over => Same
    case Moved => if w.moved.Ok? then Down(w.moved.value) else Ending(Err(w.moved.why))
    case Stopped(_) => Ending(if w.chainStopped.Ok? then Ok(Nothing) else Err(w.chainStopped.why))
    case _ =>
      if w.onward.Err? then Ending(Err(w.onward.why))
      else if w.onward.value.Next? then OfBoth(w.onward.value.walked) else Down(w.onward.value.after)
  }

  /** All fourteen questions. */
  function HandedBy(state: State, q: R.Question, w: World): Hand {
    if state.over then Same
    else if state.node.None? then (if q.Started? then HandOpening(w) else Same)
    else if R.OfTheWire(q) then HandWire(state.node.value, state.catching, q, w)
    else if q.Due? then
      if state.catching.Some? || w.claim.None? then Same
      else if w.taken.Ok? then OfBoth(w.taken.value) else Ending(Err(w.taken.why))
    else if state.catching.None? then Same
    else if q.Settled? then HandSettled(q.ending, w)
    else HandStep(state.node.value, state.catching.value, q, w)
  }

  /** The state that takes it: node, Catch-up and over, and nothing else. */
  function Taking(state: State, hand: Hand, w: World): State {
    match hand
    case Same => state
    case OfPool(pool) => if state.node.Some? then state.(node := Some(state.node.value.(pool := pool))) else state
    case OfNode(node) => state.(node := Some(node))
    case OfBoth(walked) => state.(node := Some(walked.state), catching := Some(walked.catching))
    case OfFlight(filed) =>
      if state.catching.None? then state
      else state.(node := Some(filed.state), catching := Some(state.catching.value.(other := filed.other)))
    case OfReply(body) =>
      if state.catching.None? then state else state.(catching := Some(state.catching.value.(reply := Some(body))))
    case Down(node) => state.(node := Some(node), catching := None)
    case Lost => state.(catching := None)
    case Unstarted(_) => state.(over := true)
    case Ending(_) => state.(node := Some(w.closed), catching := None, over := true)
  }

  /** The first Catch-up is owed until due takes a claim. */
  function FirstAfter(state: State, q: R.Question, w: World): bool {
    state.first
    && !(q.Due? && !state.over && state.node.Some? && state.catching.None? && w.claim.Some?)
  }

  /** What the turn does outside: one ending, with its reason failed if it has
      one. */
  function Outside(state: State, hand: Hand): seq<Effect> {
    match hand
    case Unstarted(why) => [NotStarted, RunFail(why)]
    case Ending(Ok(_)) => [Shut(state.catching, Ok(Nothing))]
    case Ending(Err(why)) => [Shut(state.catching, Err(why)), RunFail(why)]
    case _ => []
  }

  ghost predicate TakesItsHand(state: State, q: R.Question, w: World) {
    var hand, t := HandedBy(state, q, w), Replied(state, q, w);
    t.state == Taking(state, hand, w).(first := FirstAfter(state, q, w)) && t.log == Outside(state, hand)
  }

  lemma MessageTakes(state: State, q: R.Question, w: World)
    requires q.Handled?
    ensures TakesItsHand(state, q, w)
  {
  }

  lemma StartOrReadTakes(state: State, q: R.Question, w: World)
    requires q.Started? || q.Heard?
    ensures TakesItsHand(state, q, w)
  {
  }

  lemma LoopTakes(state: State, q: R.Question, w: World)
    requires q.Ticked? || q.Accepted? || q.Drained?
    ensures TakesItsHand(state, q, w)
  {
  }

  lemma FetchTakes(state: State, q: R.Question, w: World)
    requires q.Headers? || q.Aligned? || q.Fetched?
    ensures TakesItsHand(state, q, w)
  {
  }

  lemma ChunkTakes(state: State, q: R.Question, w: World)
    requires q.Begun? || q.Connected? || q.Ended?
    ensures TakesItsHand(state, q, w)
  {
  }

  lemma DueTakes(state: State, q: R.Question, w: World)
    requires q.Due?
    ensures TakesItsHand(state, q, w)
  {
  }

  lemma SettledTakes(state: State, q: R.Question, w: World)
    requires q.Settled?
    ensures TakesItsHand(state, q, w)
  {
  }

  lemma EveryHandTaken(state: State, q: R.Question, w: World)
    ensures TakesItsHand(state, q, w)
  {
    hide TakesItsHand;
    if q.Handled? {
      MessageTakes(state, q, w);
    } else if q.Started? || q.Heard? {
      StartOrReadTakes(state, q, w);
    } else if q.Ticked? || q.Accepted? || q.Drained? {
      LoopTakes(state, q, w);
    } else if q.Headers? || q.Aligned? || q.Fetched? {
      FetchTakes(state, q, w);
    } else if q.Begun? || q.Connected? || q.Ended? {
      ChunkTakes(state, q, w);
    } else if q.Due? {
      DueTakes(state, q, w);
    } else {
      SettledTakes(state, q, w);
    }
  }

  /** Measured on the way out: the node is what measuring hands back or as it
      was, and the instant is remembered. */
  ghost predicate Left(taken: State, w: World, after: State) {
    && after.answeredMs == w.leftMs
    && after.catching == taken.catching && after.over == taken.over && after.first == taken.first
    && after.node == if taken.node.Some? && w.measured.Ok? then Some(w.measured.value) else taken.node
  }

  //
  // Answered or parked.
  //

  /** Which turns park, each by what the World says of it. */
  ghost predicate Parks(state: State, q: R.Question, w: World) {
    !state.over
    && if state.node.None? then q.Heard? || q.Ticked? || q.Accepted? || q.Drained? || q.Due?
       else
         match q
         case Heard(_) => w.hearing.Ok? && w.hearing.value.Quiet?
         case Ticked => !state.node.value.leaving && !w.stopRequested && w.turned.Ok?
         case Accepted => state.node.value.listening && w.caller.Ok?
         case Drained => w.drained.Ok?
         case Due => state.catching.None? && w.claim.None?
         case Headers(_) => state.catching.Some? && Awaits(state.node.value, state.catching.value, w)
         case Fetched(_) => state.catching.Some? && w.flown.Ok? && w.flown.value.Going?
         case Connected(height) =>
           && state.catching.Some? && StandsAt(state.catching.value.setting, height)
           && w.stepping.Ok? && w.stepping.value.Parked?
         case _ => false
  }

  /** getheaders just sent, or sent and within its deadline to a Peer still
      there. */
  ghost predicate Awaits(node: Following, one: Catching, w: World) {
    if one.askedMs == 0 then w.asked.Ok? && w.asked.value.Sent?
    else one.reply.None? && one.key in node.pool.greeted && w.nowMs <= one.askedMs + w.answerDeadlineMs
  }

  /** The instant a park ends by itself, and whether the owner moving ends it. */
  ghost predicate WakesRight(state: State, q: R.Question, w: World, wake: Wake) {
    if state.node.None? then wake == Settled(None)
    else
      match q
      case Heard(_) =>
        w.hearing.Ok? && w.hearing.value.Quiet?
        && var dueMs := w.hearing.value.dueMs;
        wake.Until? && if dueMs <= 0 then wake.ms.None? else WakesAt(wake, w.nowMs, Later(dueMs, w.nowMs))
      case Ticked => wake == Until(Some(w.tickMs))
      case Accepted => wake == Until(Some(w.tickMs))
      case Drained =>
        && (w.owed ==> wake == Until(None)) && (!w.owed && w.serving ==> wake == Until(Some(0)))
        && (!w.owed && !w.serving ==> wake == Settled(None))
      case Due => wake == Settled(Some(1000))
      case Headers(_) =>
        state.catching.Some? && wake.Settled?
        && (if state.catching.value.askedMs == 0 then wake.ms == Some(w.answerDeadlineMs)
            else WakesAt(wake, w.nowMs, state.catching.value.askedMs + w.answerDeadlineMs))
      case Fetched(_) => w.flown.Ok? && w.flown.value.Going? && wake == Settled(Some(w.flown.value.ms))
      case _ => wake == Until(None)
  }

  function Later(a: int, b: int): int { if a < b then b else a }

  ghost predicate WakesAt(wake: Wake, nowMs: int, dueMs: int) {
    wake.ms.Some? && wake.ms.value >= 0 && nowMs + wake.ms.value == dueMs
  }

  ghost predicate ParksRight(state: State, q: R.Question, w: World, reply: Reply) {
    (reply.Park? <==> Parks(state, q, w)) && (reply.Park? ==> WakesRight(state, q, w, reply.wake))
  }

  lemma WireParks(state: State, q: R.Question, w: World)
    requires R.OfTheWire(q)
    ensures ParksRight(state, q, w, Replied(state, q, w).reply)
  {
  }

  lemma HeadersPark(state: State, q: R.Question, w: World)
    requires q.Headers? || q.Due?
    ensures ParksRight(state, q, w, Replied(state, q, w).reply)
  {
  }

  lemma WalkParks(state: State, q: R.Question, w: World)
    requires !R.OfTheWire(q) && !q.Headers? && !q.Due?
    ensures ParksRight(state, q, w, Replied(state, q, w).reply)
  {
  }

  lemma EveryParkIsRight(state: State, q: R.Question, w: World)
    ensures ParksRight(state, q, w, Replied(state, q, w).reply)
  {
    hide ParksRight;
    if R.OfTheWire(q) {
      WireParks(state, q, w);
    } else if q.Headers? || q.Due? {
      HeadersPark(state, q, w);
    } else {
      WalkParks(state, q, w);
    }
  }

  /** What a Peer, the clock, the acceptor, the writer and the starter are told,
      by the World and by the state the turn leaves. */
  ghost predicate AnswersRight(state: State, q: R.Question, w: World, after: State, said: R.Said) {
    match q
    case Started =>
      && said.SaidStarted? && (said.started.Running? <==> after.node.Some?)
      && var hand := HandedBy(state, q, w);
      (hand.Unstarted? ==> said.started == R.Started.Failed(hand.why))
    case Heard(_) =>
      && said.SaidHeard?
      && (said.heard.Message? <==> !state.over && w.hearing.Ok? && w.hearing.value.Spoke?)
      && (said.heard.Message? ==>
            said.heard.command == w.hearing.value.command && said.heard.body == w.hearing.value.body)
    case Handled(key, command, body) =>
      && said.SaidHandled?
      && (said.seated <==>
          && !after.over && after.node.Some?
          && (key in after.node.value.pool.seated || HandMessage(state.catching, key, command, body, w).OfReply?))
    case Ticked => said == R.SaidTurned(R.Turned.Over) && after.over
    case Accepted =>
      said == R.SaidTurned(R.Turned.Over) && (after.over || (after.node.Some? && !after.node.value.listening))
    case Drained => said == R.SaidTurned(R.Turned.Over) && after.over
    case _ => true
  }

  lemma EveryAnswerIsRight(state: State, q: R.Question, w: World)
    ensures var t := Replied(state, q, w); t.reply.Answer? ==> AnswersRight(state, q, w, t.state, t.reply.said)
  {
  }

  /** The whole of a turn. It is told and measured as the clock says. In between
      it takes the one hand its call hands back and does outside what that asks
      for. It parks or answers as the World has it. */
  lemma EveryTurnTakesItsHand(state: State, q: R.Question, w: World)
    ensures
      var entered, t := Clocked(state, w.enteredMs, Doing(q)), Ask(state, q, w);
      var hand := HandedBy(entered, q, w);
      var taken := Taking(entered, hand, w).(first := FirstAfter(entered, q, w));
      && Told(state, q, w.enteredMs, entered)
      && Left(taken, w, t.state)
      && t.log == (if state.node.Some? then [Polled(Gap(state.answeredMs, w.enteredMs))] else [])
                  + Outside(entered, hand) + (if taken.node.Some? then [Worked(w.leftMs - w.enteredMs)] else [])
      && ParksRight(entered, q, w, t.reply)
      && (t.reply.Answer? ==> AnswersRight(entered, q, w, taken, t.reply.said))
  {
    hide Replied, Doing, HandedBy, Taking, FirstAfter, Told, Clocked, ParksRight, AnswersRight;
    var entered := Clocked(state, w.enteredMs, Doing(q));
    EveryTurnIsTold(state, q, w);
    EveryHandTaken(entered, q, w);
    EveryParkIsRight(entered, q, w);
    EveryAnswerIsRight(entered, q, w);
  }
}
