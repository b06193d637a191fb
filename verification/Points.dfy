/** Where the walk and a Peer's process stand after a turn, by the state and the
    World alone: no question, no answer. */
module Points {
  import opened Bytes
  import opened Owner
  import opened Walk
  import opened Node
  import opened Turns
  import R = Requests

  //
  // The walk.
  //

  /** A chunk refused ends the attempt on the way to the tip, as the Block's fault
      if the reason names one; between two slices the download goes on. */
  function Refusing(key: int, final: bool, why: string, w: World): Pc {
    if !final then AtFetched(key)
    else if w.refusal.Some? then AtSettled(key, R.Ending.Invalid(w.refusal.value.blockId, w.refusal.value.reason))
    else AtSettled(key, R.Ending.Stopped(why))
  }

  function FromDue(state: State, w: World): Pc {
    if state.over then Returned
    else if state.node.None? then AtDue
    else if state.catching.Some? then AtHeaders(state.catching.value.key)
    else if w.claim.None? then AtDue
    else if w.taken.Ok? then AtHeaders(w.taken.value.catching.key)
    else Returned
  }

  /** A batch that moved the tip asks for another; one that did not, or a stop
      that paused the asking, goes on to align; a fault is the Peer's. */
  function FromHeaders(key: int, node: Following, one: Catching, w: World): Pc {
    if one.askedMs == 0 then
      if w.asked.Err? then AtSettled(key, R.Faulted(w.asked.why))
      else if w.asked.value.Paused? then AtAligned(key)
      else AtHeaders(key)
    else if one.reply.Some? then
      if w.batched.Err? then AtSettled(key, R.Faulted(w.batched.why))
      else if w.batched.value.more then AtHeaders(key)
      else AtAligned(key)
    else if one.key !in node.pool.greeted then AtSettled(key, R.Faulted("gone"))
    else if w.nowMs > one.askedMs + w.answerDeadlineMs then AtSettled(key, R.Faulted("late"))
    else AtHeaders(key)
  }

  function FromAligned(key: int, w: World): Pc {
    if w.aligning.Err? then AtSettled(key, R.Ending.Stopped(w.aligning.why))
    else if w.aligning.value.Refused? then AtSettled(key, R.Ending.Stopped(w.aligning.value.why))
    else AtFetched(key)
  }

  function FromFetched(key: int, w: World): Pc {
    if w.flown.Err? then AtSettled(key, R.Faulted(w.flown.why))
    else if w.flown.value.Faulted? then AtSettled(key, R.Ending.Stopped(w.flown.value.why))
    else if w.flown.value.Going? then AtFetched(key)
    else AtBegun(key, w.flown.value.Landed?)
  }

  function FromBegun(key: int, final: bool, w: World): Pc {
    if w.chunking.Err? then Refusing(key, final, w.chunking.why, w)
    else if w.chunking.value.Refused? then Refusing(key, final, w.chunking.value.why, w)
    else AtConnected(key, final, w.chunking.value.height)
  }

  function FromConnected(key: int, final: bool, height: int, one: Catching, w: World): Pc {
    if !StandsAt(one.setting, height) then
      (if final then AtSettled(key, R.Ending.Stopped("apart")) else AtFetched(key))
    else if w.stepping.Err? then Refusing(key, final, w.stepping.why, w)
    else
      match w.stepping.value
      case Parked(_) => AtConnected(key, final, height)
      case Next(_) => AtConnected(key, final, height + 1)
      case Ended(_) => AtEnded(key, final)
      case Refused(_, why) => Refusing(key, final, why, w)
  }

  function FromEnded(key: int, final: bool, w: World): Pc {
    if w.chunked.Err? then Refusing(key, final, w.chunked.why, w)
    else if w.chunked.value.Refused? then Refusing(key, final, w.chunked.value.why, w)
    else if !final then AtFetched(key)
    else if w.chunked.value.atTip then AtSettled(key, R.Moved)
    else AtBegun(key, true)
  }

  function FromSettled(state: State, ending: R.Ending, w: World): Pc {
    if state.over || state.node.None? then Returned
    else if state.catching.None? then AtDue
    else if ending.Moved? then (if w.moved.Ok? then AtDue else Returned)
    else if ending.Faulted? || ending.Invalid? then
      if w.onward.Err? then Returned
      else if w.onward.value.Next? then AtHeaders(w.onward.value.walked.catching.key)
      else AtDue
    else Returned
  }

  /** A Catch-up under way in an open node. */
  predicate Held(state: State) {
    !state.over && state.node.Some? && state.catching.Some?
  }

  function WalkAfter(pc: Pc, state: State, w: World): Pc {
    if pc.Returned? then Returned
    else if pc.AtDue? then FromDue(state, w)
    else if pc.AtSettled? then FromSettled(state, pc.ending, w)
    else if !Held(state) then AtSettled(pc.key, R.Ending.Over)
    else
      match pc
      case AtHeaders(key) => FromHeaders(key, state.node.value, state.catching.value, w)
      case AtAligned(key) => FromAligned(key, w)
      case AtFetched(key) => FromFetched(key, w)
      case AtBegun(key, final) => FromBegun(key, final, w)
      case AtConnected(key, final, height) => FromConnected(key, final, height, state.catching.value, w)
      case AtEnded(key, final) => FromEnded(key, final, w)
  }

  ghost predicate GoesThere(pc: Pc, state: State, w: World)
    requires !pc.Returned?
  {
    match Replied(state, Asks(pc), w).reply
    case Park(_) => pc == WalkAfter(pc, state, w)
    case Answer(said) => Goes(pc, said) == WalkAfter(pc, state, w)
  }

  lemma EndsGo(pc: Pc, state: State, w: World)
    requires pc.AtDue? || pc.AtSettled?
    ensures GoesThere(pc, state, w)
  {
  }

  lemma FetchGoes(pc: Pc, state: State, w: World)
    requires pc.AtHeaders? || pc.AtAligned? || pc.AtFetched?
    ensures GoesThere(pc, state, w)
  {
  }

  lemma ChunkGoes(pc: Pc, state: State, w: World)
    requires pc.AtBegun? || pc.AtEnded?
    ensures GoesThere(pc, state, w)
  {
  }

  lemma StepGoes(pc: Pc, state: State, w: World)
    requires pc.AtConnected?
    ensures GoesThere(pc, state, w)
  {
  }

  /** Being told how long it has been moves nothing the walk looks at. */
  lemma ToldAlike(pc: Pc, state: State, w: World, enteredMs: int, doing: string)
    ensures WalkAfter(pc, Clocked(state, enteredMs, doing), w) == WalkAfter(pc, state, w)
  {
  }

  /** One turn of the walk. */
  lemma WalkGoesByTheWorld(s: System, w: World)
    requires !s.walk.Returned?
    ensures Moved(s, Ask(Walker, w)).walk == WalkAfter(s.walk, s.state, w)
  {
    hide Owner.Ask, Moved, Replied, WalkAfter, Goes, Doing, LostAfter, Clocked;
    var pc, q := s.walk, Asks(s.walk);
    var entered := Clocked(s.state, w.enteredMs, Doing(q));
    AskShape(s.state, q, w);
    MovedByWalker(s, w);
    ToldAlike(pc, s.state, w, w.enteredMs, Doing(q));
    if pc.AtDue? || pc.AtSettled? {
      EndsGo(pc, entered, w);
    } else if pc.AtHeaders? || pc.AtAligned? || pc.AtFetched? {
      FetchGoes(pc, entered, w);
    } else if pc.AtConnected? {
      StepGoes(pc, entered, w);
    } else {
      ChunkGoes(pc, entered, w);
    }
  }

  /** The turn that brings the Set to the tip: the last chunk ended, its Catch-up
      held, and chunkEnded says so. */
  ghost predicate TipTurn(s: System, move: Move, key: int) {
    && move.Ask? && move.process.Walker?
    && s.walk == AtEnded(key, true) && Held(s.state)
    && move.w.chunked.Ok? && move.w.chunked.value.Built? && move.w.chunked.value.atTip
  }

  /** The turn that finds it short of the tip, or the bodies all here. */
  ghost predicate ShortTurn(s: System, move: Move, key: int) {
    && move.Ask? && move.process.Walker? && Held(s.state)
    && (|| (s.walk == AtEnded(key, true) && move.w.chunked.Ok? && move.w.chunked.value.Built?
            && !move.w.chunked.value.atTip)
        || (s.walk == AtFetched(key) && move.w.flown.Ok? && move.w.flown.value.Landed?))
  }

  /** The turn whose slice of the download ran out. */
  ghost predicate SliceTurn(s: System, move: Move, key: int) {
    && move.Ask? && move.process.Walker? && Held(s.state)
    && s.walk == AtFetched(key) && move.w.flown.Ok? && move.w.flown.value.Sliced?
  }

  /** The turn whose batch moved the tip no more, or whose asking was paused. */
  ghost predicate LastBatchTurn(s: System, move: Move, key: int) {
    && move.Ask? && move.process.Walker? && Held(s.state) && s.walk == AtHeaders(key)
    && var one := s.state.catching.value;
    (if one.askedMs == 0 then move.w.asked.Ok? && move.w.asked.value.Paused?
     else one.reply.Some? && move.w.batched.Ok? && !move.w.batched.value.more)
  }

  ghost predicate Arrives(s: System, move: Move, pc: Pc) {
    s.walk != pc && Moved(s, move).walk == pc
  }

  /** Whatever the system and the move: the walk comes to each of these points on
      exactly these turns. */
  lemma ArrivesExactly(s: System, move: Move, key: int)
    ensures Arrives(s, move, AtSettled(key, R.Moved)) <==> TipTurn(s, move, key)
    ensures Arrives(s, move, AtBegun(key, true)) <==> ShortTurn(s, move, key)
    ensures Arrives(s, move, AtBegun(key, false)) <==> SliceTurn(s, move, key)
    ensures Arrives(s, move, AtAligned(key)) <==> LastBatchTurn(s, move, key)
  {
    hide Moved;
    if move.Ask? && move.process.Walker? && !s.walk.Returned? {
      WalkGoesByTheWorld(s, move.w);
    } else {
      WalkStays(s, move);
    }
  }

  lemma WalkStays(s: System, move: Move)
    requires !(move.Ask? && move.process.Walker? && !s.walk.Returned?)
    ensures Moved(s, move).walk == s.walk
  {
    hide Owner.Ask;
    if !(move.Ask? && move.process.Walker?) { OtherKeepsLost(s, move); }
  }

  predicate OfTheWalker(move: Move) {
    move.Ask? && move.process.Walker?
  }

  /** Turn i of the run brought the Set to the tip, and the walk has not been
      asked for since. */
  ghost predicate TippedAt(moves: seq<Move>, i: nat, key: int)
    requires i < |moves|
  {
    && TipTurn(MovedAll(Booted(), moves[..i]), moves[i], key)
    && forall j | i < j < |moves| :: !OfTheWalker(moves[j])
  }

  lemma {:induction false} MovedAllMore(s: System, moves: seq<Move>, move: Move)
    ensures MovedAll(s, moves + [move]) == Moved(MovedAll(s, moves), move)
    decreases moves
  {
    hide Moved;
    if moves == [] {
      assert ([] + [move])[1..] == [];
    } else {
      MovedAllMore(Moved(s, moves[0]), moves[1..], move);
      assert (moves + [move])[1..] == moves[1..] + [move];
    }
  }

  lemma SettledIsLeft(s: System, move: Move, key: int)
    requires s.walk == AtSettled(key, R.Moved)
    ensures Moved(s, move).walk == s.walk <==> !OfTheWalker(move)
  {
    hide Moved;
    if OfTheWalker(move) {
      WalkGoesByTheWorld(s, move.w);
    } else {
      WalkStays(s, move);
    }
  }

  /** From boot, under every interleaving: an attempt is being settled Moved
      exactly when its last turn ended a final chunk at the tip. */
  lemma {:induction false} MovedMeansAtTheTip(moves: seq<Move>, key: int)
    ensures
      MovedAll(Booted(), moves).walk == AtSettled(key, R.Moved) <==>
      exists i :: 0 <= i < |moves| && TippedAt(moves, i, key)
    decreases |moves|
  {
    hide Moved, MovedAll, TipTurn;
    if moves == [] {
      NoMoves();
    } else {
      var before, move := moves[..|moves| - 1], moves[|moves| - 1];
      var s := MovedAll(Booted(), before);
      assert moves == before + [move];
      MovedAllMore(Booted(), before, move);
      MovedMeansAtTheTip(before, key);
      ArrivesExactly(s, move, key);
      TippedEarlier(before, move, key);
      if s.walk == AtSettled(key, R.Moved) { SettledIsLeft(s, move, key); }
    }
  }

  lemma NoMoves()
    ensures MovedAll(Booted(), []).walk == AtDue
  {
  }

  lemma TippedEarlier(before: seq<Move>, move: Move, key: int)
    ensures
      var moves := before + [move];
      (exists i :: 0 <= i < |moves| && TippedAt(moves, i, key)) <==>
      TipTurn(MovedAll(Booted(), before), move, key)
      || (!OfTheWalker(move) && exists i :: 0 <= i < |before| && TippedAt(before, i, key))
  {
    hide MovedAll, TipTurn;
    var moves, n := before + [move], |before|;
    assert moves[..n] == before && moves[n] == move;
    forall i | 0 <= i < n
      ensures TippedAt(moves, i, key) <==> !OfTheWalker(move) && TippedAt(before, i, key)
    {
      assert moves[..i] == before[..i];
      assert forall j | i < j < n :: moves[j] == before[j];
    }
    assert TippedAt(moves, n, key) <==> TipTurn(MovedAll(Booted(), before), move, key);
  }

  //
  // A Peer's process.
  //

  function PeerAfter(key: int, reading: Reading, state: State, w: World): Option<Reading> {
    if state.over then None
    else
      match reading
      case AtHeard =>
        if state.node.None? then Some(AtHeard)
        else if w.hearing.Err? then None
        else
          (match w.hearing.value
           case Spoke(_, command, body) => Some(AtHandled(command, body))
           case Quiet(_, _) => Some(AtHeard)
           case Went(_) => None)
      case AtHandled(command, body) =>
        if state.node.None? then None
        else
          match HandMessage(state.catching, key, command, body, w)
          case OfReply(_) => Some(AtHeard)
          case OfFlight(filed) => if key in filed.state.pool.seated then Some(AtHeard) else None
          case OfNode(node) => if key in node.pool.seated then Some(AtHeard) else None
          case _ => None
  }

  lemma HeardGoes(key: int, state: State, w: World)
    ensures
      var next := PeerAfter(key, AtHeard, state, w);
      match HeardAnswered(state, key, w).reply
      case Park(_) => next == Some(AtHeard)
      case Answer(said) =>
        said.SaidHeard?
        && next == if said.heard.Gone? then None else Some(AtHandled(said.heard.command, said.heard.body))
  {
  }

  lemma HandledGoes(key: int, command: string, body: seq<int>, state: State, w: World)
    ensures
      var next := PeerAfter(key, AtHandled(command, body), state, w);
      var reply := HandledAnswered(state, key, command, body, w).reply;
      reply.Answer? && reply.said.SaidHandled? && next == if reply.said.seated then Some(AtHeard) else None
  {
  }

  lemma ToldAlikeToo(key: int, reading: Reading, state: State, w: World, enteredMs: int, doing: string)
    ensures PeerAfter(key, reading, Clocked(state, enteredMs, doing), w) == PeerAfter(key, reading, state, w)
  {
    hide HandMessage;
  }

  lemma PeerReplied(key: int, reading: Reading, state: State, w: World)
    ensures
      match reading
      case AtHeard => Replied(state, R.Question.Heard(key), w) == HeardAnswered(state, key, w)
      case AtHandled(command, body) =>
        Replied(state, R.Handled(key, command, body), w) == HandledAnswered(state, key, command, body, w)
  {
  }

  /** One turn of a Peer's process: a Message heard is the one it will have acted
      on, and it goes back to reading while its socket is there. */
  lemma PeerGoesByTheWorld(s: System, key: int, w: World)
    requires key in s.peers
    ensures
      var next := PeerAfter(key, s.peers[key], s.state, w);
      Moved(s, Ask(Peer(key), w)).peers == if next.Some? then s.peers[key := next.value] else s.peers - {key}
  {
    hide Doing, LostAfter, Owner.Ask, Clocked, PeerAfter, Replied, HeardAnswered, HandledAnswered;
    var reading, q := s.peers[key], AskedBy(s, Peer(key));
    var entered := Clocked(s.state, w.enteredMs, Doing(q));
    AskShape(s.state, q, w);
    ToldAlikeToo(key, reading, s.state, w, w.enteredMs, Doing(q));
    PeerReplied(key, reading, entered, w);
    match reading
    case AtHeard => HeardGoes(key, entered, w);
    case AtHandled(command, body) => HandledGoes(key, command, body, entered, w);
    assert s.peers[key := s.peers[key]] == s.peers;
  }

  /** The loop seats a process for each Peer with a socket in an open node, once,
      and begins it reading. */
  lemma SeatedWithASocket(s: System, key: int)
    ensures
      var open := !s.state.over && s.state.node.Some? && key in s.state.node.value.pool.seated;
      Moved(s, Seat(key)) == if open && key !in s.peers then s.(peers := s.peers[key := AtHeard]) else s
  {
  }

  //
  // The first Catch-up.
  //

  /** due takes a claim up. */
  ghost predicate ClaimTurn(s: System, move: Move) {
    && OfTheWalker(move) && s.walk == AtDue
    && !s.state.over && s.state.node.Some? && s.state.catching.None? && move.w.claim.Some?
  }

  lemma FirstMoved(s: System, move: Move)
    ensures Moved(s, move).state.first <==> s.state.first && !ClaimTurn(s, move)
  {
    hide Owner.Ask, Clocked, Doing, HandedBy, Taking, Told, ParksRight, AnswersRight, Outside;
    MovedState(s, move);
    if move.Ask? && Alive(s, move.process) {
      var q := AskedBy(s, move.process);
      var entered := Clocked(s.state, move.w.enteredMs, Doing(q));
      EveryTurnTakesItsHand(s.state, q, move.w);
      TakingKeepsFirst(entered, HandedBy(entered, q, move.w), move.w);
      ClockedKeepsFirst(s.state, q, move.w.enteredMs);
    }
  }

  lemma TakingKeepsFirst(state: State, hand: Hand, w: World)
    ensures Taking(state, hand, w).first == state.first
  {
  }

  lemma ClockedKeepsFirst(state: State, q: R.Question, enteredMs: int)
    ensures
      var after := Clocked(state, enteredMs, Doing(q));
      && after.first == state.first && after.over == state.over && after.catching == state.catching
      && (after.node.Some? <==> state.node.Some?)
  {
    hide Doing;
  }

  /** From boot, under every interleaving: the first Catch-up is owed exactly
      until due has taken a claim up. */
  lemma {:induction false} FirstIsOwedUntilTaken(moves: seq<Move>)
    ensures
      MovedAll(Booted(), moves).state.first <==>
      forall i | 0 <= i < |moves| :: !ClaimTurn(MovedAll(Booted(), moves[..i]), moves[i])
    decreases |moves|
  {
    hide Moved, ClaimTurn;
    if moves != [] {
      var n := |moves| - 1;
      var before, move := moves[..n], moves[n];
      hide MovedAll;
      assert moves == before + [move];
      MovedAllMore(Booted(), before, move);
      FirstIsOwedUntilTaken(before);
      FirstMoved(MovedAll(Booted(), before), move);
      assert forall i | 0 <= i < n :: moves[..i] == before[..i] && moves[i] == before[i];
    }
  }
}
