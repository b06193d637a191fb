/** The processes of main.av and the owner they ask, interleaved in any order:
    one walk, one process per seated Peer, a clock, an acceptor, a writer and a
    starter. */
module Node {
  import opened Bytes
  import opened Owner
  import opened Walk
  import R = Requests

  /** A Peer's process: waiting for a Message, or with one to be acted on. */
  datatype Reading = AtHeard | AtHandled(command: string, body: seq<int>)

  /** lost is history: the walk's step took the bare Err arm since due was last
      answered. */
  datatype System = System(state: State, walk: Pc, lost: bool, starter: bool, ticker: bool, acceptor: bool,
      writer: bool, peers: map<int, Reading>)

  datatype Process = Starter | Walker | Ticker | Acceptor | Writer | Peer(key: int)

  /** One thing that happens: the loop seats a Peer's process, or a process has
      its question asked. */
  datatype Move = Seat(key: int) | Ask(process: Process, w: World)

  function Booted(): System {
    System(Fresh(), AtDue, false, true, true, true, true, map[])
  }

  predicate Alive(s: System, p: Process) {
    match p
    case Starter => s.starter
    case Walker => !s.walk.Returned?
    case Ticker => s.ticker
    case Acceptor => s.acceptor
    case Writer => s.writer
    case Peer(key) => key in s.peers
  }

  function AskedBy(s: System, p: Process): R.Question
    requires Alive(s, p)
  {
    match p
    case Starter => R.Question.Started
    case Walker => Asks(s.walk)
    case Ticker => R.Ticked
    case Acceptor => R.Accepted
    case Writer => R.Drained
    case Peer(key) =>
      match s.peers[key]
      case AtHeard => R.Question.Heard(key)
      case AtHandled(command, body) => R.Handled(key, command, body)
  }

  function TurnedIn(said: R.Said): R.Turned { if said.SaidTurned? then said.turned else R.Turned.Over }
  function HeardIn(said: R.Said): R.Heard { if said.SaidHeard? then said.heard else R.Gone }
  function SeatedIn(said: R.Said): bool { said.SaidHandled? && said.seated }

  /** The process goes on, or returns. */
  function Advanced(s: System, p: Process, said: R.Said): System
    requires Alive(s, p)
  {
    match p
    case Starter => s.(starter := false)
    case Walker => s.(walk := Goes(s.walk, said))
    case Ticker => s.(ticker := TurnedIn(said).Again?)
    case Acceptor => s.(acceptor := TurnedIn(said).Again?)
    case Writer => s.(writer := TurnedIn(said).Again?)
    case Peer(key) =>
      match s.peers[key]
      case AtHeard =>
        (match HeardIn(said)
         case Message(command, body) => s.(peers := s.peers[key := AtHandled(command, body)])
         case Gone => s.(peers := s.peers - {key}))
      case AtHandled(_, _) =>
        if SeatedIn(said) then s.(peers := s.peers[key := AtHeard]) else s.(peers := s.peers - {key})
  }

  /** The Err arm taken is remembered until the next Catch-up is taken up. */
  function LostAfter(s: System, q: R.Question, w: World): bool {
    if q.Due? then false else s.lost || LosesIt(Clocked(s.state, w.enteredMs, Doing(q)), q, w)
  }

  function Moved(s: System, move: Move): System {
    match move
    case Seat(key) => if key in Peers(s.state) && key !in s.peers then s.(peers := s.peers[key := AtHeard]) else s
    case Ask(p, w) =>
      if !Alive(s, p) then s
      else
        var q := AskedBy(s, p);
        var t := Owner.Ask(s.state, q, w);
        var asked := s.(state := t.state, lost := LostAfter(s, q, w));
        match t.reply
        case Park(_) => asked
        case Answer(said) => Advanced(asked, p, said)
  }

  function MovedAll(s: System, moves: seq<Move>): System
    decreases moves
  {
    if moves == [] then s else MovedAll(Moved(s, moves[0]), moves[1..])
  }

  //
  // What every move keeps.
  //

  predicate InAttempt(pc: Pc) {
    !pc.AtDue? && !pc.Returned?
  }

  ghost predicate Sound(s: System) {
    Agree(s.state, s.walk, s.lost)
  }

  /** The owner's state and where the walk stands agree. */
  ghost predicate Agree(state: State, walk: Pc, lost: bool) {
    && Inv(state)
    && (walk.AtDue? ==> state.catching.None?)
    && (InAttempt(walk) ==> state.node.Some?)
    && (InAttempt(walk) ==> state.over || (state.catching.None? <==> lost))
    && (walk.AtSettled? && walk.ending.Over? ==> state.over || state.catching.None?)
    && (walk.Returned? ==> state.over)
  }

  /** The clocked turn a move is. */
  function TurnOf(s: System, p: Process, w: World): Turn
    requires Alive(s, p)
  {
    Owner.Ask(s.state, AskedBy(s, p), w)
  }

  lemma AdvancedPeerKeepsTheRest(s: System, key: int, said: R.Said)
    requires key in s.peers
    ensures var after := Advanced(s, Peer(key), said); after == s.(peers := after.peers)
  {
    hide HeardIn, SeatedIn;
  }

  lemma AdvancedKeepsTheRest(s: System, p: Process, said: R.Said)
    requires Alive(s, p)
    ensures
      var after := Advanced(s, p, said);
      after.state == s.state && after.lost == s.lost && (!p.Walker? ==> after.walk == s.walk)
  {
    hide Goes, HeardIn, SeatedIn, TurnedIn;
    if p.Peer? { AdvancedPeerKeepsTheRest(s, p.key, said); }
  }

  lemma MovedByOther(s: System, p: Process, w: World)
    requires Alive(s, p) && !p.Walker?
    ensures
      var after := Moved(s, Ask(p, w));
      after.state == TurnOf(s, p, w).state && after.walk == s.walk && after.lost == LostAfter(s, AskedBy(s, p), w)
  {
    hide Owner.Ask, LostAfter, Advanced;
    var t := TurnOf(s, p, w);
    if t.reply.Answer? {
      AdvancedKeepsTheRest(s.(state := t.state, lost := LostAfter(s, AskedBy(s, p), w)), p, t.reply.said);
    }
  }

  lemma MovedByWalker(s: System, w: World)
    requires !s.walk.Returned?
    ensures
      var t, after := TurnOf(s, Walker, w), Moved(s, Ask(Walker, w));
      && after.state == t.state && after.lost == LostAfter(s, Asks(s.walk), w)
      && after.walk == (match t.reply case Park(_) => s.walk case Answer(said) => Goes(s.walk, said))
  {
    hide Owner.Ask, LostAfter, Goes;
  }

  /** A turn of the walk's questions, seen from the walk. */
  lemma WalkTurn(state: State, pc: Pc, lost: bool, w: World)
    requires InAttempt(pc) && !pc.AtSettled?
    requires Inv(state) && state.node.Some? && (state.over || (state.catching.None? <==> lost))
    ensures
      var q := Asks(pc);
      var t := Replied(state, q, w);
      var now := lost || LosesIt(state, q, w);
      && (t.state.over <==> state.over)
      && t.state.node.Some?
      && (t.state.over || (t.state.catching.None? <==> now))
      && (t.reply.Answer? ==>
            var after := Goes(pc, t.reply.said);
            InAttempt(after) && (after.AtSettled? && after.ending.Over? ==> t.state.over || t.state.catching.None?))
  {
    var q := Asks(pc);
    if pc.AtHeaders? || pc.AtAligned? || pc.AtFetched? {
      FetchTurn(state, pc, w);
    } else {
      ChunkTurn(state, pc, lost, w);
    }
  }

  lemma FetchTurn(state: State, pc: Pc, w: World)
    requires pc.AtHeaders? || pc.AtAligned? || pc.AtFetched?
    requires Inv(state) && state.node.Some?
    ensures
      var t := Replied(state, Asks(pc), w);
      && t.state.over == state.over && t.state.node.Some? && (t.state.catching.None? <==> state.catching.None?)
      && (t.reply.Answer? ==>
            var after := Goes(pc, t.reply.said);
            InAttempt(after) && (after.AtSettled? && after.ending.Over? ==> t.state.over || t.state.catching.None?))
  {
    if pc.AtHeaders? { HeadersTurn(state, pc.key, w); }
  }

  lemma HeadersTurn(state: State, key: int, w: World)
    requires Inv(state) && state.node.Some?
    ensures
      var t := HeadersAnswered(state, key, w);
      && t.state.over == state.over && t.state.node.Some? && (t.state.catching.None? <==> state.catching.None?)
      && (t.reply.Answer? ==> t.reply.said.SaidBatch?)
      && (t.reply.Answer? && t.reply.said.batch.Over? ==> t.state.over || t.state.catching.None?)
  {
  }

  /** What a turn of a chunk's questions leaves the walk with. */
  ghost predicate ChunkTurned(state: State, pc: Pc, lost: bool, w: World)
    requires !pc.Returned?
  {
    var t := Replied(state, Asks(pc), w);
    && t.state.over == state.over && t.state.node.Some?
    && (t.state.over || (t.state.catching.None? <==> lost || LosesIt(state, Asks(pc), w)))
    && (t.reply.Answer? ==>
          var after := Goes(pc, t.reply.said);
          InAttempt(after) && (after.AtSettled? && after.ending.Over? ==> t.state.over || t.state.catching.None?))
  }

  lemma ChunkTurn(state: State, pc: Pc, lost: bool, w: World)
    requires pc.AtBegun? || pc.AtConnected? || pc.AtEnded?
    requires Inv(state) && state.node.Some? && (state.over || (state.catching.None? <==> lost))
    ensures ChunkTurned(state, pc, lost, w)
  {
    hide ChunkTurned;
    if pc.AtBegun? {
      BegunTurn(state, pc, lost, w);
    } else if pc.AtConnected? {
      ConnectedTurn(state, pc, lost, w);
    } else {
      EndedTurn(state, pc, lost, w);
    }
  }

  lemma BegunTurn(state: State, pc: Pc, lost: bool, w: World)
    requires pc.AtBegun?
    requires Inv(state) && state.node.Some? && (state.over || (state.catching.None? <==> lost))
    ensures ChunkTurned(state, pc, lost, w)
  {
  }

  lemma ConnectedTurn(state: State, pc: Pc, lost: bool, w: World)
    requires pc.AtConnected?
    requires Inv(state) && state.node.Some? && (state.over || (state.catching.None? <==> lost))
    ensures ChunkTurned(state, pc, lost, w)
  {
  }

  lemma EndedTurn(state: State, pc: Pc, lost: bool, w: World)
    requires pc.AtEnded?
    requires Inv(state) && state.node.Some? && (state.over || (state.catching.None? <==> lost))
    ensures ChunkTurned(state, pc, lost, w)
  {
  }

  lemma DueTurn(state: State, w: World)
    requires Inv(state) && state.catching.None?
    ensures
      var t := DueAnswered(state, w);
      match t.reply
      case Park(_) => t.state.catching.None?
      case Answer(said) =>
        && said.SaidDue?
        && (said.due.Over? ==> t.state.over)
        && (said.due.From? ==> t.state.catching.Some? && t.state.node.Some?)
  {
  }

  lemma SettledTurn(state: State, key: int, ending: R.Ending, w: World)
    requires Inv(state) && state.node.Some?
    requires ending.Over? ==> state.over || state.catching.None?
    ensures
      var t := SettledAnswered(state, key, ending, w);
      && t.reply.Answer? && t.reply.said.SaidSettled?
      && (t.reply.said.settled.Over? <==> t.state.over)
      && (t.reply.said.settled.Rested? ==> t.state.catching.None?)
      && (t.reply.said.settled.Again? ==> t.state.catching.Some? && t.state.node.Some? && state.catching.Some?)
  {
  }

  lemma DueSound(s: System, w: World)
    requires Sound(s) && s.walk.AtDue?
    ensures Sound(Moved(s, Ask(Walker, w)))
  {
    hide Replied, Owner.Ask, Moved;
    var entered := Clocked(s.state, w.enteredMs, Doing(R.Question.Due));
    AskShape(s.state, R.Question.Due, w);
    AskInv(s.state, R.Question.Due, w);
    MovedByWalker(s, w);
    DueReplied(entered, w);
    DueTurn(entered, w);
  }

  lemma SettledSound(s: System, w: World)
    requires Sound(s) && s.walk.AtSettled?
    ensures Sound(Moved(s, Ask(Walker, w)))
  {
    hide Replied, Owner.Ask, Moved, LosesIt;
    var q := Asks(s.walk);
    var entered := Clocked(s.state, w.enteredMs, Doing(q));
    AskShape(s.state, q, w);
    AskInv(s.state, q, w);
    MovedByWalker(s, w);
    SettledReplied(entered, s.walk.key, s.walk.ending, w);
    SettledTurn(entered, s.walk.key, s.walk.ending, w);
    NeverLost(entered, q, w);
  }

  lemma StepSound(s: System, w: World)
    requires Sound(s) && InAttempt(s.walk) && !s.walk.AtSettled?
    ensures Sound(Moved(s, Ask(Walker, w)))
  {
    hide Replied, Owner.Ask, Moved, LosesIt, Doing, Goes;
    var q := Asks(s.walk);
    AskShape(s.state, q, w);
    AskInv(s.state, q, w);
    MovedByWalker(s, w);
    WalkTurn(Clocked(s.state, w.enteredMs, Doing(q)), s.walk, s.lost, w);
  }

  lemma DueReplied(state: State, w: World)
    ensures Replied(state, R.Question.Due, w) == DueAnswered(state, w)
  {
  }

  lemma SettledReplied(state: State, key: int, ending: R.Ending, w: World)
    ensures Replied(state, R.Question.Settled(key, ending), w) == SettledAnswered(state, key, ending, w)
  {
  }

  /** Another process's turn leaves the Catch-up alone, or closes the node. */
  lemma OtherSound(s: System, p: Process, w: World)
    requires Sound(s) && !p.Walker? && Alive(s, p)
    ensures Sound(Moved(s, Ask(p, w)))
  {
    hide Replied, Owner.Ask, LosesIt, Doing, Moved;
    var q := AskedBy(s, p);
    var entered := Clocked(s.state, w.enteredMs, Doing(q));
    AskShape(s.state, q, w);
    AskInv(s.state, q, w);
    NeverLost(entered, q, w);
    MovedByOther(s, p, w);
    if s.state.catching.Some? {
      WireLeaves(entered, q, w);
    } else {
      RepliedComes(entered, q, w);
    }
  }

  lemma MovedSound(s: System, move: Move)
    requires Sound(s)
    ensures Sound(Moved(s, move))
  {
    hide Sound, Owner.Ask;
    match move
    case Seat(key) => SeatSound(s, key);
    case Ask(p, w) =>
      if Alive(s, p) {
        if !p.Walker? {
          OtherSound(s, p, w);
        } else if s.walk.AtDue? {
          DueSound(s, w);
        } else if s.walk.AtSettled? {
          SettledSound(s, w);
        } else {
          StepSound(s, w);
        }
      }
  }

  lemma SeatSound(s: System, key: int)
    requires Sound(s)
    ensures Sound(Moved(s, Seat(key)))
  {
  }

  lemma {:induction false} MovedAllSound(s: System, moves: seq<Move>)
    requires Sound(s)
    ensures Sound(MovedAll(s, moves))
    decreases moves
  {
    hide Sound, Moved;
    if moves != [] {
      MovedSound(s, moves[0]);
      MovedAllSound(Moved(s, moves[0]), moves[1..]);
    }
  }

  /** Under every interleaving: the walk returns only once the node is over, due
      is never asked with a Catch-up held, and while an attempt is under way in
      an open node its Catch-up is held unless the bare Err arm lost it. */
  lemma EveryReachableSystem(moves: seq<Move>)
    ensures
      var s := MovedAll(Booted(), moves);
      && Sound(s)
      && (s.walk.Returned? ==> s.state.over)
      && (s.walk.AtDue? ==> s.state.catching.None?)
      && (InAttempt(s.walk) && !s.state.over ==> (s.state.catching.Some? <==> !s.lost))
  {
    MovedAllSound(Booted(), moves);
  }

  /** The starter returns with the node open or the run ended; the clock and the
      writer only once the node is over. */
  ghost predicate Lasting(s: System) {
    && (!s.starter ==> s.state.node.Some? || s.state.over)
    && (!s.ticker ==> s.state.over)
    && (!s.writer ==> s.state.over)
  }

  lemma LastAnswers(state: State, q: R.Question, w: World)
    requires q.Started? || q.Ticked? || q.Drained?
    ensures
      var t := Replied(state, q, w);
      t.reply.Answer? ==> t.state.over || (q.Started? && t.state.node.Some?)
  {
  }

  lemma MovedLasting(s: System, move: Move)
    requires Inv(s.state) && Lasting(s)
    ensures Lasting(Moved(s, move))
  {
    hide Replied, Owner.Ask, LosesIt, Doing, Goes, Inv;
    if move.Ask? && Alive(s, move.process) {
      var p, w, q := move.process, move.w, AskedBy(s, move.process);
      AskShape(s.state, q, w);
      AskInv(s.state, q, w);
      if p.Starter? || p.Ticker? || p.Writer? {
        LastAnswers(Clocked(s.state, w.enteredMs, Doing(q)), q, w);
      }
    }
  }

  lemma {:induction false} MovedAllLasting(s: System, moves: seq<Move>)
    requires Sound(s) && Lasting(s)
    ensures Lasting(MovedAll(s, moves))
    decreases moves
  {
    hide Lasting, Moved;
    if moves != [] {
      MovedSound(s, moves[0]);
      MovedLasting(s, moves[0]);
      MovedAllLasting(Moved(s, moves[0]), moves[1..]);
    }
  }

  /** Under every interleaving, a clock or a writer that has returned did so
      because the node is over, and a starter that has returned opened the node
      or ended the run. */
  lemma EveryProcessLasts(moves: seq<Move>)
    ensures Lasting(MovedAll(Booted(), moves))
  {
    MovedAllLasting(Booted(), moves);
  }

  //
  // Stopped, settled.
  //

  /** A walk that stopped closes the node exactly when its Catch-up was not lost
      to the Err arm; when it was, the walk rests and the node stays open. */
  lemma StoppedClosesUnlessLost(s: System, w: World)
    requires Sound(s) && s.walk.AtSettled? && s.walk.ending.Stopped? && !s.state.over
    ensures
      var after := Moved(s, Ask(Walker, w));
      && (after.state.over <==> !s.lost)
      && after.walk == if s.lost then AtDue else Returned
  {
    hide Owner.Ask;
    StoppedCloses(s.state, s.walk.key, s.walk.ending.why, w);
  }

  /** An attempt whose Catch-up was lost is settled to rest, whatever its ending:
      no Peer is dropped, nothing is closed, and the walk waits for the next. */
  lemma LostIsSettledToRest(s: System, w: World)
    requires Sound(s) && s.walk.AtSettled? && s.lost && !s.state.over
    ensures
      var after := Moved(s, Ask(Walker, w));
      after.walk == AtDue && !after.state.over
  {
    hide Owner.Ask, Moved;
    AskShape(s.state, Asks(s.walk), w);
    MovedByWalker(s, w);
  }

  /** Any other question of such an attempt is answered Over and ends it. */
  lemma LostIsAnsweredOver(s: System, w: World)
    requires Sound(s) && InAttempt(s.walk) && !s.walk.AtSettled? && s.lost && !s.state.over
    requires !(s.walk.AtBegun? || s.walk.AtConnected? || s.walk.AtEnded?)
    ensures
      var after := Moved(s, Ask(Walker, w));
      after.walk == AtSettled(s.walk.key, R.Ending.Over) && after.lost && !after.state.over
  {
    hide Owner.Ask, Moved;
    AskShape(s.state, Asks(s.walk), w);
    MovedByWalker(s, w);
  }

  lemma LostInChunkIsAnsweredOver(s: System, w: World)
    requires Sound(s) && s.lost && !s.state.over
    requires s.walk.AtBegun? || s.walk.AtConnected? || s.walk.AtEnded?
    ensures
      var after := Moved(s, Ask(Walker, w));
      after.walk == AtSettled(s.walk.key, R.Ending.Over) && after.lost && !after.state.over
  {
    hide Owner.Ask, Moved;
    AskShape(s.state, Asks(s.walk), w);
    MovedByWalker(s, w);
  }

  /** What the walk makes of a step that took the arm. */
  function RefusedBy(w: World): R.Chunk
    requires w.stepping.Err?
  {
    if w.refusal.Some? then R.Chunk.Invalid(w.refusal.value.blockId, w.refusal.value.reason)
        else R.Chunk.Refused(w.stepping.why)
  }

  /** The ending of a final chunk that was refused. */
  function EndingOf(chunk: R.Chunk): R.Ending
    requires chunk.Refused? || chunk.Invalid?
  {
    match chunk
    case Refused(why) => R.Ending.Stopped(why)
    case Invalid(blockId, why) => R.Ending.Invalid(blockId, why)
  }

  /** Every step that takes the Err arm loses the Catch-up in an open node. On the
      way to the tip the walk then settles Stopped, or Invalid when the reason
      names a Block; between two slices it goes back to the download. */
  lemma ErrArmLoses(s: System, w: World)
    requires Sound(s) && s.walk.AtConnected? && !s.state.over
    requires LosesIt(Clocked(s.state, w.enteredMs, "connected"), Asks(s.walk), w)
    ensures
      var after := Moved(s, Ask(Walker, w));
      && after.lost && !after.state.over && after.state.catching.None?
      && after.walk == AfterChunk(s.walk.key, s.walk.final, RefusedBy(w))
  {
    hide Owner.Ask, Moved, AfterChunk;
    AskShape(s.state, Asks(s.walk), w);
    MovedByWalker(s, w);
  }

  /** The whole family, from the step to rest with the node open: two turns of the
      walk in a final chunk, three between slices, where the download is
      abandoned. */
  lemma ErrArmRests(s: System, w: World, second: World, third: World)
    requires Sound(s) && s.walk.AtConnected? && !s.state.over
    requires LosesIt(Clocked(s.state, w.enteredMs, "connected"), Asks(s.walk), w)
    ensures
      var a := Moved(s, Ask(Walker, w));
      var b := Moved(a, Ask(Walker, second));
      if s.walk.final then
        a.walk == AtSettled(s.walk.key, EndingOf(RefusedBy(w))) && b.walk == AtDue && !b.state.over
      else
        var c := Moved(b, Ask(Walker, third));
        && a.walk == AtFetched(s.walk.key) && b.walk == AtSettled(s.walk.key, R.Ending.Over)
        && c.walk == AtDue && !c.state.over
  {
    hide Owner.Ask, Moved, Sound;
    ErrArmLoses(s, w);
    MovedSound(s, Ask(Walker, w));
    var a := Moved(s, Ask(Walker, w));
    if s.walk.final {
      LostIsSettledToRest(a, second);
    } else {
      LostIsAnsweredOver(a, second);
      MovedSound(a, Ask(Walker, second));
      LostIsSettledToRest(Moved(a, Ask(Walker, second)), third);
    }
  }

  lemma OtherKeepsLost(s: System, move: Move)
    requires !(move.Ask? && move.process.Walker?)
    ensures Moved(s, move).walk == s.walk && Moved(s, move).lost == s.lost
  {
    hide Owner.Ask;
    if move.Ask? && Alive(s, move.process) {
      MovedByOther(s, move.process, move.w);
      NeverLost(Clocked(s.state, move.w.enteredMs, Doing(AskedBy(s, move.process))), AskedBy(s, move.process), move.w);
    }
  }

  /** However the rest interleaves, a lost attempt is at rest after two more turns
      of the walk, one if it is being settled, unless some process has closed
      the node. */
  lemma {:induction false} LostRunsToRest(s: System, moves: seq<Move>)
    requires Sound(s) && InAttempt(s.walk) && s.lost
    requires TurnsOf(moves, Walker) == if s.walk.AtSettled? then 1 else 2
    ensures var after := MovedAll(s, moves); after.state.over || after.walk == AtDue
    decreases |moves|
  {
    hide Moved, Sound;
    var move, rest := moves[0], moves[1..];
    var next := Moved(s, move);
    MovedSound(s, move);
    if s.state.over || next.state.over {
      OverSound(s);
      OverSound(next);
      if s.state.over { OverStays(s, move); }
      LeftRunsDown(next, rest, Walker);
    } else if !(move.Ask? && move.process.Walker?) {
      OtherKeepsLost(s, move);
      LostRunsToRest(next, rest);
    } else if s.walk.AtSettled? {
      LostIsSettledToRest(s, move.w);
      RestStays(next, rest);
    } else {
      if s.walk.AtBegun? || s.walk.AtConnected? || s.walk.AtEnded? {
        LostInChunkIsAnsweredOver(s, move.w);
      } else {
        LostIsAnsweredOver(s, move.w);
      }
      LostRunsToRest(next, rest);
    }
  }

  lemma OverSound(s: System)
    requires Sound(s)
    ensures Inv(s.state)
  {
  }

  lemma {:induction false} RestStays(s: System, moves: seq<Move>)
    requires s.walk.AtDue? && TurnsOf(moves, Walker) == 0
    ensures MovedAll(s, moves).walk.AtDue?
    decreases |moves|
  {
    hide Moved;
    if moves != [] {
      OtherKeepsLost(s, moves[0]);
      RestStays(Moved(s, moves[0]), moves[1..]);
    }
  }

  /** Every step is answered and none errs, as infra/follow.av:818-828 has it. */
  ghost predicate StepsAnswer(moves: seq<Move>) {
    forall i | 0 <= i < |moves| :: moves[i].Ask? ==> moves[i].w.stepping.Ok?
  }

  lemma StepAnswered(s: System, move: Move)
    requires !s.lost && (move.Ask? ==> move.w.stepping.Ok?)
    ensures !Moved(s, move).lost
  {
    hide Owner.Ask;
    if move.Ask? && Alive(s, move.process) {
      if move.process.Walker? { MovedByWalker(s, move.w); } else { OtherKeepsLost(s, move); }
    }
  }

  lemma {:induction false} StepsAnsweredLoseNothing(s: System, moves: seq<Move>)
    requires !s.lost && StepsAnswer(moves)
    ensures !MovedAll(s, moves).lost
    decreases |moves|
  {
    hide Moved;
    if moves != [] {
      StepAnswered(s, moves[0]);
      StepsAnsweredLoseNothing(Moved(s, moves[0]), moves[1..]);
    }
  }

  /** So with those steps, in every reachable open node an attempt holds its
      Catch-up, and one that stopped closes the node. */
  lemma StoppedAlwaysCloses(moves: seq<Move>, w: World)
    requires StepsAnswer(moves)
    ensures
      var s := MovedAll(Booted(), moves);
      && (InAttempt(s.walk) && !s.state.over ==> s.state.catching.Some?)
      && (s.walk.AtSettled? && s.walk.ending.Stopped? && !s.state.over ==>
            var after := Moved(s, Ask(Walker, w)); after.state.over && after.walk.Returned?)
  {
    hide Owner.Ask, Moved;
    MovedAllSound(Booted(), moves);
    StepsAnsweredLoseNothing(Booted(), moves);
    var s := MovedAll(Booted(), moves);
    if s.walk.AtSettled? && s.walk.ending.Stopped? && !s.state.over {
      StoppedClosesUnlessLost(s, w);
    }
  }

  function SomeNode(): Following {
    Following(Pool([], [], 0), false, false, 0, "", 0)
  }

  /** A Catch-up of Peer 1 with a chunk under way at Height 5. */
  function SomeCatching(): Catching {
    Catching(1, 0, None, false, Some(5), 0)
  }

  /** A World in which everything goes well until the step's Err. */
  function ErrArmWorld(): World {
    var node, walked := SomeNode(), Walked(SomeNode(), SomeCatching());
    World(1, 1, 1, Some(Ok(Nothing)), Ok(node), Err(""), Ok(node), Filed(node, 0), false, node, Ok(node),
          Ok(Admitted(node, false)), Ok(node), false, false, Some(1), Ok(walked),
          Ok(Paused(walked)), Err(""), Ok(Ready(walked)), Ok(Landed(walked)), Ok(Begun(walked, 5)), Err("no"),
          Err(""), Ok(node), Err(""), Err(""), None, node, Ok(node), 0, 0)
  }

  /** The walk stands here with that Catch-up held and nothing lost. */
  ghost predicate Stage(s: System, pc: Pc) {
    && s.walk == pc && s.state.node.Some? && !s.state.over && !s.lost
    && s.state.catching == if InAttempt(pc) then Some(SomeCatching()) else None
  }

  lemma StageTurn(s: System, pc: Pc, next: Pc)
    requires Stage(s, pc)
    requires next == match pc
                     case AtDue => AtHeaders(1)
                     case AtHeaders(key) => AtAligned(key)
                     case AtAligned(key) => AtFetched(key)
                     case AtFetched(key) => AtBegun(key, true)
                     case AtBegun(key, true) => AtConnected(key, true, 5)
                     case _ => Returned
    requires !next.Returned?
    ensures Stage(Moved(s, Ask(Walker, ErrArmWorld())), next)
  {
    hide Owner.Ask, Moved;
    var w := ErrArmWorld();
    AskShape(s.state, Asks(pc), w);
    MovedByWalker(s, w);
    AskInv(s.state, Asks(pc), w);
  }

  /** And the family is not empty under a World whose step answers Err: it is
      reached from the start in eight turns, after which the Stopped attempt is
      settled and the node is open. */
  lemma ErrArmIsReached()
    ensures
      exists moves ::
        |moves| == 8 && var s := MovedAll(Booted(), moves); s.walk == AtDue && !s.state.over && s.lost
  {
    hide Moved, Stage;
    var w := ErrArmWorld();
    var a := Moved(Booted(), Ask(Starter, w));
    Begins(w);
    StageTurn(a, AtDue, AtHeaders(1));
    var b := Moved(a, Ask(Walker, w));
    StageTurn(b, AtHeaders(1), AtAligned(1));
    var c := Moved(b, Ask(Walker, w));
    StageTurn(c, AtAligned(1), AtFetched(1));
    var d := Moved(c, Ask(Walker, w));
    StageTurn(d, AtFetched(1), AtBegun(1, true));
    var e := Moved(d, Ask(Walker, w));
    StageTurn(e, AtBegun(1, true), AtConnected(1, true, 5));
    var f := Moved(e, Ask(Walker, w));
    AtTheStep(f);
    var g := Moved(f, Ask(Walker, w));
    var h := Moved(g, Ask(Walker, w));
    var m := Ask(Walker, w);
    EightMoves(Booted(), Ask(Starter, w), m);
    assert |[Ask(Starter, w), m, m, m, m, m, m, m]| == 8;
  }

  lemma Begins(w: World)
    requires w == ErrArmWorld()
    ensures Stage(Moved(Booted(), Ask(Starter, w)), AtDue)
  {
  }

  lemma AtTheStep(s: System)
    requires Stage(s, AtConnected(1, true, 5))
    ensures
      var w := ErrArmWorld();
      var after := Moved(Moved(s, Ask(Walker, w)), Ask(Walker, w));
      after.walk == AtDue && !after.state.over && after.lost
  {
    hide Owner.Ask, Moved;
    var w := ErrArmWorld();
    ErrArmRests(s, w, w, w);
    ErrArmLoses(s, w);
    MovedByWalker(Moved(s, Ask(Walker, w)), w);
  }

  lemma EightMoves(s: System, first: Move, m: Move)
    ensures
      MovedAll(s, [first, m, m, m, m, m, m, m]) ==
      Moved(Moved(Moved(Moved(Moved(Moved(Moved(Moved(s, first), m), m), m), m), m), m), m)
  {
    hide Moved;
    var a := Moved(s, first);
    var b := Moved(a, m);
    var c := Moved(b, m);
    var d := Moved(c, m);
    var e := Moved(d, m);
    var f := Moved(e, m);
    var g := Moved(f, m);
    assert [first, m, m, m, m, m, m, m][1..] == [m, m, m, m, m, m, m];
    assert [m, m, m, m, m, m, m][1..] == [m, m, m, m, m, m];
    assert [m, m, m, m, m, m][1..] == [m, m, m, m, m];
    assert [m, m, m, m, m][1..] == [m, m, m, m];
    assert [m, m, m, m][1..] == [m, m, m];
    assert [m, m, m][1..] == [m, m];
    assert [m, m][1..] == [m];
    assert [m][1..] == [];
    assert MovedAll(g, [m]) == MovedAll(Moved(g, m), []);
    assert MovedAll(f, [m, m]) == MovedAll(g, [m]);
    assert MovedAll(e, [m, m, m]) == MovedAll(f, [m, m]);
    assert MovedAll(d, [m, m, m, m]) == MovedAll(e, [m, m, m]);
    assert MovedAll(c, [m, m, m, m, m]) == MovedAll(d, [m, m, m, m]);
    assert MovedAll(b, [m, m, m, m, m, m]) == MovedAll(c, [m, m, m, m, m]);
  }

  //
  // Once over, everything returns.
  //

  /** How many answers more a process can take once the node is over. */
  function Left(s: System, p: Process): nat {
    if !Alive(s, p) then 0
    else if p.Walker? && !s.walk.AtDue? && !s.walk.AtSettled? then 2
    else 1
  }

  lemma OverWireAnswers(state: State, q: R.Question, w: World)
    requires state.over
    ensures q.Heard? ==> Replied(state, q, w).reply == Answer(R.SaidHeard(R.Gone))
    ensures q.Handled? ==> Replied(state, q, w).reply == Answer(R.SaidHandled(false))
    ensures q.Ticked? || q.Accepted? || q.Drained? ==> Replied(state, q, w).reply == Answer(R.SaidTurned(R.Turned.Over))
    ensures q.Started? ==> Replied(state, q, w).reply.Answer?
  {
  }

  lemma OverWalkAnswers(state: State, pc: Pc, w: World)
    requires state.over && !pc.Returned?
    ensures
      var reply := Replied(state, Asks(pc), w).reply;
      && reply.Answer?
      && var after := Goes(pc, reply.said);
      if pc.AtDue? || pc.AtSettled? then after.Returned? else after.AtSettled?
  {
  }

  lemma OverTurn(s: System, p: Process, w: World)
    requires s.state.over && Alive(s, p)
    ensures Left(Moved(s, Ask(p, w)), p) < Left(s, p)
  {
    hide Replied, Owner.Ask, LosesIt;
    var q := AskedBy(s, p);
    AskShape(s.state, q, w);
    var entered := Clocked(s.state, w.enteredMs, Doing(q));
    if p.Walker? {
      OverWalkAnswers(entered, s.walk, w);
    } else {
      OverWireAnswers(entered, q, w);
    }
  }

  lemma AdvancedPeer(s: System, key: int, said: R.Said, p: Process)
    requires key in s.peers && p != Peer(key)
    ensures Left(Advanced(s, Peer(key), said), p) == Left(s, p)
  {
    hide HeardIn, SeatedIn;
    AdvancedPeerKeepsTheRest(s, key, said);
  }

  lemma AdvancedOther(s: System, q: Process, said: R.Said, p: Process)
    requires Alive(s, q) && q != p
    ensures Left(Advanced(s, q, said), p) == Left(s, p)
  {
    hide Goes;
    if q.Peer? { AdvancedPeer(s, q.key, said, p); }
  }

  /** A move that is not this process's leaves it where it was. */
  lemma OthersTurn(s: System, move: Move, p: Process)
    requires s.state.over && !(move.Ask? && move.process == p)
    ensures Left(Moved(s, move), p) <= Left(s, p)
  {
    hide Owner.Ask, LosesIt, Advanced;
    if move.Ask? && Alive(s, move.process) {
      var t := TurnOf(s, move.process, move.w);
      var asked := s.(state := t.state, lost := LostAfter(s, AskedBy(s, move.process), move.w));
      assert Left(asked, p) == Left(s, p);
      if t.reply.Answer? { AdvancedOther(asked, move.process, t.reply.said, p); }
    }
  }

  lemma MovedState(s: System, move: Move)
    ensures
      Moved(s, move).state ==
      if move.Ask? && Alive(s, move.process) then TurnOf(s, move.process, move.w).state else s.state
  {
    hide Owner.Ask, LostAfter;
    if move.Ask? && Alive(s, move.process) && !move.process.Walker? { MovedByOther(s, move.process, move.w); }
  }

  lemma OverStays(s: System, move: Move)
    requires Inv(s.state) && s.state.over
    ensures Moved(s, move).state.over && Inv(Moved(s, move).state)
  {
    hide Owner.Ask, LosesIt, Inv, Moved;
    MovedState(s, move);
    if move.Ask? && Alive(s, move.process) {
      AskInv(s.state, AskedBy(s, move.process), move.w);
    }
  }

  /** How often a process has its question asked. */
  function TurnsOf(moves: seq<Move>, p: Process): nat {
    if moves == [] then 0
    else (if moves[0].Ask? && moves[0].process == p then 1 else 0) + TurnsOf(moves[1..], p)
  }

  lemma {:induction false} LeftRunsDown(s: System, moves: seq<Move>, p: Process)
    requires Inv(s.state) && s.state.over
    ensures Left(MovedAll(s, moves), p) <= if Left(s, p) >= TurnsOf(moves, p) then Left(s, p) - TurnsOf(moves, p) else 0
    ensures MovedAll(s, moves).state.over
    decreases moves
  {
    hide Moved, Left, Inv;
    if moves != [] {
      var move := moves[0];
      OverStays(s, move);
      if move.Ask? && move.process == p {
        if Alive(s, p) { OverTurn(s, p, move.w); } else { NothingLeft(s, p, move.w); }
      } else {
        OthersTurn(s, move, p);
      }
      LeftRunsDown(Moved(s, move), moves[1..], p);
    }
  }

  lemma NothingLeft(s: System, p: Process, w: World)
    requires !Alive(s, p)
    ensures Left(s, p) == 0 && Moved(s, Ask(p, w)) == s
  {
  }

  lemma LeftAtMost(s: System, p: Process)
    ensures Left(s, p) <= if p.Walker? then 2 else 1
    ensures Left(s, p) == 0 <==> !Alive(s, p)
  {
  }

  /** Once over, however the rest interleaves, the walk returns within two
      answers of its own from wherever it stood, and every other process
      within one. */
  lemma EveryProcessReturns(s: System, moves: seq<Move>, p: Process)
    requires Sound(s) && s.state.over
    requires TurnsOf(moves, p) >= if p.Walker? then 2 else 1
    ensures !Alive(MovedAll(s, moves), p)
  {
    LeftRunsDown(s, moves, p);
    LeftAtMost(s, p);
    LeftAtMost(MovedAll(s, moves), p);
  }

  //
  // Keys.
  //

  /** Every step of the walk that is handed back is of the Catch-up it was given;
      only taking one up and the next Peer after a fault choose a key. */
  ghost predicate KeepsKey(state: State, w: World) {
    state.catching.Some? ==>
      var key := state.catching.value.key;
      && (w.asked.Ok? ==> w.asked.value.walked.catching.key == key)
      && (w.batched.Ok? ==> w.batched.value.walked.catching.key == key)
      && (w.aligning.Ok? ==> w.aligning.value.walked.catching.key == key)
      && (w.flown.Ok? ==> w.flown.value.walked.catching.key == key)
      && (w.chunking.Ok? ==> w.chunking.value.walked.catching.key == key)
      && (w.stepping.Ok? ==> w.stepping.value.walked.catching.key == key)
      && (w.chunked.Ok? ==> w.chunked.value.walked.catching.key == key)
  }

  ghost predicate Keyed(s: System) {
    InAttempt(s.walk) && s.state.catching.Some? ==> s.walk.key == s.state.catching.value.key
  }

  ghost predicate KeepsKeys(s: System, moves: seq<Move>)
    decreases moves
  {
    moves == [] || ((moves[0].Ask? ==> KeepsKey(s.state, moves[0].w)) && KeepsKeys(Moved(s, moves[0]), moves[1..]))
  }

  lemma WireKey(state: State, q: R.Question, w: World)
    requires KeepsKey(state, w)
    requires R.OfTheWire(q)
    ensures
      var after := Replied(state, q, w).state.catching;
      after.Some? ==> state.catching.Some? && after.value.key == state.catching.value.key
  {
  }

  lemma WalkKey(state: State, pc: Pc, w: World)
    requires KeepsKey(state, w) && InAttempt(pc) && !pc.AtSettled?
    ensures
      var t := Replied(state, Asks(pc), w);
      && (t.state.catching.Some? ==> state.catching.Some? && t.state.catching.value.key == state.catching.value.key)
      && (t.reply.Answer? && InAttempt(Goes(pc, t.reply.said)) ==> Goes(pc, t.reply.said).key == pc.key)
  {
    hide KeepsKey;
    if pc.AtHeaders? || pc.AtAligned? || pc.AtFetched? {
      FetchKey(state, pc, w);
    } else {
      ChunkKey(state, pc, w);
    }
  }

  lemma FetchKey(state: State, pc: Pc, w: World)
    requires KeepsKey(state, w) && (pc.AtHeaders? || pc.AtAligned? || pc.AtFetched?)
    ensures
      var t := Replied(state, Asks(pc), w);
      && (t.state.catching.Some? ==> state.catching.Some? && t.state.catching.value.key == state.catching.value.key)
      && (t.reply.Answer? && InAttempt(Goes(pc, t.reply.said)) ==> Goes(pc, t.reply.said).key == pc.key)
  {
  }

  lemma ChunkKey(state: State, pc: Pc, w: World)
    requires KeepsKey(state, w) && (pc.AtBegun? || pc.AtConnected? || pc.AtEnded?)
    ensures
      var t := Replied(state, Asks(pc), w);
      && (t.state.catching.Some? ==> state.catching.Some? && t.state.catching.value.key == state.catching.value.key)
      && (t.reply.Answer? && InAttempt(Goes(pc, t.reply.said)) ==> Goes(pc, t.reply.said).key == pc.key)
  {
  }

  lemma DueKey(state: State, w: World)
    requires state.catching.None?
    ensures
      var t := DueAnswered(state, w);
      t.reply.Answer? && t.reply.said.due.From? ==>
          t.state.catching.Some? && t.state.catching.value.key == t.reply.said.due.key
  {
  }

  lemma SettledKey(state: State, key: int, ending: R.Ending, w: World)
    ensures
      var t := SettledAnswered(state, key, ending, w);
      && t.reply.Answer? && t.reply.said.SaidSettled?
      && (t.reply.said.settled.Again? ==>
          t.state.catching.Some? && t.state.catching.value.key == t.reply.said.settled.key)
  {
  }

  lemma ClockKeepsKey(state: State, w: World, doing: string)
    requires KeepsKey(state, w)
    ensures KeepsKey(Clocked(state, w.enteredMs, doing), w)
  {
  }

  lemma MovedKeyed(s: System, move: Move)
    requires Sound(s) && Keyed(s)
    requires move.Ask? ==> KeepsKey(s.state, move.w)
    ensures Keyed(Moved(s, move))
  {
    hide Sound, KeepsKey, Owner.Ask;
    if move.Ask? && Alive(s, move.process) {
      if move.process.Walker? { WalkerKeyed(s, move.w); } else { OtherKeyed(s, move.process, move.w); }
    }
  }

  lemma OtherKeyed(s: System, p: Process, w: World)
    requires Keyed(s) && KeepsKey(s.state, w) && !p.Walker? && Alive(s, p)
    ensures Keyed(Moved(s, Ask(p, w)))
  {
    hide Replied, Owner.Ask, LosesIt, Doing, Moved, KeepsKey;
    var q := AskedBy(s, p);
    AskShape(s.state, q, w);
    MovedByOther(s, p, w);
    ClockKeepsKey(s.state, w, Doing(q));
    WireKey(Clocked(s.state, w.enteredMs, Doing(q)), q, w);
  }

  lemma WalkerKeyed(s: System, w: World)
    requires Sound(s) && Keyed(s) && KeepsKey(s.state, w) && !s.walk.Returned?
    ensures Keyed(Moved(s, Ask(Walker, w)))
  {
    hide Replied, Owner.Ask, LosesIt, Doing, Moved, KeepsKey;
    var q := Asks(s.walk);
    var entered := Clocked(s.state, w.enteredMs, Doing(q));
    AskShape(s.state, q, w);
    MovedByWalker(s, w);
    ClockKeepsKey(s.state, w, Doing(q));
    if s.walk.AtDue? {
      DueReplied(entered, w);
      DueTurn(entered, w);
      DueKey(entered, w);
    } else if s.walk.AtSettled? {
      SettledReplied(entered, s.walk.key, s.walk.ending, w);
      SettledKey(entered, s.walk.key, s.walk.ending, w);
    } else {
      WalkKey(entered, s.walk, w);
    }
  }

  /** If the steps keep the Catch-up's key, then at every question the walk asks
      while a Catch-up is held, the key it carries is that Catch-up's. */
  lemma {:induction false} WalkCarriesTheKey(s: System, moves: seq<Move>)
    requires Sound(s) && Keyed(s) && KeepsKeys(s, moves)
    ensures Keyed(MovedAll(s, moves))
    decreases moves
  {
    hide Sound, Keyed, Moved, KeepsKey;
    if moves != [] {
      MovedSound(s, moves[0]);
      MovedKeyed(s, moves[0]);
      WalkCarriesTheKey(Moved(s, moves[0]), moves[1..]);
    }
  }

  lemma WalkCarriesTheKeyFromBoot(moves: seq<Move>)
    requires KeepsKeys(Booted(), moves)
    ensures
      var s := MovedAll(Booted(), moves);
      InAttempt(s.walk) && s.state.catching.Some? ==> s.walk.key == s.state.catching.value.key
  {
    WalkCarriesTheKey(Booted(), moves);
  }
}
