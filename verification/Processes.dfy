/** What each process of main.av but the walk asks, by what it was answered: read
    off a log of questions and answers and not off the processes' state. */
module Processes {
  import opened Bytes
  import opened Node
  import Walk
  import Owner
  import R = Requests

  /** A Peer's process begun, or a process's question answered. */
  datatype Event = SatDown(process: Process) | Was(process: Process, q: R.Question, said: R.Said)

  type Log = seq<Event>

  function LastOf(p: Process, log: Log): Option<Event>
    decreases |log|
  {
    if log == [] then None
    else if log[|log| - 1].process == p then Some(log[|log| - 1])
    else LastOf(p, log[..|log| - 1])
  }

  /** The one question a process that is never seated asks. */
  function OnlyQuestion(p: Process): Option<R.Question> {
    match p
    case Starter => Some(R.Question.Started)
    case Ticker => Some(R.Ticked)
    case Acceptor => Some(R.Accepted)
    case Writer => Some(R.Drained)
    case _ => None
  }

  /** What comes next behind this event: a Message heard is acted on, a true
      answer reads on, and the loops ask again until they are told Over. */
  function NextAfter(e: Event): Option<R.Question> {
    match e
    case SatDown(Peer(key)) => Some(R.Question.Heard(key))
    case Was(Peer(key), Heard(_), SaidHeard(Message(command, body))) => Some(R.Handled(key, command, body))
    case Was(Peer(key), Handled(_, _, _), SaidHandled(true)) => Some(R.Question.Heard(key))
    case Was(Ticker, _, SaidTurned(Again)) => Some(R.Ticked)
    case Was(Acceptor, _, SaidTurned(Again)) => Some(R.Accepted)
    case Was(Writer, _, SaidTurned(Again)) => Some(R.Drained)
    case _ => None
  }

  /** The question this process asks next; None if it is not there. */
  function Owes(p: Process, log: Log): Option<R.Question> {
    match LastOf(p, log)
    case None => OnlyQuestion(p)
    case Some(e) => NextAfter(e)
  }

  lemma OwesMore(p: Process, log: Log, e: Event)
    ensures Owes(p, log + [e]) == if e.process == p then NextAfter(e) else Owes(p, log)
  {
    assert (log + [e])[..|log|] == log;
  }

  /** What happens at a move, for the log. */
  function Happens(s: System, move: Move): Log {
    match move
    case Seat(key) => if key in Owner.Peers(s.state) && key !in s.peers then [SatDown(Peer(key))] else []
    case Ask(p, w) =>
      if !Alive(s, p) then []
      else
        match TurnOf(s, p, w).reply
        case Park(_) => []
        case Answer(said) => [Was(p, AskedBy(s, p), said)]
  }

  function Events(s: System, moves: seq<Move>): Log
    decreases moves
  {
    if moves == [] then [] else Happens(s, moves[0]) + Events(Moved(s, moves[0]), moves[1..])
  }

  /** The process is there exactly when the log has it owe a question, and that
      is the question it stands at. */
  ghost predicate Stands(s: System, p: Process, log: Log) {
    (Alive(s, p) <==> Owes(p, log).Some?) && (Alive(s, p) ==> Owes(p, log) == Some(AskedBy(s, p)))
  }

  ghost predicate AllStand(s: System, log: Log) {
    forall p: Process {:trigger Owes(p, log)} | !p.Walker? :: Stands(s, p, log)
  }

  /** This event may come behind that log, its answer of its question's type. */
  ghost predicate InOrder(e: Event, before: Log) {
    match e
    case SatDown(p) => Owes(p, before) == None
    case Was(p, q, said) => R.Fits(q, said) && (!p.Walker? ==> Owes(p, before) == Some(q))
  }

  lemma AtBoot()
    ensures AllStand(Booted(), [])
  {
    forall p: Process | !p.Walker? ensures Stands(Booted(), p, []) {
      assert Owes(p, []) == OnlyQuestion(p);
    }
  }

  /** The process that was answered. */
  lemma AnsweredStands(s: System, p: Process, said: R.Said, log: Log)
    requires Alive(s, p) && !p.Walker?
    ensures Stands(Advanced(s, p, said), p, log + [Was(p, AskedBy(s, p), said)])
  {
    OwesMore(p, log, Was(p, AskedBy(s, p), said));
  }

  /** Every other one. */
  lemma OthersStand(s: System, p: Process, said: R.Said, other: Process)
    requires Alive(s, p) && other != p && !other.Walker?
    ensures
      var after := Advanced(s, p, said);
      Alive(after, other) == Alive(s, other) && (Alive(s, other) ==> AskedBy(after, other) == AskedBy(s, other))
  {
    hide Walk.Goes, HeardIn, SeatedIn, TurnedIn;
    if p.Peer? { AdvancedPeerKeepsTheRest(s, p.key, said); }
  }

  lemma SeatStands(s: System, key: int, log: Log)
    requires AllStand(s, log)
    ensures AllStand(Moved(s, Seat(key)), log + Happens(s, Seat(key)))
    ensures forall e | e in Happens(s, Seat(key)) :: InOrder(e, log)
  {
    hide Owner.Peers, Owes;
    var happens, after := Happens(s, Seat(key)), Moved(s, Seat(key));
    if happens == [] {
      assert log + happens == log;
    } else {
      var e := SatDown(Peer(key));
      assert Stands(s, Peer(key), log);
      forall p: Process | !p.Walker? ensures Stands(after, p, log + [e]) {
        OwesMore(p, log, e);
        assert Stands(s, p, log);
      }
    }
  }

  lemma AskStands(s: System, p: Process, w: Owner.World, log: Log)
    requires AllStand(s, log)
    ensures AllStand(Moved(s, Ask(p, w)), log + Happens(s, Ask(p, w)))
    ensures forall e | e in Happens(s, Ask(p, w)) :: InOrder(e, log)
  {
    hide Owner.Ask, Owes, LostAfter, Advanced, Alive, AskedBy, R.Fits;
    var happens, after := Happens(s, Ask(p, w)), Moved(s, Ask(p, w));
    if happens == [] {
      assert log + happens == log;
      ParkedStand(s, p, w, log);
    } else {
      var t, e := TurnOf(s, p, w), happens[0];
      var asked := s.(state := t.state, lost := LostAfter(s, AskedBy(s, p), w));
      AskedAlike(s, asked);
      Owner.AskFits(s.state, AskedBy(s, p), w);
      if !p.Walker? { assert Stands(s, p, log); }
      forall other: Process | !other.Walker? ensures Stands(after, other, log + [e]) {
        assert Stands(s, other, log);
        if other == p {
          AnsweredStands(asked, p, t.reply.said, log);
        } else {
          OwesMore(other, log, e);
          OthersStand(asked, p, t.reply.said, other);
        }
      }
    }
  }

  /** The owner's state is none of the processes' business. */
  lemma OneAskedAlike(s: System, asked: System, p: Process)
    requires asked == s.(state := asked.state, lost := asked.lost)
    ensures Alive(asked, p) == Alive(s, p) && (Alive(s, p) ==> AskedBy(asked, p) == AskedBy(s, p))
  {
  }

  lemma AskedAlike(s: System, asked: System)
    requires asked == s.(state := asked.state, lost := asked.lost)
    ensures forall p: Process {:trigger Alive(asked, p)} ::
              Alive(asked, p) == Alive(s, p) && (Alive(s, p) ==> AskedBy(asked, p) == AskedBy(s, p))
  {
    hide Alive, AskedBy;
    forall p: Process
      ensures Alive(asked, p) == Alive(s, p) && (Alive(s, p) ==> AskedBy(asked, p) == AskedBy(s, p))
    {
      OneAskedAlike(s, asked, p);
    }
  }

  lemma ParkedStand(s: System, p: Process, w: Owner.World, log: Log)
    requires AllStand(s, log) && Happens(s, Ask(p, w)) == []
    ensures AllStand(Moved(s, Ask(p, w)), log)
  {
    hide Owner.Ask, Owes, LostAfter, Advanced, Alive, AskedBy;
    var after := Moved(s, Ask(p, w));
    AskedAlike(s, after);
    forall other: Process | !other.Walker? ensures Stands(after, other, log) {
      assert Stands(s, other, log);
    }
  }

  lemma {:induction false} OrderFrom(s: System, before: Log, moves: seq<Move>)
    requires AllStand(s, before)
    ensures AllStand(MovedAll(s, moves), before + Events(s, moves))
    ensures
      var log := Events(s, moves);
      forall i | 0 <= i < |log| :: InOrder(log[i], before + log[..i])
    decreases moves
  {
    hide AllStand, Moved, InOrder, Happens;
    if moves == [] {
      assert before + [] == before;
    } else {
      var first, next := Happens(s, moves[0]), Moved(s, moves[0]);
      match moves[0] {
        case Seat(key) => SeatStands(s, key, before);
        case Ask(p, w) => AskStands(s, p, w, before);
      }
      OneAtMost(s, moves[0]);
      OrderFrom(next, before + first, moves[1..]);
      var log, later := Events(s, moves), Events(next, moves[1..]);
      assert before + log == before + first + later;
      forall i | 0 <= i < |log| ensures InOrder(log[i], before + log[..i]) {
        if i < |first| {
          assert log[..i] == [] && before + [] == before;
        } else {
          assert log[i] == later[i - |first|];
          assert before + log[..i] == before + first + later[..i - |first|];
        }
      }
    }
  }

  lemma OneAtMost(s: System, move: Move)
    ensures |Happens(s, move)| <= 1
  {
    hide Owner.Ask;
  }

  /** From boot, under every interleaving, for the starter, the loops and every
      Peer. A process is there exactly while the log has it owe a question, and
      asks that one and no other: a Message heard, once and in order, is its very
      next question handled; true reads on; it is gone after Gone, false or
      Over. */
  lemma EveryProcessAsksInOrder(moves: seq<Move>)
    ensures
      var s, log := MovedAll(Booted(), moves), Events(Booted(), moves);
      && AllStand(s, log)
      && forall i | 0 <= i < |log| :: InOrder(log[i], log[..i])
  {
    hide AllStand, InOrder;
    AtBoot();
    OrderFrom(Booted(), [], moves);
    var log := Events(Booted(), moves);
    assert [] + log == log;
    forall i | 0 <= i < |log| ensures InOrder(log[i], log[..i]) {
      assert [] + log[..i] == log[..i];
    }
  }
}
