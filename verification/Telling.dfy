/** What the walk is told while everything else goes on: every interleaving
    plays it a tape of answers, each of its question's type. */
module Telling {
  import opened Bytes
  import opened Walk
  import opened Attempt
  import opened Node
  import Owner
  import R = Requests

  /** What this move answers the walk, if it does. */
  function ToldBy(s: System, move: Move): seq<R.Said> {
    if !(move.Ask? && move.process.Walker?) || s.walk.Returned? then []
    else
      match TurnOf(s, Walker, move.w).reply
      case Park(_) => []
      case Answer(said) => [said]
  }

  /** Every answer given to the walk along the run, in order. */
  function Told(s: System, moves: seq<Move>): seq<R.Said>
    decreases moves
  {
    if moves == [] then [] else ToldBy(s, moves[0]) + Told(Moved(s, moves[0]), moves[1..])
  }

  ghost predicate AllFit(log: Log) {
    forall i | 0 <= i < |log| :: R.Fits(log[i].q, log[i].said)
  }

  /** One move: the walk goes where what it is told takes it. */
  lemma MovedByTelling(s: System, move: Move)
    ensures
      var told := ToldBy(s, move);
      if told == [] then Moved(s, move).walk == s.walk
      else !s.walk.Returned? && Moved(s, move).walk == Goes(s.walk, told[0]) && R.Fits(Asks(s.walk), told[0])
    ensures |ToldBy(s, move)| <= 1
  {
    hide Owner.Ask, Goes, R.Fits;
    if !(move.Ask? && move.process.Walker?) {
      OtherKeepsLost(s, move);
    } else if !s.walk.Returned? {
      MovedByWalker(s, move.w);
      Owner.AskFits(s.state, Asks(s.walk), move.w);
    }
  }

  lemma ToldMore(pc: Pc, said: R.Said, rest: seq<R.Said>)
    requires !pc.Returned?
    ensures
      var tape := [said] + rest;
      && Stands(pc, tape) == Stands(Goes(pc, said), rest)
      && LogFrom(pc, tape) == [Entry(Asks(pc), said)] + LogFrom(Goes(pc, said), rest)
  {
    hide Goes;
    assert ([said] + rest)[1..] == rest;
  }

  /** The walk stands where the answers it was given take it; each of them was
      taken, and was of the type its question has. */
  lemma {:induction false} RunPlaysTape(s: System, moves: seq<Move>)
    ensures
      var tape := Told(s, moves);
      var log := LogFrom(s.walk, tape);
      MovedAll(s, moves).walk == Stands(s.walk, tape) && |log| == |tape| && AllFit(log)
    decreases moves
  {
    hide Moved, ToldBy, Goes, LogFrom, Stands, R.Fits;
    if moves == [] {
      NothingTold(s.walk);
    } else {
      var next, told := Moved(s, moves[0]), ToldBy(s, moves[0]);
      MovedByTelling(s, moves[0]);
      RunPlaysTape(next, moves[1..]);
      if told == [] {
        assert [] + Told(next, moves[1..]) == Told(next, moves[1..]);
      } else {
        assert told == [told[0]];
        ToldMore(s.walk, told[0], Told(next, moves[1..]));
      }
    }
  }

  lemma NothingTold(pc: Pc)
    ensures Stands(pc, []) == pc && LogFrom(pc, []) == []
  {
  }

  function Questions(log: Log): (qs: seq<R.Question>)
    ensures |qs| == |log|
    ensures forall i {:trigger qs[i]} | 0 <= i < |log| :: qs[i] == log[i].q
  {
    seq(|log|, i requires 0 <= i < |log| => log[i].q)
  }

  /** The questions asked are those answered and the one that is open. */
  lemma {:induction false} AskedIsLogged(pc: Pc, tape: seq<R.Said>)
    ensures
      var last := Stands(pc, tape);
      Walk.Asked(pc, tape) == Questions(LogFrom(pc, tape)) + (if last.Returned? then [] else [Asks(last)])
    decreases |tape|
  {
    hide Goes, Asks;
    if !pc.Returned? && tape != [] {
      AskedIsLogged(Goes(pc, tape[0]), tape[1..]);
      assert Questions(LogFrom(pc, tape)) == [Asks(pc)] + Questions(LogFrom(Goes(pc, tape[0]), tape[1..]));
    }
  }

  /** From boot, under every interleaving: the walk has asked what main.av's
      nested calls ask on being told the same, has returned when they have, and
      each question it asked, the open one too, was allowed by what it had been
      told. */
  lemma EveryRunPlaysATape(moves: seq<Move>)
    ensures
      var s, tape := MovedAll(Booted(), moves), Told(Booted(), moves);
      var log := LogFrom(AtDue, tape);
      && s.walk == Stands(AtDue, tape)
      && (s.walk.Returned? <==> Walking(tape).Came?)
      && Walking(tape).asked == Questions(log) + (if s.walk.Returned? then [] else [Asks(s.walk)])
      && |log| == |tape| && AllFit(log)
      && (forall i | 0 <= i < |log| :: Allowed(log[..i], log[i].q))
      && (!s.walk.Returned? ==> Allowed(log, Asks(s.walk)))
  {
    hide Allowed, Walking, LogFrom, Stands, Told, MovedAll, AllFit, Walk.Asked, Questions;
    var tape := Told(Booted(), moves);
    RunPlaysTape(Booted(), moves);
    MachineIsTheWalk(tape);
    AskedIsLogged(AtDue, tape);
    EveryQuestionAllowed(tape);
  }
}
