/** The order a Catch-up attempt asks in, for every sequence of answers: Headers
    batches, the Set aligned, download turns each with a chunk behind it or
    none, then final chunks, then the ending settled. What an attempt has seen
    is read off its log and not off the machine. */
module Attempt {
  import opened Bytes
  import opened Requests
  import opened Walk

  datatype Entry = Entry(q: Question, said: Said)
  type Log = seq<Entry>

  function LastOf(log: Log): Entry
    requires log != []
  {
    log[|log| - 1]
  }

  function Init(log: Log): Log
    requires log != []
  {
    log[..|log| - 1]
  }

  /** Where an attempt starts: due answered with a Peer, or another one to ask. */
  predicate Starts(e: Entry) {
    e.q.Due? || e.q.Settled?
  }

  function KeyOf(log: Log): Option<int> {
    if log == [] then None
    else
      var e := LastOf(log);
      if e.q.Due? then (if DueIn(e.said).From? then Some(DueIn(e.said).key) else None)
      else if e.q.Settled? then (if SettledIn(e.said).Again? then Some(SettledIn(e.said).key) else None)
      else KeyOf(Init(log))
  }

  /** This attempt has been told the Set is aligned. */
  predicate WasReady(log: Log) {
    log != [] && !Starts(LastOf(log))
    && ((LastOf(log).q.Aligned? && AlignedIn(LastOf(log).said).Ready?) || WasReady(Init(log)))
  }

  /** This attempt has been told every body is here. */
  predicate WasDone(log: Log) {
    log != [] && !Starts(LastOf(log))
    && ((LastOf(log).q.Fetched? && FetchIn(LastOf(log).said).Done?) || WasDone(Init(log)))
  }

  /** The last chunk begun is one on the way to the tip. */
  predicate InFinalChunk(log: Log) {
    log != [] && (if LastOf(log).q.Begun? then LastOf(log).q.final else InFinalChunk(Init(log)))
  }

  /** The Height the chunk under way is at, right behind begun or connected. */
  function NextHeight(log: Log): Option<int> {
    if log == [] then None
    else
      var e := LastOf(log);
      if e.q.Begun? && BegunIn(e.said).At? then Some(BegunIn(e.said).height)
      else if e.q.Connected? && StepIn(e.said).Next? then Some(e.q.height + 1)
      else None
  }

  predicate JustHeard(log: Log, more: bool) {
    log != [] && LastOf(log).q.Headers?
        && (if more then BatchIn(LastOf(log).said).More? else BatchIn(LastOf(log).said).Done?)
  }

  predicate JustStarted(log: Log) {
    log != [] && Starts(LastOf(log)) && KeyOf(log).Some?
  }

  /** How the chunk came out, if this answer ended it. */
  function ChunkAfter(e: Entry): Option<Chunk> {
    if e.q.Begun? then
      match BegunIn(e.said)
      case At(_) => None
      case Refused(why) => Some(Chunk.Refused(why))
      case Invalid(blockId, why) => Some(Chunk.Invalid(blockId, why))
      case Over => Some(Chunk.Over)
    else if e.q.Connected? then
      match StepIn(e.said)
      case Next => None
      case Ended => None
      case Refused(why) => Some(Chunk.Refused(why))
      case Invalid(blockId, why) => Some(Chunk.Invalid(blockId, why))
      case Over => Some(Chunk.Over)
    else if e.q.Ended? then Some(ChunkIn(e.said))
    else None
  }

  /** The download goes on: the Set is aligned, or a chunk between two slices has
      come out and not because the node closed. */
  predicate JustReadyToFetch(log: Log) {
    log != []
    && var e := LastOf(log);
    || (e.q.Aligned? && AlignedIn(e.said).Ready?)
    || (!InFinalChunk(log) && ChunkAfter(e).Some? && !ChunkAfter(e).value.Over?)
  }

  /** The Set goes on to the tip: the bodies are here, or a final chunk was built
      short of it. */
  predicate JustReadyToBuild(log: Log) {
    log != []
    && var e := LastOf(log);
    || (e.q.Fetched? && FetchIn(e.said).Done?)
    || (InFinalChunk(log) && ChunkAfter(e) == Some(Built))
  }

  /** The one ending this last answer leads to, if it leads to one. */
  function EndingAfter(e: Entry, final: bool): Option<Ending> {
    if e.q.Headers? then
      match BatchIn(e.said)
      case More => None
      case Done => None
      case Failed(why) => Some(Faulted(why))
      case Over => Some(Ending.Over)
    else if e.q.Aligned? then
      match AlignedIn(e.said)
      case Ready => None
      case Stopped(why) => Some(Ending.Stopped(why))
      case Over => Some(Ending.Over)
    else if e.q.Fetched? then
      match FetchIn(e.said)
      case More => None
      case Done => None
      case Failed(why) => Some(Faulted(why))
      case Stopped(why) => Some(Ending.Stopped(why))
      case Over => Some(Ending.Over)
    else
      match ChunkAfter(e)
      case None => None
      case Some(chunk) => if final then EndingOfFinal(chunk) else if chunk.Over? then Some(Ending.Over) else None
  }

  function EndingOfFinal(chunk: Chunk): Option<Ending> {
    match chunk
    case AtTip => Some(Moved)
    case Built => None
    case Refused(why) => Some(Ending.Stopped(why))
    case Invalid(blockId, why) => Some(Ending.Invalid(blockId, why))
    case Over => Some(Ending.Over)
  }

  /** Whether this question may come next, by the log alone. */
  predicate Allowed(log: Log, q: Question) {
    match q
    case Due => log == [] || (LastOf(log).q.Settled? && SettledIn(LastOf(log).said).Rested?)
    case Headers(key) => KeyOf(log) == Some(key) && (JustStarted(log) || JustHeard(log, true))
    case Aligned(key) => KeyOf(log) == Some(key) && JustHeard(log, false)
    case Fetched(key) => KeyOf(log) == Some(key) && JustReadyToFetch(log) && WasReady(log) && !WasDone(log)
    case Begun(final) =>
      && WasReady(log) && (WasDone(log) <==> final)
      && (if final then JustReadyToBuild(log)
          else log != [] && LastOf(log).q.Fetched? && FetchIn(LastOf(log).said).More?)
    case Connected(height) => NextHeight(log) == Some(height)
    case Ended => log != [] && LastOf(log).q.Connected? && StepIn(LastOf(log).said).Ended?
    case Settled(key, ending) =>
      && KeyOf(log) == Some(key) && log != [] && EndingAfter(LastOf(log), InFinalChunk(log)) == Some(ending)
      && (ending.Moved? ==> WasReady(log) && WasDone(log))
    case _ => false
  }

  /** What the log says wherever the machine stands. */
  ghost predicate Holds(pc: Pc, log: Log) {
    match pc
    case AtDue => Allowed(log, Question.Due)
    case AtHeaders(key) => Allowed(log, Question.Headers(key)) && !WasReady(log) && !WasDone(log)
    case AtAligned(key) => Allowed(log, Question.Aligned(key)) && !WasReady(log) && !WasDone(log)
    case AtFetched(key) => Allowed(log, Question.Fetched(key))
    case AtBegun(key, final) => Allowed(log, Question.Begun(final)) && KeyOf(log) == Some(key)
    case AtConnected(key, final, height) => Allowed(log, Question.Connected(height)) && InChunk(log, key, final)
    case AtEnded(key, final) => Allowed(log, Question.Ended) && InChunk(log, key, final)
    case AtSettled(key, ending) => Allowed(log, Question.Settled(key, ending))
    case Returned => true
  }

  ghost predicate InChunk(log: Log, key: int, final: bool) {
    KeyOf(log) == Some(key) && WasReady(log) && (WasDone(log) <==> final) && (InFinalChunk(log) <==> final)
  }

  //
  // One entry more, and what the log then says.
  //

  lemma Grown(log: Log, e: Entry)
    ensures
      var more := log + [e];
      && more != [] && LastOf(more) == e && Init(more) == log
  {
  }

  /** An answer inside an attempt: key and chunk stay what they were. */
  lemma GrownInside(log: Log, e: Entry)
    requires !Starts(e)
    ensures
      var more := log + [e];
      && more != [] && LastOf(more) == e && KeyOf(more) == KeyOf(log)
      && InFinalChunk(more) == (if e.q.Begun? then e.q.final else InFinalChunk(log))
      && WasReady(more) == (WasReady(log) || (e.q.Aligned? && AlignedIn(e.said).Ready?))
      && WasDone(more) == (WasDone(log) || (e.q.Fetched? && FetchIn(e.said).Done?))
  {
    Grown(log, e);
  }

  /** An answer an attempt starts from, or ends with: nothing seen yet. */
  lemma GrownAtStart(log: Log, e: Entry)
    requires Starts(e)
    ensures
      var more := log + [e];
      && more != [] && LastOf(more) == e && !WasReady(more) && !WasDone(more)
      && KeyOf(more) == (if e.q.Due? then (if DueIn(e.said).From? then Some(DueIn(e.said).key) else None)
                         else if SettledIn(e.said).Again? then Some(SettledIn(e.said).key) else None)
  {
    Grown(log, e);
  }

  lemma StartHolds(pc: Pc, log: Log, said: Said)
    requires pc.AtDue? || pc.AtSettled?
    ensures Holds(Goes(pc, said), log + [Entry(Asks(pc), said)])
  {
    hide KeyOf, WasReady, WasDone, InFinalChunk, LastOf;
    GrownAtStart(log, Entry(Asks(pc), said));
  }

  lemma HeadersHold(key: int, log: Log, said: Said)
    requires Holds(AtHeaders(key), log)
    ensures Holds(Goes(AtHeaders(key), said), log + [Entry(Question.Headers(key), said)])
  {
    hide KeyOf, WasReady, WasDone, InFinalChunk, LastOf, ChunkAfter;
    GrownInside(log, Entry(Question.Headers(key), said));
  }

  lemma AlignedHolds(key: int, log: Log, said: Said)
    requires Holds(AtAligned(key), log)
    ensures Holds(Goes(AtAligned(key), said), log + [Entry(Question.Aligned(key), said)])
  {
    hide KeyOf, WasReady, WasDone, InFinalChunk, LastOf, ChunkAfter;
    GrownInside(log, Entry(Question.Aligned(key), said));
  }

  lemma FetchedHolds(key: int, log: Log, said: Said)
    requires Holds(AtFetched(key), log)
    ensures Holds(Goes(AtFetched(key), said), log + [Entry(Question.Fetched(key), said)])
  {
    hide KeyOf, WasReady, WasDone, InFinalChunk, LastOf, ChunkAfter;
    GrownInside(log, Entry(Question.Fetched(key), said));
  }

  /** A chunk that has come out leads on, or to its one ending. */
  lemma ChunkOutHolds(key: int, final: bool, log: Log, chunk: Chunk)
    requires InChunk(log, key, final)
    requires log != [] && ChunkAfter(LastOf(log)) == Some(chunk)
    ensures Holds(AfterChunk(key, final, chunk), log)
  {
    hide KeyOf, WasReady, WasDone, InFinalChunk, LastOf;
  }

  lemma BegunHolds(key: int, final: bool, log: Log, said: Said)
    requires Holds(AtBegun(key, final), log)
    ensures Holds(Goes(AtBegun(key, final), said), log + [Entry(Question.Begun(final), said)])
  {
    hide KeyOf, WasReady, WasDone, InFinalChunk, LastOf, AfterChunk;
    var e := Entry(Question.Begun(final), said);
    GrownInside(log, e);
    assert InChunk(log + [e], key, final);
    if ChunkAfter(e).Some? {
      ChunkOutHolds(key, final, log + [e], ChunkAfter(e).value);
    }
  }

  lemma ConnectedHolds(key: int, final: bool, height: int, log: Log, said: Said)
    requires Holds(AtConnected(key, final, height), log)
    ensures Holds(Goes(AtConnected(key, final, height), said), log + [Entry(Question.Connected(height), said)])
  {
    hide KeyOf, WasReady, WasDone, InFinalChunk, LastOf, AfterChunk;
    var e := Entry(Question.Connected(height), said);
    GrownInside(log, e);
    assert InChunk(log + [e], key, final);
    if ChunkAfter(e).Some? {
      ChunkOutHolds(key, final, log + [e], ChunkAfter(e).value);
    }
  }

  lemma EndedHolds(key: int, final: bool, log: Log, said: Said)
    requires Holds(AtEnded(key, final), log)
    ensures Holds(Goes(AtEnded(key, final), said), log + [Entry(Question.Ended, said)])
  {
    hide KeyOf, WasReady, WasDone, InFinalChunk, LastOf, AfterChunk;
    var e := Entry(Question.Ended, said);
    GrownInside(log, e);
    ChunkOutHolds(key, final, log + [e], ChunkIn(said));
  }

  lemma GoesHolds(pc: Pc, log: Log, said: Said)
    requires !pc.Returned? && Holds(pc, log)
    ensures Holds(Goes(pc, said), log + [Entry(Asks(pc), said)])
    ensures Allowed(log, Asks(pc))
  {
    hide Goes;
    match pc
    case AtHeaders(key) => HeadersHold(key, log, said);
    case AtAligned(key) => AlignedHolds(key, log, said);
    case AtFetched(key) => FetchedHolds(key, log, said);
    case AtBegun(key, final) => BegunHolds(key, final, log, said);
    case AtConnected(key, final, height) => ConnectedHolds(key, final, height, log, said);
    case AtEnded(key, final) => EndedHolds(key, final, log, said);
    case _ => StartHolds(pc, log, said);
  }

  /** The questions answered from here, with their answers. */
  function LogFrom(pc: Pc, tape: seq<Said>): Log
    decreases |tape|
  {
    if pc.Returned? || tape == [] then [] else [Entry(Asks(pc), tape[0])] + LogFrom(Goes(pc, tape[0]), tape[1..])
  }

  lemma {:induction false} OrderFrom(pc: Pc, before: Log, tape: seq<Said>)
    requires Holds(pc, before)
    ensures forall i | 0 <= i < |LogFrom(pc, tape)| :: Allowed(before + LogFrom(pc, tape)[..i], LogFrom(pc, tape)[i].q)
    ensures !Stands(pc, tape).Returned? ==> Allowed(before + LogFrom(pc, tape), Asks(Stands(pc, tape)))
    decreases |tape|
  {
    hide Allowed, Goes, Holds;
    var log := LogFrom(pc, tape);
    if !pc.Returned? {
      GoesHolds(pc, before, if tape == [] then SaidHandled(true) else tape[0]);
      if tape == [] {
        assert before + [] == before;
      } else {
        var first := log[0];
        assert log[1..] == LogFrom(Goes(pc, tape[0]), tape[1..]);
        OrderFrom(Goes(pc, tape[0]), before + [first], tape[1..]);
        assert before + log == before + [first] + log[1..];
        forall i | 0 <= i < |log| ensures Allowed(before + log[..i], log[i].q) {
          if i == 0 {
            assert before + log[..0] == before;
          } else {
            assert log[1..][i - 1] == log[i] && log[1..][..i - 1] == log[1..i];
            assert before + log[..i] == before + [first] + log[1..][..i - 1];
          }
        }
      }
    }
  }

  /** Every question the walk ever asks was allowed by what it had been told. */
  lemma EveryQuestionAllowed(tape: seq<Said>)
    ensures var log := LogFrom(AtDue, tape); forall i | 0 <= i < |log| :: Allowed(log[..i], log[i].q)
    ensures !Stands(AtDue, tape).Returned? ==> Allowed(LogFrom(AtDue, tape), Asks(Stands(AtDue, tape)))
  {
    assert Holds(AtDue, []);
    hide Allowed, Holds;
    OrderFrom(AtDue, [], tape);
    var log := LogFrom(AtDue, tape);
    assert [] + log == log;
    forall i | 0 <= i < |log| ensures Allowed(log[..i], log[i].q) {
      assert [] + log[..i] == log[..i];
    }
  }
}
