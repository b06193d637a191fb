/** main.av: the walk process, once as the source's nested calls and once as a
    machine that stands at one question at a time. */
module Walk {
  import opened Bytes
  import opened Requests

  //
  // Answers as the caller of a question takes them. An answer of another type
  // cannot come (Telling.RunPlaysTape); it is read as Over.
  //

  function DueIn(said: Said): Due { if said.SaidDue? then said.due else Due.Over }
  function BatchIn(said: Said): Batch { if said.SaidBatch? then said.batch else Batch.Over }
  function AlignedIn(said: Said): Aligned { if said.SaidAligned? then said.aligned else Aligned.Over }
  function FetchIn(said: Said): Fetch { if said.SaidFetch? then said.fetch else Fetch.Over }
  function BegunIn(said: Said): Begun { if said.SaidBegun? then said.begun else Begun.Over }
  function StepIn(said: Said): Step { if said.SaidStep? then said.step else Step.Over }
  function ChunkIn(said: Said): Chunk { if said.SaidChunk? then said.chunk else Chunk.Over }
  function SettledIn(said: Said): Settled { if said.SaidSettled? then said.settled else Settled.Over }

  //
  // The source's own form: each function asks, and calls the next. A tape holds
  // the answers; what is asked is kept, and a tape that runs out stops the
  // whole with its last question asked.
  //

  datatype Came<+T> = Waiting(asked: seq<Question>) | Came(value: T, asked: seq<Question>, rest: seq<Said>)

  function After<T>(asked: seq<Question>, came: Came<T>): Came<T> {
    match came
    case Waiting(more) => Waiting(asked + more)
    case Came(value, more, rest) => Came(value, asked + more, rest)
  }

  function HeadersFrom(key: int, tape: seq<Said>): (came: Came<Batch>)
    ensures came.Came? ==> |came.rest| < |tape|
    decreases |tape|
  {
    if tape == [] then Waiting([Question.Headers(key)])
    else
      var batch := BatchIn(tape[0]);
      if batch.More? then After([Question.Headers(key)], HeadersFrom(key, tape[1..]))
      else Came(batch, [Question.Headers(key)], tape[1..])
  }

  function BlocksFrom(height: int, tape: seq<Said>): (came: Came<Chunk>)
    ensures came.Came? ==> |came.rest| < |tape|
    decreases |tape|
  {
    if tape == [] then Waiting([Question.Connected(height)])
    else
      match StepIn(tape[0])
      case Next => After([Question.Connected(height)], BlocksFrom(height + 1, tape[1..]))
      case Ended =>
        if tape[1..] == [] then Waiting([Question.Connected(height), Question.Ended])
        else Came(ChunkIn(tape[1]), [Question.Connected(height), Question.Ended], tape[2..])
      case Refused(why) => Came(Chunk.Refused(why), [Question.Connected(height)], tape[1..])
      case Invalid(blockId, why) => Came(Chunk.Invalid(blockId, why), [Question.Connected(height)], tape[1..])
      case Over => Came(Chunk.Over, [Question.Connected(height)], tape[1..])
  }

  function ChunkOf(final: bool, tape: seq<Said>): (came: Came<Chunk>)
    ensures came.Came? ==> |came.rest| < |tape|
  {
    if tape == [] then Waiting([Question.Begun(final)])
    else
      match BegunIn(tape[0])
      case At(height) => After([Question.Begun(final)], BlocksFrom(height, tape[1..]))
      case Refused(why) => Came(Chunk.Refused(why), [Question.Begun(final)], tape[1..])
      case Invalid(blockId, why) => Came(Chunk.Invalid(blockId, why), [Question.Begun(final)], tape[1..])
      case Over => Came(Chunk.Over, [Question.Begun(final)], tape[1..])
  }

  function SettingUp(tape: seq<Said>): (came: Came<Ending>)
    ensures came.Came? ==> |came.rest| < |tape|
    decreases |tape|
  {
    match ChunkOf(true, tape)
    case Waiting(asked) => Waiting(asked)
    case Came(chunk, asked, rest) =>
      match chunk
      case AtTip => Came(Moved, asked, rest)
      case Built => After(asked, SettingUp(rest))
      case Refused(why) => Came(Ending.Stopped(why), asked, rest)
      case Invalid(blockId, why) => Came(Ending.Invalid(blockId, why), asked, rest)
      case Over => Came(Ending.Over, asked, rest)
  }

  function GoesOn(chunk: Chunk): bool { !chunk.Over? }

  function AfterFetch(fetch: Fetch, tape: seq<Said>): (came: Came<Ending>)
    ensures came.Came? ==> |came.rest| <= |tape|
  {
    match fetch
    case Done => SettingUp(tape)
    case More => Came(Ending.Over, [], tape)
    case Failed(why) => Came(Faulted(why), [], tape)
    case Stopped(why) => Came(Ending.Stopped(why), [], tape)
    case Over => Came(Ending.Over, [], tape)
  }

  function Fetching(key: int, tape: seq<Said>): (came: Came<Ending>)
    ensures came.Came? ==> |came.rest| < |tape|
    decreases |tape|
  {
    if tape == [] then Waiting([Question.Fetched(key)])
    else
      var fetch := FetchIn(tape[0]);
      if fetch.More? then
        match ChunkOf(false, tape[1..])
        case Waiting(asked) => Waiting([Question.Fetched(key)] + asked)
        case Came(chunk, asked, rest) =>
          After([Question.Fetched(key)] + asked, if GoesOn(chunk) then Fetching(key, rest) else AfterFetch(fetch, rest))
      else After([Question.Fetched(key)], AfterFetch(fetch, tape[1..]))
  }

  function Aligning(key: int, tape: seq<Said>): (came: Came<Ending>)
    ensures came.Came? ==> |came.rest| < |tape|
  {
    if tape == [] then Waiting([Question.Aligned(key)])
    else
      match AlignedIn(tape[0])
      case Ready => After([Question.Aligned(key)], Fetching(key, tape[1..]))
      case Stopped(why) => Came(Ending.Stopped(why), [Question.Aligned(key)], tape[1..])
      case Over => Came(Ending.Over, [Question.Aligned(key)], tape[1..])
  }

  function CatchingUp(key: int, tape: seq<Said>): (came: Came<Ending>)
    ensures came.Came? ==> |came.rest| < |tape|
  {
    match HeadersFrom(key, tape)
    case Waiting(asked) => Waiting(asked)
    case Came(batch, asked, rest) =>
      match batch
      case Done => After(asked, Aligning(key, rest))
      case More => Came(Ending.Over, asked, rest)
      case Failed(why) => Came(Faulted(why), asked, rest)
      case Over => Came(Ending.Over, asked, rest)
  }

  function CaughtUp(key: int, tape: seq<Said>): (came: Came<bool>)
    ensures came.Came? ==> |came.rest| < |tape|
    decreases |tape|
  {
    match CatchingUp(key, tape)
    case Waiting(asked) => Waiting(asked)
    case Came(ending, asked, rest) =>
      var settling := asked + [Question.Settled(key, ending)];
      if rest == [] then Waiting(settling)
      else
        match SettledIn(rest[0])
        case Again(next) => After(settling, CaughtUp(next, rest[1..]))
        case Rested => Came(true, settling, rest[1..])
        case Over => Came(false, settling, rest[1..])
  }

  datatype Unit = Unit

  function Walking(tape: seq<Said>): (came: Came<Unit>)
    decreases |tape|
  {
    if tape == [] then Waiting([Question.Due])
    else
      match DueIn(tape[0])
      case Over => Came(Unit, [Question.Due], tape[1..])
      case From(key) =>
        match CaughtUp(key, tape[1..])
        case Waiting(asked) => Waiting([Question.Due] + asked)
        case Came(going, asked, rest) =>
          After([Question.Due] + asked, if going then Walking(rest) else Came(Unit, [], rest))
  }

  //
  // The machine.
  //

  datatype Pc =
    | AtDue
    | AtHeaders(key: int)
    | AtAligned(key: int)
    | AtFetched(key: int)
    | AtBegun(key: int, final: bool)
    | AtConnected(key: int, final: bool, height: int)
    | AtEnded(key: int, final: bool)
    | AtSettled(key: int, ending: Ending)
    | Returned

  function Asks(pc: Pc): Question
    requires !pc.Returned?
  {
    match pc
    case AtDue => Question.Due
    case AtHeaders(key) => Question.Headers(key)
    case AtAligned(key) => Question.Aligned(key)
    case AtFetched(key) => Question.Fetched(key)
    case AtBegun(_, final) => Question.Begun(final)
    case AtConnected(_, _, height) => Question.Connected(height)
    case AtEnded(_, _) => Question.Ended
    case AtSettled(key, ending) => Question.Settled(key, ending)
  }

  /** Where a chunk's outcome leads: between two slices of the download, or on
      the way to the tip. */
  function AfterChunk(key: int, final: bool, chunk: Chunk): Pc {
    if final then
      match chunk
      case AtTip => AtSettled(key, Moved)
      case Built => AtBegun(key, true)
      case Refused(why) => AtSettled(key, Ending.Stopped(why))
      case Invalid(blockId, why) => AtSettled(key, Ending.Invalid(blockId, why))
      case Over => AtSettled(key, Ending.Over)
    else if GoesOn(chunk) then AtFetched(key)
    else AtSettled(key, Ending.Over)
  }

  function Goes(pc: Pc, said: Said): Pc {
    match pc
    case AtDue => (match DueIn(said) case From(key) => AtHeaders(key) case Over => Returned)
    case AtHeaders(key) =>
      (match BatchIn(said)
       case More => AtHeaders(key)
       case Done => AtAligned(key)
       case Failed(why) => AtSettled(key, Faulted(why))
       case Over => AtSettled(key, Ending.Over))
    case AtAligned(key) =>
      (match AlignedIn(said)
       case Ready => AtFetched(key)
       case Stopped(why) => AtSettled(key, Ending.Stopped(why))
       case Over => AtSettled(key, Ending.Over))
    case AtFetched(key) =>
      (match FetchIn(said)
       case More => AtBegun(key, false)
       case Done => AtBegun(key, true)
       case Failed(why) => AtSettled(key, Faulted(why))
       case Stopped(why) => AtSettled(key, Ending.Stopped(why))
       case Over => AtSettled(key, Ending.Over))
    case AtBegun(key, final) =>
      (match BegunIn(said)
       case At(height) => AtConnected(key, final, height)
       case Refused(why) => AfterChunk(key, final, Chunk.Refused(why))
       case Invalid(blockId, why) => AfterChunk(key, final, Chunk.Invalid(blockId, why))
       case Over => AfterChunk(key, final, Chunk.Over))
    case AtConnected(key, final, height) =>
      (match StepIn(said)
       case Next => AtConnected(key, final, height + 1)
       case Ended => AtEnded(key, final)
       case Refused(why) => AfterChunk(key, final, Chunk.Refused(why))
       case Invalid(blockId, why) => AfterChunk(key, final, Chunk.Invalid(blockId, why))
       case Over => AfterChunk(key, final, Chunk.Over))
    case AtEnded(key, final) => AfterChunk(key, final, ChunkIn(said))
    case AtSettled(key, _) =>
      (match SettledIn(said)
       case Again(next) => AtHeaders(next)
       case Rested => AtDue
       case Over => Returned)
    case Returned => Returned
  }

  /** Every question the machine asks of a tape, the unanswered one too. */
  function Asked(pc: Pc, tape: seq<Said>): seq<Question>
    decreases |tape|
  {
    if pc.Returned? then []
    else if tape == [] then [Asks(pc)]
    else [Asks(pc)] + Asked(Goes(pc, tape[0]), tape[1..])
  }

  function Stands(pc: Pc, tape: seq<Said>): Pc
    decreases |tape|
  {
    if pc.Returned? || tape == [] then pc else Stands(Goes(pc, tape[0]), tape[1..])
  }

  //
  // The machine asks what the nested calls ask.
  //

  /** The machine from this point does what a call came to: waits with the same
      questions asked, or goes on from where the call's answer leads. */
  ghost predicate Follows<T>(pc: Pc, tape: seq<Said>, came: Came<T>, next: T -> Pc) {
    match came
    case Waiting(asked) => Asked(pc, tape) == asked && !Stands(pc, tape).Returned?
    case Came(value, asked, rest) =>
      Asked(pc, tape) == asked + Asked(next(value), rest) && Stands(pc, tape) == Stands(next(value), rest)
  }

  /** One question answered, and the rest of the call behind it. */
  lemma FollowsAfter<T>(pc: Pc, tape: seq<Said>, came: Came<T>, next: T -> Pc)
    requires !pc.Returned? && tape != []
    requires Follows(Goes(pc, tape[0]), tape[1..], came, next)
    ensures Follows(pc, tape, After([Asks(pc)], came), next)
  {
    if came.Came? {
      assert [Asks(pc)] + (came.asked + Asked(next(came.value), came.rest)) ==
          [Asks(pc)] + came.asked + Asked(next(came.value), came.rest);
    }
  }

  /** A call that came to a value, then another from there. */
  lemma FollowsThen<S, T>(pc: Pc, tape: seq<Said>, value: S, asked: seq<Question>, rest: seq<Said>, between: S -> Pc,
      came: Came<T>, next: T -> Pc)
    requires Follows(pc, tape, Came(value, asked, rest), between)
    requires Follows(between(value), rest, came, next)
    ensures Follows(pc, tape, After(asked, came), next)
  {
    if came.Came? {
      assert asked + (came.asked + Asked(next(came.value), came.rest)) ==
          asked + came.asked + Asked(next(came.value), came.rest);
    }
  }

  lemma FollowsNow<T>(pc: Pc, tape: seq<Said>, value: T, next: T -> Pc)
    requires !pc.Returned? && tape != [] && Goes(pc, tape[0]) == next(value)
    ensures Follows(pc, tape, Came(value, [Asks(pc)], tape[1..]), next)
  {
  }

  lemma FollowsNothing<T>(pc: Pc, tape: seq<Said>, value: T, next: T -> Pc)
    requires pc == next(value)
    ensures Follows(pc, tape, Came(value, [], tape), next)
  {
    assert [] + Asked(pc, tape) == Asked(pc, tape);
  }

  lemma FollowsWaiting<T>(pc: Pc, next: T -> Pc)
    requires !pc.Returned?
    ensures Follows(pc, [], Waiting([Asks(pc)]), next)
  {
  }

  function AfterBatch(key: int): Batch -> Pc {
    (batch: Batch) =>
      match batch
      case Done => AtAligned(key)
      case More => AtSettled(key, Ending.Over)
      case Failed(why) => AtSettled(key, Faulted(why))
      case Over => AtSettled(key, Ending.Over)
  }

  function Chunked(key: int, final: bool): Chunk -> Pc {
    (chunk: Chunk) => AfterChunk(key, final, chunk)
  }

  function Settling(key: int): Ending -> Pc {
    (ending: Ending) => AtSettled(key, ending)
  }

  function Going(): bool -> Pc {
    (going: bool) => if going then AtDue else Returned
  }

  function Finished(): Unit -> Pc {
    (_: Unit) => Returned
  }

  lemma {:induction false} HeadersFollow(key: int, tape: seq<Said>)
    ensures Follows(AtHeaders(key), tape, HeadersFrom(key, tape), AfterBatch(key))
    decreases |tape|
  {
    hide Follows;
    if tape == [] {
      FollowsWaiting(AtHeaders(key), AfterBatch(key));
    } else if BatchIn(tape[0]).More? {
      HeadersFollow(key, tape[1..]);
      FollowsAfter(AtHeaders(key), tape, HeadersFrom(key, tape[1..]), AfterBatch(key));
    } else {
      FollowsNow(AtHeaders(key), tape, BatchIn(tape[0]), AfterBatch(key));
    }
  }

  lemma {:induction false} BlocksFollow(key: int, final: bool, height: int, tape: seq<Said>)
    ensures Follows(AtConnected(key, final, height), tape, BlocksFrom(height, tape), Chunked(key, final))
    decreases |tape|
  {
    hide Follows;
    var pc, next := AtConnected(key, final, height), Chunked(key, final);
    if tape == [] {
      FollowsWaiting(pc, next);
    } else {
      match StepIn(tape[0])
      case Next =>
        BlocksFollow(key, final, height + 1, tape[1..]);
        FollowsAfter(pc, tape, BlocksFrom(height + 1, tape[1..]), next);
      case Ended => EndedFollow(key, final, height, tape);
      case Refused(why) => FollowsNow(pc, tape, Chunk.Refused(why), next);
      case Invalid(blockId, why) => FollowsNow(pc, tape, Chunk.Invalid(blockId, why), next);
      case Over => FollowsNow(pc, tape, Chunk.Over, next);
    }
  }

  lemma EndedFollow(key: int, final: bool, height: int, tape: seq<Said>)
    requires tape != [] && StepIn(tape[0]).Ended?
    ensures Follows(AtConnected(key, final, height), tape, BlocksFrom(height, tape), Chunked(key, final))
  {
    hide Follows;
    var pc, next, at := AtConnected(key, final, height), Chunked(key, final), AtEnded(key, final);
    assert [Asks(pc)] + [Asks(at)] == [Question.Connected(height), Question.Ended];
    if tape[1..] == [] {
      FollowsWaiting(at, next);
      FollowsAfter(pc, tape, Waiting([Asks(at)]), next);
    } else {
      FollowsNow(at, tape[1..], ChunkIn(tape[1]), next);
      assert tape[1..][1..] == tape[2..];
      FollowsAfter(pc, tape, Came(ChunkIn(tape[1]), [Asks(at)], tape[2..]), next);
    }
  }

  lemma ChunkFollows(key: int, final: bool, tape: seq<Said>)
    ensures Follows(AtBegun(key, final), tape, ChunkOf(final, tape), Chunked(key, final))
  {
    hide Follows;
    var pc, next := AtBegun(key, final), Chunked(key, final);
    if tape == [] {
      FollowsWaiting(pc, next);
    } else {
      match BegunIn(tape[0])
      case At(height) =>
        BlocksFollow(key, final, height, tape[1..]);
        FollowsAfter(pc, tape, BlocksFrom(height, tape[1..]), next);
      case Refused(why) => FollowsNow(pc, tape, Chunk.Refused(why), next);
      case Invalid(blockId, why) => FollowsNow(pc, tape, Chunk.Invalid(blockId, why), next);
      case Over => FollowsNow(pc, tape, Chunk.Over, next);
    }
  }

  /** A call that waits goes on waiting whatever it would lead to. */
  lemma FollowsStill<S, T>(pc: Pc, tape: seq<Said>, asked: seq<Question>, between: S -> Pc, next: T -> Pc)
    requires Follows(pc, tape, Waiting(asked), between)
    ensures Follows(pc, tape, Waiting(asked), next)
  {
  }

  /** A call that came to a value from which nothing more is asked. */
  lemma FollowsStraight<S, T>(pc: Pc, tape: seq<Said>, value: S, asked: seq<Question>, rest: seq<Said>,
      between: S -> Pc, then': T, next: T -> Pc)
    requires Follows(pc, tape, Came(value, asked, rest), between)
    requires between(value) == next(then')
    ensures Follows(pc, tape, Came(then', asked, rest), next)
  {
  }

  lemma {:induction false} SettingUpFollows(key: int, tape: seq<Said>)
    ensures Follows(AtBegun(key, true), tape, SettingUp(tape), Settling(key))
    decreases |tape|
  {
    hide Follows, ChunkOf;
    var pc, between, next := AtBegun(key, true), Chunked(key, true), Settling(key);
    ChunkFollows(key, true, tape);
    match ChunkOf(true, tape)
    case Waiting(asked) => FollowsStill(pc, tape, asked, between, next);
    case Came(chunk, asked, rest) =>
      if chunk.Built? {
        SettingUpFollows(key, rest);
        FollowsThen(pc, tape, chunk, asked, rest, between, SettingUp(rest), next);
      } else {
        FollowsStraight(pc, tape, chunk, asked, rest, between, SettingUp(tape).value, next);
      }
  }

  lemma AfterFetchFollows(key: int, fetch: Fetch, tape: seq<Said>, pc: Pc)
    requires !fetch.More?
    requires pc == match fetch
                   case Done => AtBegun(key, true)
                   case More => AtDue
                   case Failed(why) => AtSettled(key, Faulted(why))
                   case Stopped(why) => AtSettled(key, Ending.Stopped(why))
                   case Over => AtSettled(key, Ending.Over)
    ensures Follows(pc, tape, AfterFetch(fetch, tape), Settling(key))
  {
    hide Follows;
    if fetch.Done? {
      SettingUpFollows(key, tape);
    } else {
      FollowsNothing(pc, tape, AfterFetch(fetch, tape).value, Settling(key));
    }
  }

  lemma {:induction false} FetchingFollows(key: int, tape: seq<Said>)
    ensures Follows(AtFetched(key), tape, Fetching(key, tape), Settling(key))
    decreases |tape|
  {
    hide Follows, ChunkOf;
    var pc, next := AtFetched(key), Settling(key);
    if tape == [] {
      FollowsWaiting(pc, next);
    } else {
      var fetch := FetchIn(tape[0]);
      if fetch.More? {
        var at, between := AtBegun(key, false), Chunked(key, false);
        ChunkFollows(key, false, tape[1..]);
        match ChunkOf(false, tape[1..])
        case Waiting(asked) =>
          FollowsStill(at, tape[1..], asked, between, next);
          FollowsAfter(pc, tape, Waiting(asked), next);
        case Came(chunk, asked, rest) =>
          var later: Came<Ending> := if GoesOn(chunk) then Fetching(key, rest) else AfterFetch(fetch, rest);
          if GoesOn(chunk) {
            FetchingFollows(key, rest);
          } else {
            FollowsNothing(AtSettled(key, Ending.Over), rest, Ending.Over, next);
          }
          FollowsThen(at, tape[1..], chunk, asked, rest, between, later, next);
          FollowsAfter(pc, tape, After(asked, later), next);
          AfterAfter([Question.Fetched(key)], asked, later);
      } else {
        AfterFetchFollows(key, fetch, tape[1..], Goes(pc, tape[0]));
        FollowsAfter(pc, tape, AfterFetch(fetch, tape[1..]), next);
      }
    }
  }

  lemma AfterAfter<T>(a: seq<Question>, b: seq<Question>, came: Came<T>)
    ensures After(a, After(b, came)) == After(a + b, came)
  {
    assert a + (b + came.asked) == a + b + came.asked;
  }

  lemma AligningFollows(key: int, tape: seq<Said>)
    ensures Follows(AtAligned(key), tape, Aligning(key, tape), Settling(key))
  {
    hide Follows, Fetching;
    var pc, next := AtAligned(key), Settling(key);
    if tape == [] {
      FollowsWaiting(pc, next);
    } else {
      match AlignedIn(tape[0])
      case Ready =>
        FetchingFollows(key, tape[1..]);
        FollowsAfter(pc, tape, Fetching(key, tape[1..]), next);
      case Stopped(why) => FollowsNow(pc, tape, Ending.Stopped(why), next);
      case Over => FollowsNow(pc, tape, Ending.Over, next);
    }
  }

  lemma CatchingUpFollows(key: int, tape: seq<Said>)
    ensures Follows(AtHeaders(key), tape, CatchingUp(key, tape), Settling(key))
  {
    hide Follows, HeadersFrom, Aligning;
    var pc, between, next := AtHeaders(key), AfterBatch(key), Settling(key);
    HeadersFollow(key, tape);
    match HeadersFrom(key, tape)
    case Waiting(asked) => FollowsStill(pc, tape, asked, between, next);
    case Came(batch, asked, rest) =>
      if batch.Done? {
        AligningFollows(key, rest);
        FollowsThen(pc, tape, batch, asked, rest, between, Aligning(key, rest), next);
      } else {
        FollowsStraight(pc, tape, batch, asked, rest, between, CatchingUp(key, tape).value, next);
      }
  }

  lemma {:induction false} CaughtUpFollows(key: int, tape: seq<Said>)
    ensures Follows(AtHeaders(key), tape, CaughtUp(key, tape), Going())
    decreases |tape|
  {
    hide Follows, CatchingUp;
    var pc, between, next := AtHeaders(key), Settling(key), Going();
    CatchingUpFollows(key, tape);
    match CatchingUp(key, tape)
    case Waiting(asked) => FollowsStill(pc, tape, asked, between, next);
    case Came(ending, asked, rest) =>
      var at := AtSettled(key, ending);
      var settling: Came<bool> := Waiting([Asks(at)]);
      if rest == [] {
        FollowsWaiting(at, next);
      } else {
        match SettledIn(rest[0])
        case Again(other) =>
          CaughtUpFollows(other, rest[1..]);
          settling := After([Asks(at)], CaughtUp(other, rest[1..]));
          FollowsAfter(at, rest, CaughtUp(other, rest[1..]), next);
          AfterAfter(asked, [Asks(at)], CaughtUp(other, rest[1..]));
        case Rested =>
          settling := Came(true, [Asks(at)], rest[1..]);
          FollowsNow(at, rest, true, next);
        case Over =>
          settling := Came(false, [Asks(at)], rest[1..]);
          FollowsNow(at, rest, false, next);
      }
      FollowsThen(pc, tape, ending, asked, rest, between, settling, next);
  }

  /** For every tape of answers, the machine asks the questions the nested calls
      ask, in their order, and returns exactly when they return. */
  lemma {:induction false} WalkFollows(tape: seq<Said>)
    ensures Follows(AtDue, tape, Walking(tape), Finished())
    decreases |tape|
  {
    hide Follows, CaughtUp;
    var next := Finished();
    if tape == [] {
      FollowsWaiting(AtDue, next);
    } else {
      match DueIn(tape[0])
      case Over => FollowsNow(AtDue, tape, Unit, next);
      case From(key) =>
        var at, between := AtHeaders(key), Going();
        CaughtUpFollows(key, tape[1..]);
        match CaughtUp(key, tape[1..])
        case Waiting(asked) =>
          FollowsStill(at, tape[1..], asked, between, next);
          FollowsAfter(AtDue, tape, Waiting(asked), next);
        case Came(going, asked, rest) =>
          var later: Came<Unit> := if going then Walking(rest) else Came(Unit, [], rest);
          if going {
            WalkFollows(rest);
          } else {
            FollowsNothing(Returned, rest, Unit, next);
          }
          FollowsThen(at, tape[1..], going, asked, rest, between, later, next);
          FollowsAfter(AtDue, tape, After(asked, later), next);
          AfterAfter([Question.Due], asked, later);
    }
  }

  /** The same, said outright. */
  lemma MachineIsTheWalk(tape: seq<Said>)
    ensures Asked(AtDue, tape) == Walking(tape).asked
    ensures Stands(AtDue, tape).Returned? <==> Walking(tape).Came?
  {
    hide Walking;
    WalkFollows(tape);
    if Walking(tape).Came? {
      assert Walking(tape).asked + Asked(Returned, Walking(tape).rest) == Walking(tape).asked;
    }
  }
}
