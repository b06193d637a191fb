/** What the processes of a following node ask its one owner, and what they are
    answered: infra/wire.av and infra/catching.av. */
module Requests {
  datatype Started = Running | Failed(why: string)
  datatype Heard = Message(command: string, body: seq<int>) | Gone
  datatype Turned = Again | Over
  datatype Due = From(key: int) | Over
  datatype Batch = More | Done | Failed(why: string) | Over
  datatype Aligned = Ready | Stopped(why: string) | Over
  datatype Fetch = More | Done | Failed(why: string) | Stopped(why: string) | Over
  datatype Begun = At(height: int) | Refused(why: string) | Invalid(blockId: string, why: string) | Over
  datatype Step = Next | Ended | Refused(why: string) | Invalid(blockId: string, why: string) | Over
  datatype Chunk = Built | AtTip | Refused(why: string) | Invalid(blockId: string, why: string) | Over
  datatype Ending = Moved | Faulted(why: string) | Stopped(why: string) | Invalid(blockId: string, why: string) | Over
  datatype Settled = Again(key: int) | Rested | Over

  datatype Question =
    | Started
    | Heard(key: int)
    | Handled(key: int, command: string, body: seq<int>)
    | Ticked
    | Accepted
    | Drained
    | Due
    | Headers(key: int)
    | Aligned(key: int)
    | Fetched(key: int)
    | Begun(final: bool)
    | Connected(height: int)
    | Ended
    | Settled(key: int, ending: Ending)

  /** Of the Peers, the clock, the callers, the writer or the starter, and not of
      the walk. */
  predicate OfTheWire(q: Question) {
    q.Started? || q.Heard? || q.Handled? || q.Ticked? || q.Accepted? || q.Drained?
  }

  datatype Said =
    | SaidStarted(started: Started)
    | SaidHeard(heard: Heard)
    | SaidHandled(seated: bool)
    | SaidTurned(turned: Turned)
    | SaidDue(due: Due)
    | SaidBatch(batch: Batch)
    | SaidAligned(aligned: Aligned)
    | SaidFetch(fetch: Fetch)
    | SaidBegun(begun: Begun)
    | SaidStep(step: Step)
    | SaidChunk(chunk: Chunk)
    | SaidSettled(settled: Settled)

  /** An answer of the type its question has. */
  predicate Fits(q: Question, said: Said) {
    match q
    case Started => said.SaidStarted?
    case Heard(_) => said.SaidHeard?
    case Handled(_, _, _) => said.SaidHandled?
    case Ticked => said.SaidTurned?
    case Accepted => said.SaidTurned?
    case Drained => said.SaidTurned?
    case Due => said.SaidDue?
    case Headers(_) => said.SaidBatch?
    case Aligned(_) => said.SaidAligned?
    case Fetched(_) => said.SaidFetch?
    case Begun(_) => said.SaidBegun?
    case Connected(_) => said.SaidStep?
    case Ended => said.SaidChunk?
    case Settled(_, _) => said.SaidSettled?
  }
}
