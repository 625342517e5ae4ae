/**
 The state one import invocation owns: the entry index (vault name to last
 known record), the two status counters and the log of what the importer did
 to the vault and announced on its status emitter.
 */
module Index {
  import opened Wrappers

  /**
   An index record. Files carry a length; a directory record (or a listed
   entry without one) has none. Times are integer epoch milliseconds.
   */
  datatype Record = Record(length: Option<nat>, mtime: int)

  /**
   `status.totalSize`: arithmetic with an absent length (`undefined`) yields
   NaN, and NaN absorbs every later addition. Otherwise it is an unbounded
   integer; the loss of precision of doubles above 2^53 is not modelled.
   */
  datatype Total = Bytes(n: int) | NaN

  /** `t + d`. */
  function Plus(t: Total, d: int): Total
  {
    match t
    case Bytes(n) => Bytes(n + d)
    case NaN => NaN
  }

  /** `t + length`, where an absent length is `undefined`. */
  function AddLength(t: Total, length: Option<nat>): Total
  {
    match length
    case Some(l) => Plus(t, l)
    case None => NaN
  }

  /** `t - oldLength + size`, the adjustment made when a file is updated. */
  function Rebase(t: Total, oldLength: Option<nat>, size: nat): Total
  {
    match oldLength
    case Some(l) => Plus(t, size - l)
    case None => NaN
  }

  datatype Mode = Created | Updated

  /** What the importer did, in order: vault writes and status notifications. */
  datatype Event =
    | Marker(name: string, mtime: int)                  // vault.append of a directory entry
    | Written(name: string, length: nat, mtime: int)    // a completed file write stream
    | Imported(path: string, mode: Mode)                // 'file imported'
    | Skipped(path: string)                             // 'file skipped'

  /** The error a walk hands to its callback. */
  datatype Failure =
    | StatFailed(path: string)     // fs.stat failed
    | ListFailed(path: string)     // fs.readdir failed
    | CopyFailed(path: string)     // the read-to-write pipe failed
    | ListingFailed                // the vault listing used to resume failed

  datatype State = State(index: map<string, Record>, fileCount: nat, totalSize: Total, log: seq<Event>)

  /** The outcome of a step: the state it left and the error it reported, if any. */
  datatype Step = Step(state: State, err: Option<Failure>)

  /** The state of a fresh invocation: `entries = {}`, both counters 0. */
  const Initial := State(map[], 0, Bytes(0), [])

  /** `entries[name]`. */
  function Lookup(index: map<string, Record>, name: string): Option<Record>
  {
    if name in index then Some(index[name]) else None
  }

  /** `log` extends `prefix` with notifications of skipped files only. */
  ghost predicate SkipsOnly(prefix: seq<Event>, log: seq<Event>)
  {
    && prefix <= log
    && forall i :: |prefix| <= i < |log| ==> log[i].Skipped?
  }
}
