/**
 The per-node decisions of the importer: `consumeFile` and the part of
 `consumeDir` that runs before the children are listed.
 */
module Decide {
  import opened Wrappers
  import opened Index

  /** The record a successful transfer of a file of this size and mtime leaves. */
  function FileRecord(size: nat, mtime: int): Record
  {
    Record(Some(size), mtime)
  }

  /**
   `consumeFile`: decide create, update or skip for a file node against the
   index record at `dest`. `copied` is the outcome of piping the source into
   the vault write stream. The counters are settled before the copy starts and
   are not rolled back when it fails; the index record is written only after
   the copy succeeded.
   */
  function ConsumeFile(s: State, copied: bool, src: string, dest: string, size: nat, mtime: int): (r: Step)
    // create: one more file, `size` more bytes
    ensures dest !in s.index ==>
      r.state.fileCount == s.fileCount + 1 && r.state.totalSize == Plus(s.totalSize, size)
    // a known path never changes the file count
    ensures dest in s.index ==> r.state.fileCount == s.fileCount
    // skip: the record already has exactly this length and mtime; nothing but a notification
    ensures dest in s.index && s.index[dest] == FileRecord(size, mtime) ==>
      r == Step(s.(log := s.log + [Skipped(src)]), None)
    // update: any difference in either field; the byte count moves by the delta
    ensures dest in s.index && s.index[dest] != FileRecord(size, mtime) ==>
      r.state.totalSize == Rebase(s.totalSize, s.index[dest].length, size)
    // a failure is a failed transfer, and it leaves index and log as they were
    ensures r.err.Some? <==> !copied && Lookup(s.index, dest) != Some(FileRecord(size, mtime))
    ensures r.err.Some? ==> r.err == Some(CopyFailed(src)) && r.state.index == s.index && r.state.log == s.log
    // after success the index describes the node, and nothing else in it changed
    ensures r.err.None? ==> r.state.index == s.index[dest := FileRecord(size, mtime)]
    // a transfer is announced exactly when it completed
    ensures r.err.None? && Lookup(s.index, dest) != Some(FileRecord(size, mtime)) ==>
      r.state.log == s.log + [Written(dest, size, mtime), Imported(src, if dest in s.index then Updated else Created)]
  {
    match Lookup(s.index, dest)
    case None =>
      Transfer(s.(fileCount := s.fileCount + 1, totalSize := Plus(s.totalSize, size)),
               copied, src, dest, size, mtime, Created)
    case Some(entry) =>
      if entry.length != Some(size) || entry.mtime != mtime then
        Transfer(s.(totalSize := Rebase(s.totalSize, entry.length, size)),
                 copied, src, dest, size, mtime, Updated)
      else
        Step(s.(log := s.log + [Skipped(src)]), None)
  }

  /** The `next(mode)` continuation of `consumeFile`: copy, then commit the record. */
  function Transfer(s: State, copied: bool, src: string, dest: string, size: nat, mtime: int, mode: Mode): Step
  {
    if !copied then Step(s, Some(CopyFailed(src)))
    else
      Step(s.(index := s.index[dest := FileRecord(size, mtime)],
              log := s.log + [Written(dest, size, mtime), Imported(src, mode)]), None)
  }

  /**
   The part of `consumeDir` before the listing: append a directory marker
   unless the record's mtime already equals the node's, then record the mtime
   (an existing record keeps its other fields).
   */
  function EnterDir(s: State, dest: string, mtime: int): (r: State)
    ensures dest in r.index && r.index[dest].mtime == mtime
    ensures dest in s.index ==> r.index[dest].length == s.index[dest].length
    ensures dest !in s.index ==> r.index[dest].length == None
    ensures forall k :: k != dest ==> Lookup(r.index, k) == Lookup(s.index, k)
    ensures r.fileCount == s.fileCount && r.totalSize == s.totalSize
    // the marker is appended exactly when there is no record or its mtime differs
    ensures dest !in s.index || s.index[dest].mtime != mtime <==> r.log == s.log + [Marker(dest, mtime)]
    ensures dest in s.index && s.index[dest].mtime == mtime ==> r == s
  {
    var entry := Lookup(s.index, dest);
    var s1 := if entry.Some? && entry.value.mtime == mtime then s
              else s.(log := s.log + [Marker(dest, mtime)]);
    var length := if entry.Some? then entry.value.length else None;
    s1.(index := s1.index[dest := Record(length, mtime)])
  }

  /** After a successful transfer the same (size, mtime) is skipped: re-import is idempotent. */
  lemma ReimportSkips(s: State, copied: bool, again: bool, src: string, dest: string, size: nat, mtime: int)
    requires ConsumeFile(s, copied, src, dest, size, mtime).err.None?
    ensures var t := ConsumeFile(s, copied, src, dest, size, mtime).state;
      ConsumeFile(t, again, src, dest, size, mtime) == Step(t.(log := t.log + [Skipped(src)]), None)
  {
  }

  /**
   A failed copy of a new file keeps the counters it already bumped but leaves
   no record, so consuming the file again counts it a second time.
   */
  lemma FailedCreateCountsAgain(s: State, src: string, dest: string, size: nat, mtime: int)
    requires dest !in s.index
    ensures var t := ConsumeFile(s, false, src, dest, size, mtime).state;
      && dest !in t.index
      && ConsumeFile(t, true, src, dest, size, mtime).state.fileCount == s.fileCount + 2
  {
  }
}
