/**
 The tree walk: `consume` (ignore check, stat, dispatch), `consumeDir`'s
 listing and the `run-series` traversal of its children, which stops at the
 first error.
 */
module Walk {
  import opened Wrappers
  import opened Paths
  import opened Index
  import opened Decide

  /**
   A filesystem node as `fs.stat` and `fs.readdir` would report it.
   `Vanished` is a node whose stat fails; a directory that is not `readable`
   fails its listing. Children are in listing order.
   */
  datatype Node =
    | File(name: string, size: nat, mtime: int)
    | Dir(name: string, mtime: int, readable: bool, children: seq<Node>)
    | Vanished(name: string)

  /** The options that shape the walk: `basePath` and the `ignore` matcher on source paths. */
  datatype Env = Env(basePath: string, ignored: string -> bool)

  /** The vault name of `n`, reached at source path `src` and target-relative path `rel`. */
  function DestOf(env: Env, rel: string, isRoot: bool, n: Node): string
  {
    NodeDest(env.basePath, rel, isRoot && n.File?, n.name)
  }

  /**
   `consume(src)`: an ignored path completes at once; a node that cannot be
   stat'ed fails; a file goes to `consumeFile`; a directory records itself and
   then walks its children. `copyOk` says which source files copy successfully.
   */
  function Consume(s: State, env: Env, copyOk: string -> bool, src: string, rel: string, isRoot: bool, n: Node): (r: Step)
    decreases n
    ensures env.ignored(src) ==> r == Step(s, None)
    // the file count is never decremented, the log is append-only, and no index entry is ever removed
    ensures s.fileCount <= r.state.fileCount
    ensures s.log <= r.state.log
    ensures s.index.Keys <= r.state.index.Keys
  {
    if env.ignored(src) then Step(s, None)
    else
      match n
      case Vanished(_) => Step(s, Some(StatFailed(src)))
      case File(_, size, mtime) =>
        ConsumeFile(s, copyOk(src), src, DestOf(env, rel, isRoot, n), size, mtime)
      case Dir(_, mtime, readable, children) =>
        var s1 := EnterDir(s, DestOf(env, rel, isRoot, n), mtime);
        if !readable then Step(s1, Some(ListFailed(src)))
        else ConsumeAll(s1, env, copyOk, src, rel, children)
  }

  /** `series(children.map(consume), cb)`: in listing order, stopping at the first error. */
  function ConsumeAll(s: State, env: Env, copyOk: string -> bool, dir: string, rel: string, cs: seq<Node>): (r: Step)
    decreases cs
    ensures s.fileCount <= r.state.fileCount
    ensures s.log <= r.state.log
    ensures s.index.Keys <= r.state.index.Keys
  {
    if cs == [] then Step(s, None)
    else
      var c := cs[0];
      var r0 := Consume(s, env, copyOk, SlashJoin(dir, c.name), SlashJoin(rel, c.name), false, c);
      if r0.err.Some? then r0
      else ConsumeAll(r0.state, env, copyOk, dir, rel, cs[1..])
  }

  /** `consume(target, cb)`: the walk of a whole target. */
  function WalkTarget(s: State, env: Env, copyOk: string -> bool, target: string, root: Node): Step
  {
    Consume(s, env, copyOk, target, "", true, root)
  }
}
