/**
 Destination-path derivation of the importer.

 Node's `path.join` is modelled only as far as the importer relies on it: two
 segments are joined with one slash, an empty segment contributes nothing, and
 an empty result is reported as ".". No other normalisation is modelled.
 */
module Paths {

  /** Joins two path segments with a single slash; "" is the unit on both sides. */
  function SlashJoin(a: string, b: string): string
  {
    if a == "" then b
    else if b == "" then a
    else a + "/" + b
  }

  /** `path.join(a, b)`: like SlashJoin, except that an empty result is ".". */
  function NodeJoin(a: string, b: string): string
  {
    var p := SlashJoin(a, b);
    if p == "" then "." else p
  }

  /**
   `joinDDatabasePath(base, path)`: the vault name for a node. The "." that
   `path.join` gives for an empty base and an empty relative path stands for the
   root of the vault, whose canonical name is the empty string.
   */
  function JoinDest(base: string, path: string): (p: string)
    ensures p != "."
    ensures base == "" && path == "" ==> p == ""
    ensures base == "" && path != "." ==> p == path
    ensures base != "" && base != "." ==> base <= p
    ensures base != "" && path != "" ==> p == base + "/" + path
  {
    var joined := NodeJoin(base, path);
    if joined == "." then "" else joined
  }

  /**
   The vault name of a node: `basePath` joined with the node's path relative
   to the target, except that a target which is itself a file is named by its
   base name.
   */
  function NodeDest(base: string, rel: string, isRootFile: bool, name: string): string
  {
    if isRootFile then JoinDest(base, name) else JoinDest(base, rel)
  }

  /** The root of a directory import is named by the base path alone: "" when there is none. */
  lemma DirectoryRootName(base: string)
    ensures base == "" ==> JoinDest(base, "") == ""
    ensures base != "." ==> JoinDest(base, "") == base
  {
  }

  /** A file target is named by its base name under the base path, never by "". */
  lemma FileRootName(base: string, name: string)
    requires name != "" && name != "."
    ensures base == "" ==> NodeDest(base, "", true, name) == name
    ensures base != "" ==> NodeDest(base, "", true, name) == base + "/" + name
    ensures NodeDest(base, "", true, name) != ""
  {
  }

  /** With a base path, every vault name lies under it: "foo/bar", "foo/bar/d.txt". */
  lemma BasePathPrefixesEveryName(base: string, rel: string, isRootFile: bool, name: string)
    requires base != "" && base != "."
    ensures base <= NodeDest(base, rel, isRootFile, name)
    ensures rel == "" && !isRootFile ==> NodeDest(base, rel, isRootFile, name) == base
  {
  }
}
