/**
  File-system paths as the Rust code uses them (`PathBuf::join`,
  `file_name`, `to_str`): a path is its list of components. A leading empty
  component stands for the root, so `Path(["", "tmp", "bag"])` is `/tmp/bag`.
 */
module Paths {

  datatype Path = Path(parts: seq<string>)

  /** `path.join(name)` for a plain relative `name`. */
  function Join(p: Path, name: string): Path {
    Path(p.parts + [name])
  }

  /** `file_name()` is `Some` exactly when the last component is a normal name. */
  predicate HasFileName(p: Path) {
    |p.parts| > 0 && p.parts[|p.parts| - 1] !in {"", ".", ".."}
  }

  /** `file_name().unwrap()`; the Rust code panics when there is none. */
  function FileName(p: Path): string
    requires HasFileName(p)
  {
    p.parts[|p.parts| - 1]
  }

  /** The components joined with '/'. */
  function JoinParts(parts: seq<string>): string {
    if |parts| == 0 then ""
    else if |parts| == 1 then parts[0]
    else JoinParts(parts[..|parts| - 1]) + "/" + parts[|parts| - 1]
  }

  /** `to_str()` / `to_string_lossy()` of a path. */
  function Text(p: Path): string {
    JoinParts(p.parts)
  }

  /** Joining a name and rendering the result appends "/name" to the rendered directory. */
  lemma TextOfJoin(p: Path, name: string)
    requires |p.parts| > 0
    ensures Text(Join(p, name)) == Text(p) + "/" + name
  {
    assert Join(p, name).parts[..|p.parts|] == p.parts;
  }
}
