/** An optional value, and a value or the reason there is none. */
module Wrappers {
  datatype Option<+T> = None | Some(value: T)

  datatype Result<+R, +E> = Ok(value: R) | Err(error: E)
}

/**
 Filesystem paths as sequences of segments; the root is the empty sequence. `PathStrings`
 relates this form to the slash-separated strings the client works on.
 */
module Paths {

  type Name = string
  type Path = seq<Name>

  datatype Kind = FileKind | DirKind

  /** The reasons a filesystem request is refused. */
  datatype Error = NotFound | NotDirectory | NotFile | AlreadyExists | NotEmpty | TooLarge | Invalid

  function Parent(p: Path): Path
    requires p != []
  {
    p[..|p| - 1]
  }

  /** `p` with its leading `from` replaced by `to`. */
  function Rebase(p: Path, from: Path, to: Path): Path
    requires from <= p
  {
    to + p[|from|..]
  }
}
