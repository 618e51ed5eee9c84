/** The JavaScript values the two search functions receive from their callers */
module Js {

  /** `null` versus a value */
  datatype Option<+T> = None | Some(value: T)

  /** The `patterns` argument: a string, an array of strings, or any other value */
  datatype Arg = Str(s: string) | Arr(items: seq<string>) | Other(description: string)

  /** The caller's options object. An empty `cwd` stands for a missing (falsy) `cwd`
      property; `nocase` stands for every property that is only passed through to the
      glob engine. */
  class Options {
    var cwd: string
    var matchBase: bool
    var nocase: bool

    /** The object literal `{}` */
    constructor Empty()
      ensures cwd == "" && !matchBase && !nocase
    {
      cwd := "";
      matchBase := false;
      nocase := false;
    }
  }
}
