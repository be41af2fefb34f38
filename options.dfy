/** A value that may be absent: `T | undefined` / `T | null` in the board's code. */
module Options {
  datatype Option<T> = None | Some(value: T) {
    /** The value if present, otherwise `default` (the `??` / spread-merge fallback). */
    function GetOr(default: T): T {
      match this
      case Some(v) => v
      case None => default
    }
  }
}
