/** The checks the board's input callers make before calling a handler: the text is
    trimmed (`String.prototype.trim`) and must not be empty, and an edit must differ
    from the current text. */
module InputChecks {
  import opened Options

  /** The characters `trim` removes: the ECMAScript WhiteSpace and LineTerminator
      code points (tab, line tabulation, form feed, space, no-break space, byte order
      mark, the Unicode space separators, line feed, carriage return, line and
      paragraph separator). */
  predicate IsSpace(c: char) {
    var n := c as int;
    n == 0x09 || n == 0x0A || n == 0x0B || n == 0x0C || n == 0x0D || n == 0x20
    || n == 0xA0 || n == 0x1680 || (0x2000 <= n <= 0x200A) || n == 0x2028 || n == 0x2029
    || n == 0x202F || n == 0x205F || n == 0x3000 || n == 0xFEFF
  }

  /** The number of white-space characters `s` starts with. */
  function Leading(s: string): (k: nat)
    ensures k <= |s|
    ensures forall i :: 0 <= i < k ==> IsSpace(s[i])
    ensures k == |s| || !IsSpace(s[k])
  {
    if s != [] && IsSpace(s[0]) then 1 + Leading(s[1..]) else 0
  }

  /** `s` without its trailing white space. */
  function TrimEnd(s: string): (r: string)
    ensures |r| <= |s| && r == s[..|r|]
    ensures forall i :: |r| <= i < |s| ==> IsSpace(s[i])
    ensures r == [] || !IsSpace(r[|r| - 1])
  {
    if s != [] && IsSpace(s[|s| - 1]) then TrimEnd(s[..|s| - 1]) else s
  }

  /** `s.trim()`: the slice of `s` left after removing its leading and its trailing
      white space, which neither starts nor ends with white space. */
  function Trim(s: string): (r: string)
    ensures Leading(s) + |r| <= |s| && r == s[Leading(s)..Leading(s) + |r|]
    ensures forall i :: Leading(s) + |r| <= i < |s| ==> IsSpace(s[i])
    ensures r == [] || (!IsSpace(r[0]) && !IsSpace(r[|r| - 1]))
  {
    TrimEnd(s[Leading(s)..])
  }

  /** Trimming is blank exactly when the text is all white space. */
  lemma TrimEmptyIff(s: string)
    ensures Trim(s) == [] <==> forall i :: 0 <= i < |s| ==> IsSpace(s[i])
  {
    var r, k := Trim(s), Leading(s);
    if r != [] {
      assert s[k] == r[0];
    }
  }

  /** The text a submit sends, `text.trim()`, or None when the guard `text.trim()`
      is falsy and no handler is called. */
  function Submitted(input: string): (r: Option<string>)
    ensures r.Some? <==> exists i :: 0 <= i < |input| && !IsSpace(input[i])
    ensures r.Some? ==> r.value == Trim(input) && r.value != []
  {
    TrimEmptyIff(input);
    var t := Trim(input);
    if t != [] then Some(t) else None
  }

  /** The text an in-place edit sends: as for a submit, and only when the trimmed text
      differs from the current one. */
  function Edited(input: string, current: string): (r: Option<string>)
    ensures r.Some? <==> Submitted(input).Some? && Trim(input) != current
    ensures r.Some? ==> r.value == Trim(input) && r.value != [] && r.value != current
  {
    var t := Trim(input);
    if t != [] && t != current then Some(t) else None
  }
}
