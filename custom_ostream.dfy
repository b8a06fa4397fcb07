/** The null-terminator scan of the A32 disassembler's output stream. */
module CustomOstream {

  /** Indices of str before n hold no terminator. */
  ghost predicate NoTerminatorBefore(str: array<char>, n: int)
    reads str
    requires 0 <= n <= str.Length
  {
    forall j :: 0 <= j < n ==> str[j] != '\0'
  }

  /**
   * strlen: sixteen unrolled steps that may return early, then a plain loop.
   * The result is the index of the first '\0', whether it lies among the
   * first sixteen characters or after them.
   */
  method Strlen(str: array<char>) returns (n: nat)
    requires exists t :: 0 <= t < str.Length && str[t] == '\0'
    ensures n < str.Length && str[n] == '\0'
    ensures forall j :: 0 <= j < n ==> str[j] != '\0'
  {
    ghost var t :| 0 <= t < str.Length && str[t] == '\0';
    var p := 0;
    for i := 0 to 16
      invariant p == i && p <= t
      invariant NoTerminatorBefore(str, p)
    {
      if str[p] == '\0' {
        return p;
      }
      p := p + 1;
    }
    while str[p] != '\0'
      invariant p <= t
      invariant NoTerminatorBefore(str, p)
      decreases t - p
    {
      p := p + 1;
    }
    n := p;
  }
}
