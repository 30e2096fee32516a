/** A value that may be missing. */
module Options {
  datatype Option<+T> = None | Some(value: T)
}

/** Facts about sequences, and where the name in "name=value" ends. */
module Sequences {
  lemma Assoc<T>(a: seq<T>, b: seq<T>, c: seq<T>)
    ensures a + b + c == a + (b + c)
  {
  }

  /** The position of the first equals sign, or the length. */
  function EqualsPosition(s: string): (i: nat)
    ensures i <= |s| && (i < |s| ==> s[i] == '=') && forall j :: 0 <= j < i ==> s[j] != '='
  {
    if s == "" || s[0] == '=' then 0 else 1 + EqualsPosition(s[1..])
  }
}
