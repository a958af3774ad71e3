/** C strings: what a pointer to characters reads, and where strchr stops. */
module CStrings {

  /** The terminating NUL is not part of a string and does not occur in it. */
  predicate IsCString(s: string) {
    forall i :: 0 <= i < |s| ==> s[i] != '\0'
  }

  /** `s[i]` as C reads it, the terminator included. */
  function At(s: string, i: nat): char {
    if i < |s| then s[i] else '\0'
  }

  /** A pointer to characters. */
  datatype CString = Null | Chars(s: string)

  function Concat(parts: seq<string>): string {
    if parts == [] then "" else parts[0] + Concat(parts[1..])
  }

  /** The position of the first `c` in `s`, or the length of `s`. */
  function Find(s: string, c: char): (n: nat)
    ensures n <= |s| && (n < |s| ==> s[n] == c) && forall i :: 0 <= i < n ==> s[i] != c
  {
    if s == [] || s[0] == c then 0 else 1 + Find(s[1..], c)
  }

  /** The pieces of `s` between occurrences of `c`. */
  function Split(s: string, c: char): (parts: seq<string>)
    ensures |parts| >= 1
    decreases |s|
  {
    var n := Find(s, c);
    if n == |s| then [s] else [s[..n]] + Split(s[n + 1..], c)
  }

  /** `parts` with `c` between them. */
  function Join(parts: seq<string>, c: char): string
    requires parts != []
  {
    if |parts| == 1 then parts[0] else parts[0] + [c] + Join(parts[1..], c)
  }

  /** Splitting loses nothing and leaves no separator. */
  lemma {:induction false} JoinSplit(s: string, c: char)
    ensures Join(Split(s, c), c) == s
    ensures forall i :: 0 <= i < |Split(s, c)| ==> c !in Split(s, c)[i]
    decreases |s|
  {
    hide Join;
    var n := Find(s, c);
    if n == |s| {
      JoinOne(s, c);
    } else {
      var rest := Split(s[n + 1..], c);
      JoinSplit(s[n + 1..], c);
      JoinMore(s[..n], rest, c);
      assert s == s[..n] + [c] + s[n + 1..];
      forall i | 0 <= i < |rest| + 1 ensures c !in ([s[..n]] + rest)[i] {
        assert i > 0 ==> ([s[..n]] + rest)[i] == rest[i - 1];
      }
    }
  }

  lemma JoinOne(s: string, c: char)
    ensures Join([s], c) == s
  {
  }

  lemma JoinMore(s: string, rest: seq<string>, c: char)
    requires rest != []
    ensures Join([s] + rest, c) == s + [c] + Join(rest, c)
  {
    assert ([s] + rest)[1..] == rest;
  }
}
