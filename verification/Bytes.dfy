/** Bytes, optional values and the character classes shared by all components. */
module Bytes {

  /** The machines only compare bytes with ASCII literals, so a byte is written as a
      character; nothing depends on an upper bound. */
  type byte = char

  datatype Option<+T> = None | Some(value: T) {
    function GetOr(default: T): T {
      if Some? then value else default
    }
  }

  /** Space or tab: what the CSS and JavaScript machines squeeze. */
  predicate Blank(b: byte) {
    b == ' ' || b == '\t'
  }

  /** The four bytes a minifier may delete outside strings and comments. */
  predicate White(b: byte) {
    Blank(b) || b == '\n' || b == '\r'
  }

  /** `tolower` in the C locale. */
  function Lower(b: byte): byte {
    if 'A' <= b <= 'Z' then (b as int + 32) as byte else b
  }

  /** Case-insensitive equality of two byte strings (section 3.2 of RFC 7230 for header names). */
  predicate SameNoCase(a: seq<byte>, b: seq<byte>) {
    |a| == |b| && forall i :: 0 <= i < |a| ==> Lower(a[i]) == Lower(b[i])
  }

  /** Two byte strings agree up to case when they differ at most in the bit that tells the cases of a letter apart. */
  lemma {:induction false} SameNoCaseIff(a: seq<byte>, b: seq<byte>)
    ensures SameNoCase(a, b) <==>
              |a| == |b| && forall i :: 0 <= i < |a| ==>
                || a[i] == b[i]
                || ('A' <= a[i] <= 'Z' && b[i] as int == a[i] as int + 32)
                || ('A' <= b[i] <= 'Z' && a[i] as int == b[i] as int + 32)
  {
    if |a| == |b| {
      forall i | 0 <= i < |a|
        ensures Lower(a[i]) == Lower(b[i]) <==>
                  || a[i] == b[i]
                  || ('A' <= a[i] <= 'Z' && b[i] as int == a[i] as int + 32)
                  || ('A' <= b[i] <= 'Z' && a[i] as int == b[i] as int + 32)
      {
        LowerIff(a[i], b[i]);
      }
    }
  }

  lemma {:induction false} LowerIff(a: byte, b: byte)
    ensures Lower(a) == Lower(b) <==>
              || a == b
              || ('A' <= a <= 'Z' && b as int == a as int + 32)
              || ('A' <= b <= 'Z' && a as int == b as int + 32)
  {
  }

  /** No `c` is directly followed by `d`. */
  predicate Lacks(w: seq<byte>, c: byte, d: byte) {
    forall i, j :: 0 <= i < |w| && 0 <= j < |w| && j == i + 1 ==> !(w[i] == c && w[j] == d)
  }

  lemma {:induction false} LacksSuffix(w: seq<byte>, k: nat, c: byte, d: byte)
    requires Lacks(w, c, d) && k <= |w|
    ensures Lacks(w[k..], c, d)
  {
    var u := w[k..];
    forall i, j | 0 <= i && j == i + 1 && j < |u| ensures !(u[i] == c && u[j] == d) {
      var m := k + j;
      assert !(w[k + i] == c && w[m] == d);
    }
  }

  /** Bytes that do not close a string: none of them is `close`, but for those behind a backslash. */
  predicate Inner(w: seq<byte>, close: byte)
    decreases |w|
  {
    || w == []
    || (w[0] == '\\' && |w| >= 2 && Inner(w[2..], close))
    || (w[0] != '\\' && w[0] != close && Inner(w[1..], close))
  }

  ghost predicate Distinct<T>(s: seq<T>) {
    forall i, j :: 0 <= i < j < |s| ==> s[i] != s[j]
  }

  function Spaces(n: nat): seq<byte> {
    seq(n, _ => ' ')
  }

  lemma {:induction false} SpacesNone()
    ensures Spaces(0) == []
  {
  }

  function Last(s: seq<byte>): Option<byte> {
    if s == [] then None else Some(s[|s| - 1])
  }

  /** All pieces of a cut stream, put together again. */
  function Concat<T>(pieces: seq<seq<T>>): seq<T> {
    if pieces == [] then [] else pieces[0] + Concat(pieces[1..])
  }
}
