/** Small datatypes and arithmetic helpers shared by the other modules. */
module Basics {
  datatype Option<+T> = None | Some(value: T)

  function Max(a: int, b: int): int {
    if a < b then b else a
  }

  function Min(a: int, b: int): int {
    if a < b then a else b
  }

  function Last<T>(s: seq<T>): T
    requires s != []
  {
    s[|s| - 1]
  }

  /** The characters String.prototype.trim removes. */
  predicate Space(c: char) {
    c in {' ', '\t', '\n', '\r', '\U{000B}', '\U{000C}', '\U{00A0}', '\U{1680}',
          '\U{2028}', '\U{2029}', '\U{202F}', '\U{205F}', '\U{3000}', '\U{FEFF}'}
    || '\U{2000}' <= c <= '\U{200A}'
  }

  function TrimStart(s: string): string {
    if s != [] && Space(s[0]) then TrimStart(s[1..]) else s
  }

  function TrimEnd(s: string): string {
    if s != [] && Space(Last(s)) then TrimEnd(s[..|s| - 1]) else s
  }

  function Trim(s: string): string {
    TrimEnd(TrimStart(s))
  }

  ghost predicate Blank(s: string) {
    forall i :: 0 <= i < |s| ==> Space(s[i])
  }

  /** Trimming takes off what is blank at either end, and all of it. */
  ghost predicate Trimmed(s: string, t: string) {
    && (exists a, b :: Blank(a) && Blank(b) && s == a + t + b)
    && (t == [] || (!Space(t[0]) && !Space(t[|t| - 1])))
  }

  lemma {:induction false} TrimStartIs(s: string) returns (a: string)
    ensures Blank(a) && s == a + TrimStart(s) && (TrimStart(s) == [] || !Space(TrimStart(s)[0]))
  {
    if s != [] && Space(s[0]) {
      var rest := TrimStartIs(s[1..]);
      a := [s[0]] + rest;
      assert s == [s[0]] + s[1..];
    } else {
      a := [];
    }
  }

  lemma {:induction false} TrimEndIs(s: string) returns (b: string)
    ensures Blank(b) && s == TrimEnd(s) + b && (TrimEnd(s) == [] || !Space(Last(TrimEnd(s))))
  {
    if s != [] && Space(Last(s)) {
      var rest := TrimEndIs(s[..|s| - 1]);
      b := rest + [Last(s)];
      assert s == s[..|s| - 1] + [Last(s)];
    } else {
      b := [];
      assert s == s + b;
    }
  }

  lemma TrimIs(s: string)
    ensures Trimmed(s, Trim(s))
  {
    var a := TrimStartIs(s);
    var m := TrimStart(s);
    var b := TrimEndIs(m);
    assert s == a + Trim(s) + b;
    assert Trim(s) != [] ==> Trim(s)[0] == m[0];
  }
}
