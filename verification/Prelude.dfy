/** Shared vocabulary of the model. */
module Prelude {
  datatype Option<+T> = None | Some(value: T)

  type Byte = b: int | 0 <= b < 256

  /** Points in time are counted in microseconds, the resolution of the source's `datetime`. */
  type Time = nat

  const SECOND: nat := 1_000_000

  /** Whole seconds; the rest is cut off. */
  function Seconds(t: Time): nat {
    t / SECOND
  }

  /** Truncating both sides can only lose a difference, never create one. */
  lemma SecondsOrder(a: Time, b: Time)
    ensures Seconds(a) < Seconds(b) ==> a < b
    ensures a <= b ==> Seconds(a) <= Seconds(b)
  {
    if b <= a {
      DivideOrder(b, a);
    }
    if a <= b {
      DivideOrder(a, b);
    }
  }

  lemma DivideOrder(a: Time, b: Time)
    requires a <= b
    ensures a / SECOND <= b / SECOND
  {
  }

  predicate IsDigit(c: char) {
    '0' <= c <= '9'
  }

  function Value(c: char): nat
    requires IsDigit(c)
  {
    c as nat - '0' as nat
  }

  /** The value of decimal digits. */
  function Number(s: string): nat
    requires forall i | 0 <= i < |s| :: IsDigit(s[i])
  {
    if s == "" then 0 else 10 * Number(s[..|s| - 1]) + Value(s[|s| - 1])
  }

  /** The pieces one after the other. */
  function Concat<T>(pieces: seq<seq<T>>): seq<T> {
    if pieces == [] then [] else pieces[0] + Concat(pieces[1..])
  }

  /** `rows` lists exactly the elements of `s`, each once: the rows a query returns, in the order the database likes. */
  predicate Lists<T(==)>(rows: seq<T>, s: set<T>) {
    && (forall i | 0 <= i < |rows| :: rows[i] in s)
    && (forall x | x in rows :: x in s)
    && (forall x | x in s :: x in rows)
    && (forall i, j | 0 <= i < j < |rows| :: rows[i] != rows[j])
  }

  lemma {:induction false} RowsExist<T>(s: set<T>)
    ensures exists rows: seq<T> :: Lists(rows, s)
    decreases |s|
  {
    if s == {} {
      assert Lists<T>([], s);
    } else {
      var x :| x in s;
      RowsExist(s - {x});
      var rest: seq<T> :| Lists(rest, s - {x});
      assert ([x] + rest)[0] == x;
      assert Lists([x] + rest, s);
    }
  }
}
