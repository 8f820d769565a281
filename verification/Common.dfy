/** A nullable column or an absent row. */
module Options {
  datatype Option<+T> = None | Some(value: T)
}

module Arithmetic {
  function Min(x: int, y: int): int {
    if x <= y then x else y
  }

  function Max(x: int, y: int): int {
    if x >= y then x else y
  }
}

/** What a table of finitely many rows always leaves unused. */
module Fresh {
  lemma {:induction false} Above(s: set<nat>) returns (n: nat)
    ensures forall x :: x in s ==> x < n
  {
    n := 0;
    if s != {} {
      var x :| x in s;
      var m := Above(s - {x});
      n := if m <= x then x + 1 else m;
      assert forall y :: y in s ==> y == x || y in s - {x};
    }
  }

  lemma FreshId<V>(rows: map<nat, V>) returns (id: nat)
    ensures id !in rows
  {
    id := Above(rows.Keys);
  }
}
