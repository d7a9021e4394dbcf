/** The prefix-notation domain compiler of `_odoo_attendance.py`, against the meaning Odoo
    gives to a domain: complete expressions in sequence are joined by AND. */
module OdooDomain {
  import opened Prelude
  import opened Attendance

  datatype Field = IdField | WriteDateField | EmployeeField | CheckInField | CheckOutField
  datatype Comparison = Eq | Below | AtMost | Above
  /** `value` None is Odoo's False, the empty value. */
  datatype Condition = Condition(field: Field, comparison: Comparison, value: Option<int>)
  datatype Token = And | Or | Not | Leaf(condition: Condition)

  function FieldValue(row: Row, f: Field): Option<int> {
    match f
    case IdField => Some(row.id)
    case WriteDateField => Some(row.writeDate)
    case EmployeeField => Some(row.material.employee)
    case CheckInField => Some(row.material.checkIn)
    case CheckOutField => row.material.checkOut
  }

  /** An empty field matches only the empty value, and no ordering comparison. */
  predicate Holds(c: Condition, row: Row) {
    var v := FieldValue(row, c.field);
    match c.comparison
    case Eq => v == c.value
    case Below => v.Some? && c.value.Some? && v.value < c.value.value
    case AtMost => v.Some? && c.value.Some? && v.value <= c.value.value
    case Above => v.Some? && c.value.Some? && v.value > c.value.value
  }

  /** Evaluate the first complete expression; the rest of the tokens follows it. */
  function Eat(tokens: seq<Token>, row: Row): (r: Option<(bool, seq<Token>)>)
    ensures r.Some? ==> |r.value.1| < |tokens|
    decreases |tokens|
  {
    if tokens == [] then None
    else
      match tokens[0]
      case Leaf(c) => Some((Holds(c, row), tokens[1..]))
      case Not =>
        var a := Eat(tokens[1..], row);
        if a.None? then None else Some((!a.value.0, a.value.1))
      case And =>
        var a := Eat(tokens[1..], row);
        if a.None? then None
        else
          var b := Eat(a.value.1, row);
          if b.None? then None else Some((a.value.0 && b.value.0, b.value.1))
      case Or =>
        var a := Eat(tokens[1..], row);
        if a.None? then None
        else
          var b := Eat(a.value.1, row);
          if b.None? then None else Some((a.value.0 || b.value.0, b.value.1))
  }

  /** The meaning of a whole domain; None when it is malformed. */
  function Meaning(domain: seq<Token>, row: Row): Option<bool>
    decreases |domain|
  {
    if domain == [] then Some(true)
    else
      var a := Eat(domain, row);
      if a.None? then None
      else
        var rest := Meaning(a.value.1, row);
        if rest.None? then None else Some(a.value.0 && rest.value)
  }

  /** Well-formedness does not depend on the record. */
  lemma {:induction false} EatShape(tokens: seq<Token>, a: Row, b: Row)
    ensures Eat(tokens, a).Some? == Eat(tokens, b).Some?
    ensures Eat(tokens, a).Some? ==> Eat(tokens, a).value.1 == Eat(tokens, b).value.1
    decreases |tokens|
  {
    if tokens != [] && !tokens[0].Leaf? {
      EatShape(tokens[1..], a, b);
      var first := Eat(tokens[1..], a);
      if first.Some? { EatShape(first.value.1, a, b); }
    }
  }

  // ---- expression trees: an independent account of complete expressions -------

  datatype Tree = Test(condition: Condition) | Both(left: Tree, right: Tree) | Either(left: Tree, right: Tree)
    | Negated(tree: Tree)

  predicate Truth(t: Tree, row: Row) {
    match t
    case Test(c) => Holds(c, row)
    case Both(l, r) => Truth(l, row) && Truth(r, row)
    case Either(l, r) => Truth(l, row) || Truth(r, row)
    case Negated(u) => !Truth(u, row)
  }

  function Prefix(t: Tree): seq<Token> {
    match t
    case Test(c) => [Leaf(c)]
    case Both(l, r) => [And] + Prefix(l) + Prefix(r)
    case Either(l, r) => [Or] + Prefix(l) + Prefix(r)
    case Negated(u) => [Not] + Prefix(u)
  }

  /** A tree's prefix notation is one complete expression with the tree's truth value. */
  lemma {:induction false} PrefixIsComplete(t: Tree, rest: seq<Token>, row: Row)
    ensures Eat(Prefix(t) + rest, row) == Some((Truth(t, row), rest))
  {
    match t
    case Test(c) =>
    case Both(l, r) =>
      assert (Prefix(t) + rest)[1..] == Prefix(l) + (Prefix(r) + rest);
      PrefixIsComplete(l, Prefix(r) + rest, row);
      PrefixIsComplete(r, rest, row);
    case Either(l, r) =>
      assert (Prefix(t) + rest)[1..] == Prefix(l) + (Prefix(r) + rest);
      PrefixIsComplete(l, Prefix(r) + rest, row);
      PrefixIsComplete(r, rest, row);
    case Negated(u) =>
      assert (Prefix(t) + rest)[1..] == Prefix(u) + rest;
      PrefixIsComplete(u, rest, row);
  }

  lemma PrefixMeaning(t: Tree, row: Row)
    ensures Meaning(Prefix(t), row) == Some(Truth(t, row))
  {
    PrefixIsComplete(t, [], row);
    assert Prefix(t) + [] == Prefix(t);
  }

  // ---- the compiler ---------------------------------------------------------------

  /** An argument of `_and_domain`: a bare condition or a list of tokens. */
  datatype Expression = Bare(condition: Condition) | Listed(tokens: seq<Token>)

  function Tokens(e: Expression): seq<Token> {
    match e case Bare(c) => [Leaf(c)] case Listed(t) => t
  }

  function Ands(n: nat): seq<Token> { seq(n, i => And) }

  /** The non-empty parts in order. */
  function Parts(es: seq<Expression>): seq<seq<Token>> {
    if es == [] then []
    else if es[0] == Listed([]) then Parts(es[1..])
    else [Tokens(es[0])] + Parts(es[1..])
  }

  function Flat(parts: seq<seq<Token>>): seq<Token> {
    if parts == [] then [] else parts[0] + Flat(parts[1..])
  }

  lemma FlatCons(part: seq<Token>, rest: seq<seq<Token>>)
    ensures Flat([part] + rest) == part + Flat(rest)
  {
    assert ([part] + rest)[1..] == rest;
  }

  function AndDomain(es: seq<Expression>): seq<Token> {
    var parts := Parts(es);
    if parts == [] then [] else Ands(|parts| - 1) + Flat(parts)
  }

  predicate WellFormed(e: Expression, row: Row) { Meaning(Tokens(e), row).Some? }

  predicate AllHold(es: seq<Expression>, row: Row) {
    forall i | 0 <= i < |es| :: Meaning(Tokens(es[i]), row) == Some(true)
  }

  /** The number of complete expressions in a well-formed domain. */
  function Count(domain: seq<Token>, row: Row): nat
    decreases |domain|
  {
    if domain == [] || Eat(domain, row).None? then 0 else 1 + Count(Eat(domain, row).value.1, row)
  }

  lemma {:induction false} EatThenMore(a: seq<Token>, b: seq<Token>, row: Row)
    requires Eat(a, row).Some?
    ensures Eat(a + b, row) == Some((Eat(a, row).value.0, Eat(a, row).value.1 + b))
    decreases |a|
  {
    if !a[0].Leaf? {
      assert (a + b)[1..] == a[1..] + b;
      EatThenMore(a[1..], b, row);
      if a[0] != Not {
        EatThenMore(Eat(a[1..], row).value.1, b, row);
      }
    } else {
      assert (a + b)[1..] == a[1..] + b;
    }
  }

  lemma {:induction false} MeaningOfConcat(a: seq<Token>, b: seq<Token>, row: Row)
    requires Meaning(a, row).Some? && Meaning(b, row).Some?
    ensures Meaning(a + b, row) == Some(Meaning(a, row).value && Meaning(b, row).value)
    ensures Count(a + b, row) == Count(a, row) + Count(b, row)
    decreases |a|
  {
    if a == [] {
      assert a + b == b;
    } else {
      EatThenMore(a, b, row);
      MeaningOfConcat(Eat(a, row).value.1, b, row);
    }
  }

  /** `k` ANDs in front of at least `k + 1` expressions join exactly those. */
  lemma {:induction false} AndsJoin(k: nat, domain: seq<Token>, row: Row)
    requires Meaning(domain, row).Some? && k < Count(domain, row)
    ensures var joined := Eat(Ands(k) + domain, row);
      && joined.Some?
      && Meaning(joined.value.1, row).Some?
      && Meaning(domain, row).value == (joined.value.0 && Meaning(joined.value.1, row).value)
      && Count(joined.value.1, row) == Count(domain, row) - k - 1
  {
    if k == 0 {
      assert Ands(0) + domain == domain;
    } else {
      assert (Ands(k) + domain)[1..] == Ands(k - 1) + domain;
      AndsJoin(k - 1, domain, row);
    }
  }

  lemma {:induction false} FlatMeaning(es: seq<Expression>, row: Row)
    requires forall i | 0 <= i < |es| :: WellFormed(es[i], row)
    ensures Meaning(Flat(Parts(es)), row) == Some(AllHold(es, row))
    ensures Count(Flat(Parts(es)), row) >= |Parts(es)|
  {
    if es != [] {
      FlatMeaning(es[1..], row);
      assert forall i | 0 <= i < |es[1..]| :: es[1..][i] == es[i + 1];
      assert WellFormed(es[0], row);
      assert AllHold(es, row) == (Meaning(Tokens(es[0]), row).value && AllHold(es[1..], row)) by {
        if AllHold(es[1..], row) && Meaning(Tokens(es[0]), row).value {
          forall i | 0 <= i < |es|
            ensures Meaning(Tokens(es[i]), row) == Some(true)
          {
            if i > 0 { assert es[i] == es[1..][i - 1]; }
          }
        }
      }
      if es[0] != Listed([]) {
        MeaningOfConcat(Tokens(es[0]), Flat(Parts(es[1..])), row);
        FlatCons(Tokens(es[0]), Parts(es[1..]));
      }
    }
  }

  /** The compiled domain means the conjunction of what its arguments mean, for any
      well-formed arguments and any record. */
  lemma AndDomainMeaning(es: seq<Expression>, row: Row)
    requires forall i | 0 <= i < |es| :: WellFormed(es[i], row)
    ensures Meaning(AndDomain(es), row) == Some(AllHold(es, row))
  {
    FlatMeaning(es, row);
    if Parts(es) != [] {
      AndsJoin(|Parts(es)| - 1, Flat(Parts(es)), row);
    }
  }

  /** One turn of the loop keeps what was built plus what remains. */
  lemma BuildStep(es: seq<Expression>, i: nat, parts: seq<seq<Token>>, flat: seq<Token>)
    requires i < |es|
    requires parts + Parts(es[i..]) == Parts(es) && flat + Flat(Parts(es[i..])) == Flat(Parts(es))
    ensures es[i] == Listed([]) ==>
      parts + Parts(es[i + 1..]) == Parts(es) && flat + Flat(Parts(es[i + 1..])) == Flat(Parts(es))
    ensures es[i] != Listed([]) ==>
      parts + [Tokens(es[i])] + Parts(es[i + 1..]) == Parts(es)
    ensures es[i] != Listed([]) ==>
      flat + Tokens(es[i]) + Flat(Parts(es[i + 1..])) == Flat(Parts(es))
  {
    var here, rest := Tokens(es[i]), Parts(es[i + 1..]);
    assert es[i..][1..] == es[i + 1..] && es[i..][0] == es[i];
    if es[i] != Listed([]) {
      assert Parts(es[i..]) == [here] + rest;
      Regroup(parts, [here], rest);
      FlatCons(here, rest);
      Regroup(flat, here, Flat(rest));
    }
  }

  lemma Regroup<T>(a: seq<T>, b: seq<T>, c: seq<T>)
    ensures a + (b + c) == a + b + c
  {
  }

  /** The list-building loop of `_and_domain`. */
  method BuildAndDomain(es: seq<Expression>) returns (domain: seq<Token>)
    ensures domain == AndDomain(es)
  {
    var parts: seq<seq<Token>> := [];
    var flat: seq<Token> := [];
    for i := 0 to |es|
      invariant parts + Parts(es[i..]) == Parts(es)
      invariant flat + Flat(Parts(es[i..])) == Flat(Parts(es))
    {
      BuildStep(es, i, parts, flat);
      if es[i] != Listed([]) {
        parts := parts + [Tokens(es[i])];
        flat := flat + Tokens(es[i]);
      }
    }
    assert es[|es|..] == [];
    domain := if parts == [] then [] else Ands(|parts| - 1) + flat;
  }

  // ---- the boundary builders ------------------------------------------------------

  function WriteDateBoundary(date: int, id: int): seq<Token> {
    [Or, Leaf(Condition(WriteDateField, Above, Some(date))),
     And, Leaf(Condition(WriteDateField, Eq, Some(date))), Leaf(Condition(IdField, Above, Some(id)))]
  }

  function WriteDateUpperBoundary(date: int, id: int): seq<Token> {
    [Or, Leaf(Condition(WriteDateField, Below, Some(date))),
     And, Leaf(Condition(WriteDateField, Eq, Some(date))), Leaf(Condition(IdField, AtMost, Some(id)))]
  }

  /** The shape both boundaries have: a or (b and c). */
  lemma BoundaryMeaning(a: Condition, b: Condition, c: Condition, row: Row)
    ensures Meaning([Or, Leaf(a), And, Leaf(b), Leaf(c)], row) ==
      Some(Holds(a, row) || (Holds(b, row) && Holds(c, row)))
  {
    assert Prefix(Both(Test(b), Test(c))) == [And, Leaf(b), Leaf(c)];
    assert Prefix(Either(Test(a), Both(Test(b), Test(c)))) == [Or, Leaf(a), And, Leaf(b), Leaf(c)];
    assert Truth(Both(Test(b), Test(c)), row) == (Holds(b, row) && Holds(c, row));
    PrefixMeaning(Either(Test(a), Both(Test(b), Test(c))), row);
  }

  /** Exactly the rows whose (write date, id) is lexicographically after the cursor. */
  lemma BoundaryMeansAfter(date: int, id: int, row: Row)
    ensures Meaning(WriteDateBoundary(date, id), row) == Some(KeyBelow(date, id, row.writeDate, row.id))
  {
    BoundaryMeaning(Condition(WriteDateField, Above, Some(date)), Condition(WriteDateField, Eq, Some(date)),
                    Condition(IdField, Above, Some(id)), row);
  }

  /** Exactly the rows whose (write date, id) is lexicographically at or before the watermark. */
  lemma UpperBoundaryMeansAtMost(date: int, id: int, row: Row)
    ensures Meaning(WriteDateUpperBoundary(date, id), row) == Some(!KeyBelow(date, id, row.writeDate, row.id))
  {
    BoundaryMeaning(Condition(WriteDateField, Below, Some(date)), Condition(WriteDateField, Eq, Some(date)),
                    Condition(IdField, AtMost, Some(id)), row);
  }

  /** `fetch_employee_attendance_rows`: the employee's rows that overlap [start, end). */
  function EmployeeOverlap(employee: int, start: int, end: Option<int>): seq<Token> {
    AndDomain([
      Bare(Condition(EmployeeField, Eq, Some(employee))),
      Listed([Or, Leaf(Condition(CheckOutField, Eq, None)), Leaf(Condition(CheckOutField, Above, Some(start)))]),
      if end.Some? then Bare(Condition(CheckInField, Below, end)) else Listed([])])
  }

  lemma EmployeeOverlapMeaning(employee: int, start: int, end: Option<int>, row: Row)
    ensures Meaning(EmployeeOverlap(employee, start, end), row) == Some(
      && row.material.employee == employee
      && (row.material.checkOut.None? || row.material.checkOut.value > start)
      && (end.Some? ==> row.material.checkIn < end.value))
  {
    var open := Either(Test(Condition(CheckOutField, Eq, None)), Test(Condition(CheckOutField, Above, Some(start))));
    var es := [
      Bare(Condition(EmployeeField, Eq, Some(employee))),
      Listed([Or, Leaf(Condition(CheckOutField, Eq, None)), Leaf(Condition(CheckOutField, Above, Some(start)))]),
      if end.Some? then Bare(Condition(CheckInField, Below, end)) else Listed([])];
    assert Prefix(open) == [Or] + Prefix(open.left) + Prefix(open.right) == es[1].tokens;
    assert Truth(open, row) == (row.material.checkOut.None? || row.material.checkOut.value > start);
    PrefixMeaning(open, row);
    BareMeaning(Condition(EmployeeField, Eq, Some(employee)), row);
    BareMeaning(Condition(CheckInField, Below, end), row);
    AndDomainMeaning(es, row);
    assert AllHold(es, row) == (
      && Meaning(Tokens(es[0]), row).value && Meaning(Tokens(es[1]), row).value && Meaning(Tokens(es[2]), row).value);
  }

  lemma BareMeaning(c: Condition, row: Row)
    ensures Meaning(Tokens(Bare(c)), row) == Some(Holds(c, row))
  {
    PrefixMeaning(Test(c), row);
  }
}
