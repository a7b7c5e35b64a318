/** Rows in the order of some of their columns, as an `ORDER BY` or a sort by a tuple key gives
them; a null column value comes last.
*/
module ColumnOrder {
  import opened Wrappers

  type Columns = seq<Option<int>>

  predicate NullableBefore(a: Option<int>, b: Option<int>) {
    a.Some? && (b.None? || a.value < b.value)
  }

  predicate Before(a: Columns, b: Columns)
    requires |a| == |b|
    decreases |a|
  {
    a != [] && (NullableBefore(a[0], b[0]) || (a[0] == b[0] && Before(a[1..], b[1..])))
  }

  lemma {:induction false} BeforeIsStrict(a: Columns, b: Columns, c: Columns)
    requires |a| == |b| == |c|
    ensures !Before(a, a)
    ensures a == b || Before(a, b) || Before(b, a)
    ensures Before(a, b) && Before(b, c) ==> Before(a, c)
    decreases |a|
  {
    if a != [] {
      BeforeIsStrict(a[1..], b[1..], c[1..]);
      assert a == [a[0]] + a[1..] && b == [b[0]] + b[1..];
    }
  }

  function Placed<T(!new)>(x: T, sorted: seq<T>, columns: T -> Columns, width: nat): seq<T>
    requires forall y :: |columns(y)| == width
    decreases |sorted|
  {
    if sorted == [] || Before(columns(x), columns(sorted[0])) then [x] + sorted
    else [sorted[0]] + Placed(x, sorted[1..], columns, width)
  }

  /** The rows of a table by their columns, as an `ORDER BY` gives them. */
  function Ordered<T(!new)>(table: seq<T>, columns: T -> Columns, width: nat): seq<T>
    requires forall y :: |columns(y)| == width
    decreases |table|
  {
    if table == [] then []
    else Placed(table[|table| - 1], Ordered(table[..|table| - 1], columns, width), columns, width)
  }

  ghost predicate Rising<T(!new)>(s: seq<T>, columns: T -> Columns, width: nat)
    requires forall y :: |columns(y)| == width
  {
    forall i, j | 0 <= i < j < |s| :: Before(columns(s[i]), columns(s[j]))
  }

  /** No two entries of a table share their columns. */
  ghost predicate Unlike<T(!new)>(table: seq<T>, columns: T -> Columns) {
    forall i, j | 0 <= i < j < |table| :: columns(table[i]) != columns(table[j])
  }

  lemma {:induction false} PlacedRises<T(!new)>(x: T, sorted: seq<T>, columns: T -> Columns, width: nat)
    requires forall y :: |columns(y)| == width
    requires Rising(sorted, columns, width) && forall y | y in sorted :: columns(y) != columns(x)
    ensures Rising(Placed(x, sorted, columns, width), columns, width)
    ensures multiset(Placed(x, sorted, columns, width)) == multiset(sorted) + multiset{x}
    decreases |sorted|
  {
    var placed := Placed(x, sorted, columns, width);
    if sorted == [] {
      assert placed == [x];
    } else if Before(columns(x), columns(sorted[0])) {
      forall j | 0 <= j < |sorted| ensures Before(columns(x), columns(sorted[j])) {
        BeforeIsStrict(columns(x), columns(sorted[0]), columns(sorted[j]));
      }
      RisesFrom(x, sorted, columns, width);
    } else {
      var rest := Placed(x, sorted[1..], columns, width);
      PlacedRises(x, sorted[1..], columns, width);
      assert sorted == [sorted[0]] + sorted[1..];
      BeforeIsStrict(columns(sorted[0]), columns(x), columns(x));
      hide Placed, Before;
      SameMembers(rest, sorted[1..], x);
      RisesFrom(sorted[0], rest, columns, width);
    }
  }

  lemma SameMembers<T>(a: seq<T>, b: seq<T>, x: T)
    requires multiset(a) == multiset(b) + multiset{x}
    ensures forall y | y in a :: y in b || y == x
  {
    forall y | y in a ensures y in b || y == x { assert y in multiset(a); }
  }

  lemma RisesFrom<T(!new)>(x: T, sorted: seq<T>, columns: T -> Columns, width: nat)
    requires forall y :: |columns(y)| == width
    requires Rising(sorted, columns, width) && forall y | y in sorted :: Before(columns(x), columns(y))
    ensures Rising([x] + sorted, columns, width)
  {
    hide Before;
  }

  lemma {:induction false} OrderedRises<T(!new)>(table: seq<T>, columns: T -> Columns, width: nat)
    requires forall y :: |columns(y)| == width
    requires Unlike(table, columns)
    ensures Rising(Ordered(table, columns, width), columns, width)
    ensures multiset(Ordered(table, columns, width)) == multiset(table)
    decreases |table|
  {
    if table != [] {
      hide Placed, Rising, Unlike, Before;
      var n := |table| - 1;
      var sorted := Ordered(table[..n], columns, width);
      LastIsUnlike(table, columns);
      OrderedRises(table[..n], columns, width);
      SameElements(sorted, table[..n]);
      PlacedRises(table[n], sorted, columns, width);
      assert table == table[..n] + [table[n]];
    }
  }

  lemma LastIsUnlike<T(!new)>(table: seq<T>, columns: T -> Columns)
    requires table != [] && Unlike(table, columns)
    ensures Unlike(table[..|table| - 1], columns)
    ensures forall y | y in table[..|table| - 1] :: columns(y) != columns(table[|table| - 1])
  {
  }

  lemma SameElements<T>(a: seq<T>, b: seq<T>)
    requires multiset(a) == multiset(b)
    ensures forall x :: x in a <==> x in b
  {
    assert forall x :: x in a <==> x in multiset(a);
  }

  lemma SameFirst<T(!new)>(a: seq<T>, b: seq<T>, columns: T -> Columns, width: nat)
    requires forall y :: |columns(y)| == width
    requires Rising(a, columns, width) && Rising(b, columns, width) && a != []
    requires forall y :: y in a <==> y in b
    ensures b != [] && a[0] == b[0]
  {
    assert a[0] in a;
    assert a[0] in b;
    assert b[0] in b;
    assert b[0] in a;
    FirstIsLeast(a, b[0], columns, width);
    FirstIsLeast(b, a[0], columns, width);
    hide Before, Rising;
    BeforeIsStrict(columns(a[0]), columns(b[0]), columns(a[0]));
  }

  lemma RisingRest<T(!new)>(a: seq<T>, columns: T -> Columns, width: nat)
    requires forall y :: |columns(y)| == width
    requires Rising(a, columns, width) && a != []
    ensures Rising(a[1..], columns, width)
    ensures forall y :: y in a[1..] <==> y in a && y != a[0]
  {
    assert a == [a[0]] + a[1..];
    forall y | y in a[1..] ensures y != a[0] {
      var i :| 0 <= i < |a[1..]| && a[1..][i] == y;
      assert Before(columns(a[0]), columns(a[i + 1]));
      BeforeIsStrict(columns(y), columns(y), columns(y));
    }
  }

  /** Rows in rising order are determined by what they are: any other order of them sorts the same. */
  lemma {:induction false} RisingIsUnique<T(!new)>(a: seq<T>, b: seq<T>, columns: T -> Columns, width: nat)
    requires forall y :: |columns(y)| == width
    requires Rising(a, columns, width) && Rising(b, columns, width)
    requires forall y :: y in a <==> y in b
    ensures a == b
    decreases |a|
  {
    hide Rising, Before;
    if a != [] {
      SameFirst(a, b, columns, width);
      RisingRest(a, columns, width);
      RisingRest(b, columns, width);
      RisingIsUnique(a[1..], b[1..], columns, width);
      assert a == [a[0]] + a[1..] && b == [b[0]] + b[1..];
    } else if b != [] {
      SameFirst(b, a, columns, width);
    }
  }

  lemma FirstIsLeast<T(!new)>(s: seq<T>, x: T, columns: T -> Columns, width: nat)
    requires forall y :: |columns(y)| == width
    requires Rising(s, columns, width) && x in s
    ensures x == s[0] || Before(columns(s[0]), columns(x))
  {
    var i :| 0 <= i < |s| && s[i] == x;
  }

  /** Sorting by columns no two rows share gives the same list whatever order the rows came in. */
  lemma OrderedIsOrderFree<T(!new)>(a: seq<T>, b: seq<T>, columns: T -> Columns, width: nat)
    requires forall y :: |columns(y)| == width
    requires Unlike(a, columns) && Unlike(b, columns) && multiset(a) == multiset(b)
    ensures Ordered(a, columns, width) == Ordered(b, columns, width)
  {
    OrderedRises(a, columns, width);
    OrderedRises(b, columns, width);
    SameElements(Ordered(a, columns, width), Ordered(b, columns, width));
    RisingIsUnique(Ordered(a, columns, width), Ordered(b, columns, width), columns, width);
  }
}
