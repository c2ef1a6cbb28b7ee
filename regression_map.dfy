/** `getComponentRegressionMap`: for each component, the components whose
    changes most often cause regressions in it, with their probabilities,
    keeping those at or above a threshold. */
module RegressionMap {

  /** One record of the component connections data: a component and, for
      each component it causes regressions in, the probability. */
  datatype Connection = Connection(component: string, mostCommon: map<string, real>)

  /** The default threshold: connections under 5% are ignored. */
  const DefaultThreshold: real := 0.05

  /** Regression component, then causing component, to probability. */
  type RegressionTable = map<string, map<string, real>>

  /** Connection `c` lists regression component `r` at a probability not
      below the threshold. */
  predicate Kept(c: Connection, r: string, t: real) {
    r in c.mostCommon && !(c.mostCommon[r] < t)
  }

  /** The inner loop after visiting the keys in `visited`. */
  function AddVisited(m: RegressionTable, c: Connection, t: real, visited: set<string>): RegressionTable {
    map r | r in m.Keys + (set k | k in visited && Kept(c, k, t)) ::
      if r in visited && Kept(c, r, t) then (if r in m then m[r] else map[])[c.component := c.mostCommon[r]]
      else m[r]
  }

  /** One connection's contribution: every kept key visited. */
  function AddConnection(m: RegressionTable, c: Connection, t: real): RegressionTable {
    AddVisited(m, c, t, c.mostCommon.Keys)
  }

  /** The table after the first `n` connections. */
  function TableUpTo(cs: seq<Connection>, t: real, n: nat): RegressionTable
    requires n <= |cs|
  {
    if n == 0 then map[] else AddConnection(TableUpTo(cs, t, n - 1), cs[n - 1], t)
  }

  /** Visiting one more key: a kept key gets its entry, creating the inner
      table when it is missing; any other key changes nothing. */
  lemma AddVisitedStep(m: RegressionTable, c: Connection, t: real, visited: set<string>, r: string)
    requires r !in visited
    ensures var before := AddVisited(m, c, t, visited);
      AddVisited(m, c, t, visited + {r}) ==
        if Kept(c, r, t) then before[r := (if r in before then before[r] else map[])[c.component := c.mostCommon[r]]]
        else before
  {
    var before := AddVisited(m, c, t, visited);
    var after := AddVisited(m, c, t, visited + {r});
    if Kept(c, r, t) {
      assert r in before ==> before[r] == m[r];
      var expected := before[r := (if r in before then before[r] else map[])[c.component := c.mostCommon[r]]];
      assert after.Keys == expected.Keys;
    } else {
      assert after.Keys == before.Keys;
    }
  }

  /** The outer loop over the connections. */
  method ComponentRegressionMap(connections: seq<Connection>, threshold: real) returns (table: RegressionTable)
    ensures table == TableUpTo(connections, threshold, |connections|)
  {
    table := map[];
    var i := 0;
    while i < |connections|
      invariant 0 <= i <= |connections|
      invariant table == TableUpTo(connections, threshold, i)
    {
      table := AddRegressionComponents(table, connections[i], threshold);
      i := i + 1;
    }
  }

  /** The inner loop over one connection's regression components. */
  method AddRegressionComponents(start: RegressionTable, c: Connection, threshold: real) returns (table: RegressionTable)
    ensures table == AddConnection(start, c, threshold)
  {
    table := start;
    var rest := c.mostCommon.Keys;
    while rest != {}
      invariant rest <= c.mostCommon.Keys
      invariant table == AddVisited(start, c, threshold, c.mostCommon.Keys - rest)
      decreases |rest|
    {
      var r :| r in rest;
      AddVisitedStep(start, c, threshold, c.mostCommon.Keys - rest, r);
      assert c.mostCommon.Keys - rest + {r} == c.mostCommon.Keys - (rest - {r});
      if !(c.mostCommon[r] < threshold) {
        table := SetEntry(table, r, c.component, c.mostCommon[r]);
      }
      rest := rest - {r};
    }
    assert c.mostCommon.Keys - rest == c.mostCommon.Keys;
  }

  /** `result[r] ??= {}; result[r][comp] = p;` */
  method SetEntry(table: RegressionTable, r: string, comp: string, p: real) returns (t: RegressionTable)
    ensures t == table[r := (if r in table then table[r] else map[])[comp := p]]
  {
    t := table;
    if r !in t {
      t := t[r := map[]];
    }
    t := t[r := t[r][comp := p]];
  }

  /** Connection `i` supplies the entry for `r` and `comp`. */
  predicate Supplies(cs: seq<Connection>, t: real, i: int, r: string, comp: string) {
    0 <= i < |cs| && cs[i].component == comp && Kept(cs[i], r, t)
  }

  /** The table has an entry for regression component `r` and causing component `comp`. */
  predicate HasEntry(m: RegressionTable, r: string, comp: string) {
    r in m && comp in m[r]
  }

  /** Every regression component listed has at least one causing component. */
  predicate NoEmptyTables(m: RegressionTable) {
    forall r :: r in m ==> m[r].Keys != {}
  }

  /** What one connection does to the table's entries. */
  lemma AddConnectionEntries(m: RegressionTable, c: Connection, t: real)
    ensures var m' := AddConnection(m, c, t);
      (forall r :: r in m ==> r in m' && m[r].Keys <= m'[r].Keys)
      && (forall r, comp :: HasEntry(m', r, comp) <==> HasEntry(m, r, comp) || (Kept(c, r, t) && comp == c.component))
      && (forall r, comp :: HasEntry(m', r, comp) ==>
            m'[r][comp] == if Kept(c, r, t) && comp == c.component then c.mostCommon[r] else m[r][comp])
  {
    var m' := AddConnection(m, c, t);
    forall r, comp ensures HasEntry(m', r, comp) <==> HasEntry(m, r, comp) || (Kept(c, r, t) && comp == c.component) {
      if Kept(c, r, t) {
        assert r in m' && m'[r] == (if r in m then m[r] else map[])[c.component := c.mostCommon[r]];
      } else {
        assert r in m' <==> r in m;
        assert r in m ==> m'[r] == m[r];
      }
    }
  }

  /** No regression component in the table has an empty inner table. */
  lemma {:induction false} TableHasNoEmptyTables(cs: seq<Connection>, t: real, n: nat)
    requires n <= |cs|
    ensures NoEmptyTables(TableUpTo(cs, t, n))
  {
    if n > 0 {
      TableHasNoEmptyTables(cs, t, n - 1);
      var prev := TableUpTo(cs, t, n - 1);
      var m := TableUpTo(cs, t, n);
      var c := cs[n - 1];
      AddConnectionEntries(prev, c, t);
      forall r | r in m ensures m[r].Keys != {} {
        if r in prev {
          assert prev[r].Keys != {};
          var comp :| comp in prev[r].Keys;
          assert HasEntry(prev, r, comp);
        } else {
          assert HasEntry(m, r, c.component);
        }
      }
    }
  }

  /** The table holds an entry exactly where some connection lists the
      regression component at or above the threshold. */
  lemma {:induction false} TableEntryIffSupplied(cs: seq<Connection>, t: real, n: nat)
    requires n <= |cs|
    ensures forall r, comp :: HasEntry(TableUpTo(cs, t, n), r, comp) <==> exists i :: 0 <= i < n && Supplies(cs, t, i, r, comp)
  {
    if n > 0 {
      TableEntryIffSupplied(cs, t, n - 1);
      var prev := TableUpTo(cs, t, n - 1);
      var m := TableUpTo(cs, t, n);
      AddConnectionEntries(prev, cs[n - 1], t);
      forall r, comp ensures HasEntry(m, r, comp) <==> exists i :: 0 <= i < n && Supplies(cs, t, i, r, comp) {
        if exists i :: 0 <= i < n && Supplies(cs, t, i, r, comp) {
          var i :| 0 <= i < n && Supplies(cs, t, i, r, comp);
          if i < n - 1 {
            assert HasEntry(prev, r, comp);
          }
        }
        if HasEntry(m, r, comp) {
          if HasEntry(prev, r, comp) {
            var i :| 0 <= i < n - 1 && Supplies(cs, t, i, r, comp);
          } else {
            assert Supplies(cs, t, n - 1, r, comp);
          }
        }
      }
    }
  }

  /** Every probability in the table is at least `t`. */
  ghost predicate AllAtLeast(m: RegressionTable, t: real) {
    forall r, comp :: HasEntry(m, r, comp) ==> !(m[r][comp] < t)
  }

  /** Every probability in the table is at least the threshold. */
  lemma {:induction false} TableAboveThreshold(cs: seq<Connection>, t: real, n: nat)
    requires n <= |cs|
    ensures AllAtLeast(TableUpTo(cs, t, n), t)
  {
    if n > 0 {
      TableAboveThreshold(cs, t, n - 1);
      var prev := TableUpTo(cs, t, n - 1);
      var m := TableUpTo(cs, t, n);
      var c := cs[n - 1];
      AddConnectionEntries(prev, c, t);
      forall r, comp | HasEntry(m, r, comp) ensures !(m[r][comp] < t) {
        if Kept(c, r, t) && comp == c.component {
          assert m[r][comp] == c.mostCommon[r] && !(c.mostCommon[r] < t);
        } else {
          assert HasEntry(prev, r, comp) && m[r][comp] == prev[r][comp];
        }
      }
    }
  }

  /** An entry's probability is the one listed by the last connection that
      supplies it. */
  lemma {:induction false} TableLastSupplierWins(cs: seq<Connection>, t: real, n: nat)
    requires n <= |cs|
    ensures var m := TableUpTo(cs, t, n);
      forall r, comp, i ::
        (0 <= i < n && Supplies(cs, t, i, r, comp) && forall j :: i < j < n ==> !Supplies(cs, t, j, r, comp))
        ==> HasEntry(m, r, comp) && m[r][comp] == cs[i].mostCommon[r]
  {
    if n > 0 {
      TableLastSupplierWins(cs, t, n - 1);
      var prev := TableUpTo(cs, t, n - 1);
      var m := TableUpTo(cs, t, n);
      AddConnectionEntries(prev, cs[n - 1], t);
      forall r, comp, i | 0 <= i < n && Supplies(cs, t, i, r, comp) && (forall j :: i < j < n ==> !Supplies(cs, t, j, r, comp))
        ensures HasEntry(m, r, comp) && m[r][comp] == cs[i].mostCommon[r]
      {
        if i < n - 1 {
          assert !Supplies(cs, t, n - 1, r, comp);
          assert HasEntry(prev, r, comp) && prev[r][comp] == cs[i].mostCommon[r];
        }
      }
    }
  }
}
