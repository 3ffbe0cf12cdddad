/**
 Rows of a table, whatever their type: queries by key and with a limit, and the rows of one owner. The loads of
 all four edges issue such queries (backend/ent/account_query.go).
 */
module Rows {
  import opened Wrappers

  /** The rows whose owner is one of `keys`, in table order: the IN predicate of a query. */
  function Owned<R(!new)>(table: seq<R>, owner: R -> int, keys: set<int>): (rows: seq<R>)
    ensures forall r :: r in rows <==> r in table && owner(r) in keys
  {
    if table == [] then []
    else (if owner(table[0]) in keys then [table[0]] else []) + Owned(table[1..], owner, keys)
  }

  /** The limit of a query; 0, the zero value of the spec, is none. */
  function Limited<R>(rows: seq<R>, limit: nat): seq<R> {
    if limit == 0 || |rows| <= limit then rows else rows[..limit]
  }

  /** What the query of an edge returns: the limit applies to the rows of all its keys together. */
  function Fetched<R(!new)>(table: seq<R>, owner: R -> int, keys: set<int>, limit: nat): (rows: seq<R>)
    ensures forall r :: r in rows ==> r in table && owner(r) in keys
  {
    Limited(Owned(table, owner, keys), limit)
  }

  lemma {:induction false} NoKeys<R(!new)>(table: seq<R>, owner: R -> int)
    ensures Owned(table, owner, {}) == []
  {
    if table != [] {
      NoKeys(table[1..], owner);
    }
  }

  /** The rows of one owner, in table order: a naive join. */
  function RowsFor<R>(table: seq<R>, owner: R -> int, a: int): seq<R> {
    if table == [] then []
    else (if owner(table[0]) == a then [table[0]] else []) + RowsFor(table[1..], owner, a)
  }

  lemma ConcatAssociates<R>(a: seq<R>, b: seq<R>, c: seq<R>)
    ensures a + (b + c) == (a + b) + c
  {}

  lemma RowsForStep<R>(rows: seq<R>, more: seq<R>, owner: R -> int, a: int)
    requires rows != []
    ensures var head := if owner(rows[0]) == a then [rows[0]] else [];
            && RowsFor(rows, owner, a) == head + RowsFor(rows[1..], owner, a)
            && RowsFor(rows + more, owner, a) == head + RowsFor(rows[1..] + more, owner, a)
  {
    assert (rows + more)[1..] == rows[1..] + more;
  }

  lemma {:induction false} RowsForConcat<R>(rows: seq<R>, more: seq<R>, owner: R -> int, a: int)
    ensures RowsFor(rows + more, owner, a) == RowsFor(rows, owner, a) + RowsFor(more, owner, a)
  {
    if rows == [] {
      assert rows + more == more;
    } else {
      var head := if owner(rows[0]) == a then [rows[0]] else [];
      RowsForStep(rows, more, owner, a);
      RowsForConcat(rows[1..], more, owner, a);
      ConcatAssociates(head, RowsFor(rows[1..], owner, a), RowsFor(more, owner, a));
    }
  }

  function LastOf<R>(rows: seq<R>): Option<R> {
    if rows == [] then None else Some(rows[|rows| - 1])
  }

  lemma ShortLastOf<R>(a: seq<R>, b: seq<R>)
    requires |a| <= 1 && |b| <= 1
    ensures LastOf(a) == LastOf(b) <==> a == b
  {
    if LastOf(a) == LastOf(b) {
      assert |a| == |b| && (|a| == 1 ==> a[0] == b[0]);
    }
  }

  lemma {:induction false} RowsForCounts<R>(table: seq<R>, owner: R -> int, a: int)
    ensures |RowsFor(table, owner, a)| <= |table|
    ensures |RowsFor(table, owner, a)| == 0 <==> forall i :: 0 <= i < |table| ==> owner(table[i]) != a
    ensures |RowsFor(table, owner, a)| == |table| <==> forall i :: 0 <= i < |table| ==> owner(table[i]) == a
  {
    if table != [] {
      RowsForCounts(table[1..], owner, a);
      assert table == [table[0]] + table[1..];
    }
  }

  /** Filtering by the key set first loses none of an owner's rows and keeps their order. */
  lemma {:induction false} RowsOfBatch<R(!new)>(table: seq<R>, owner: R -> int, keys: set<int>, a: int)
    requires a in keys
    ensures RowsFor(Owned(table, owner, keys), owner, a) == RowsFor(table, owner, a)
  {
    if table != [] {
      RowsOfBatch(table[1..], owner, keys, a);
      var rest := Owned(table[1..], owner, keys);
      if owner(table[0]) in keys {
        assert ([table[0]] + rest)[1..] == rest;
      } else {
        assert Owned(table, owner, keys) == rest;
      }
    }
  }

  /** The rows of one owner are those that a query for this key alone returns. */
  lemma {:induction false} OwnedAlone<R(!new)>(table: seq<R>, owner: R -> int, a: int)
    ensures Owned(table, owner, {a}) == RowsFor(table, owner, a)
  {
    if table != [] {
      OwnedAlone(table[1..], owner, a);
    }
  }

  // ----- Limits -----

  /** The limit cuts none of the owner's rows off, or leaves only rows of this owner. */
  ghost predicate CutFair<R>(found: seq<R>, owner: R -> int, a: int, limit: nat) {
    || limit == 0 || |found| <= limit
    || (forall i :: limit <= i < |found| ==> owner(found[i]) != a)
    || (forall i :: 0 <= i < limit ==> owner(found[i]) == a)
  }

  lemma LimitedConcat<R>(kept: seq<R>, cut: seq<R>, limit: nat)
    requires 0 < limit && |kept| <= limit
    ensures kept == Limited(kept + cut, limit) <==> |cut| == 0 || |kept| == limit
  {}

  lemma CutAgreesIff<R>(found: seq<R>, owner: R -> int, a: int, limit: nat)
    requires 0 < limit < |found|
    ensures RowsFor(found[..limit], owner, a) == Limited(RowsFor(found, owner, a), limit)
            <==> CutFair(found, owner, a, limit)
  {
    var kept, cut := found[..limit], found[limit..];
    assert RowsFor(found, owner, a) == RowsFor(kept, owner, a) + RowsFor(cut, owner, a) by {
      assert found == kept + cut;
      RowsForConcat(kept, cut, owner, a);
    }
    RowsForCounts(kept, owner, a);
    RowsForCounts(cut, owner, a);
    LimitedConcat(RowsFor(kept, owner, a), RowsFor(cut, owner, a), limit);
    CutParts(found, owner, a, limit);
  }

  lemma CutParts<R>(found: seq<R>, owner: R -> int, a: int, limit: nat)
    requires 0 < limit < |found|
    ensures CutFair(found, owner, a, limit) <==>
              || (forall i :: 0 <= i < |found[limit..]| ==> owner(found[limit..][i]) != a)
              || (forall i :: 0 <= i < |found[..limit]| ==> owner(found[..limit][i]) == a)
  {
    var kept, cut := found[..limit], found[limit..];
    if forall i :: 0 <= i < |cut| ==> owner(cut[i]) != a {
      forall i | limit <= i < |found| ensures owner(found[i]) != a {
        assert found[i] == cut[i - limit];
      }
    }
    if forall i :: 0 <= i < |kept| ==> owner(kept[i]) == a {
      forall i | 0 <= i < limit ensures owner(found[i]) == a {
        assert found[i] == kept[i];
      }
    }
  }

  lemma UncutAgrees<R>(found: seq<R>, owner: R -> int, a: int, limit: nat)
    requires limit == 0 || |found| <= limit
    ensures Limited(RowsFor(found, owner, a), limit) == RowsFor(found, owner, a)
  {
    RowsForCounts(found, owner, a);
  }

  /** The owner gets of a limited batch what a limited query of its own returns, exactly when the cut is fair to it. */
  lemma LimitAgreesIff<R(!new)>(table: seq<R>, owner: R -> int, keys: set<int>, a: int, limit: nat)
    requires a in keys
    ensures RowsFor(Fetched(table, owner, keys, limit), owner, a) == Limited(RowsFor(table, owner, a), limit)
            <==> CutFair(Owned(table, owner, keys), owner, a, limit)
  {
    var found := Owned(table, owner, keys);
    RowsOfBatch(table, owner, keys, a);
    if limit == 0 || |found| <= limit {
      UncutAgrees(found, owner, a, limit);
    } else {
      CutAgreesIff(found, owner, a, limit);
    }
  }

  // ----- What is read from rows -----

  /** Those of the first n nodes that belong to the owner, in order. */
  ghost function OwnedBy<N>(nodes: seq<N>, owner: N -> int, n: nat, a: int): seq<N>
    requires n <= |nodes|
  {
    if n == 0 then []
    else if owner(nodes[n - 1]) == a then OwnedBy(nodes, owner, n - 1, a) + [nodes[n - 1]]
    else OwnedBy(nodes, owner, n - 1, a)
  }

  /** Nodes read from rows one by one go to the owners of their rows. */
  lemma {:induction false} OwnedByReads<N, R>(nodes: seq<N>, nodeOwner: N -> int, rows: seq<R>, owner: R -> int,
                                              readsFrom: (N, R) -> bool, n: nat, a: int)
    requires n <= |nodes| == |rows|
    requires forall k :: 0 <= k < |rows| ==> readsFrom(nodes[k], rows[k]) && nodeOwner(nodes[k]) == owner(rows[k])
    ensures |OwnedBy(nodes, nodeOwner, n, a)| == |RowsFor(rows[..n], owner, a)|
    ensures forall k :: 0 <= k < |RowsFor(rows[..n], owner, a)| ==>
              readsFrom(OwnedBy(nodes, nodeOwner, n, a)[k], RowsFor(rows[..n], owner, a)[k])
  {
    if n > 0 {
      OwnedByReads(nodes, nodeOwner, rows, owner, readsFrom, n - 1, a);
      assert rows[..n] == rows[..n - 1] + [rows[n - 1]];
      RowsForConcat(rows[..n - 1], [rows[n - 1]], owner, a);
    }
  }

  function Sum(s: seq<nat>): nat {
    if s == [] then 0 else Sum(s[..|s| - 1]) + s[|s| - 1]
  }
}
